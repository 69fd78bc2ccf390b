# Verified model of the crash-tolerant runtime

The runtime keeps several durable files in step while its processes die at arbitrary points and other
processes write the same state.  This project models those protocols in Dafny and proves what they keep.
`dafny verify dfyconfig.toml` checks everything.

| module | models |
|---|---|
| `Microverse`, `MicroverseSession` | the promotion transaction of a measured session: live branch, metric file, experiment ledger, iteration counter, candidate worktree and the write-ahead attempt record, with recovery, the loop and its exit |
| `EmptyCandidate` | the run in which an improvement without changes is accepted |
| `WatchStrategies`, `WatchStrategyTheorems` | the hash-chained, cursor-driven strategy machine of the adoption watch and its replaying validator |
| `MaterialLedger` | the two-copy reservation ledger: reconcile, restore and record |
| `AdoptionWatch` | the watcher: boot, reservation, dispatch, restart, over any number of processes |
| `CanonicalJson` | the canonical text behind every digest, and a parser for it |
| `CancellationRecovery`, `CancellationReconcile` | cancellation recovery over shared state, as a machine of atomic steps and as the process that takes them |
| `BudgetRollover`, `BudgetOrder`, `BudgetSession` | autonomous budget rollover: racing schedulers and consumers with a receipt journal, and the order of the receipts |
| `OwnerHandoff`, `HandoffSession` | the runtime handoff transaction of the autonomous owner, and the registration of supervisors |
| `Descendants` | descendant search, promotion and shutdown convergence of the monitored process broker |
| `ShellWords` | the shell-word tokenizer of the configuration guard |
| `TicketClosure` | the tickets affected by a remediation |
| `DeterministicRecovery` | strategy selection for failed deterministic checks |
| `Basics` | shared types |

## How crashes, races and the outside world are modelled

* A crash is a method that stops before a write, so its postcondition holds at every crash point.  In
  `MicroverseSession` every durable write is preceded by a step in which the user may do anything to the
  live checkout and the process may die or the write may fail.  `Lifetimes` methods start the next process
  on what is left.  An endless loop is modelled by an arbitrary number of turns.
* Progress is stated for a process that is left in peace: with `calm` set no write fails or is cut short and the
  user stays away from the live checkout, with `alone` no other process or host step comes in between, and
  `disk` says whether a receipt can be written.  Safety never depends on any of them.
* Where processes share one state file, each locked update is one atomic step with local arguments from
  earlier reads, and theorems are about every sequence of steps.  A step whose arguments depend on an earlier
  read carries the position of that read in the run.  The methods that play the processes record their
  steps, and other steps may come between any two of them.
* A SHA-256 digest is a constructor applied to what it digests: injective and acyclic.  Timestamps are
  integers, identities and ids are plain values.  Clocks, process liveness, git, `ps`, signals, workers,
  metric commands and handoff events are arbitrary values chosen at each read.
* A commit is its whole ancestry, as its hash determines.  `landed` records the commit seen in the live
  history for an experiment, `moved` the experiments for which the runtime moved the branch, and `rewound`
  that the user once moved the branch off its own history; unless that happened everything landed is still
  contained.

## Where the code does not meet the property, and exactly when it does

* Compaction: `advanceCheckpoint` digests a checkpoint together with its old digest, which the validator
  strips first (extension/src/services/adoption-watch-strategies.ts:340-345, 439-440).  Reachable states
  validate if and only if the catalogue is no longer than the history bound (`ReachableValidIff`); the
  shipped catalogue of three is far below the bound of 64.
* Empty improvement: a candidate commit with the tree of its base is promoted without a fast-forward
  (extension/src/bin/loop-runner.ts:837-838) and then accepted; `EmptyImprovementAccepted` is the whole run,
  from any idle session.  An accepted experiment is contained in the live history when its changed paths are
  non-empty; otherwise the branch never moved (`AcceptedIsContained`).  If the process dies after phase
  promoted, recovery throws until the commit appears in the history (the last clause of `Recover`).
* Overtaken scan: the merge at extension/src/services/cancellation-recovery.ts:184 writes a set computed
  from an earlier read.  A run drops no identity if and only if everything added to the intent between the
  read and the write of a scan was in the intent or in a child ledger at the read (`NothingDroppedIff`);
  otherwise a request can be lost (`OvertakenScanLosesIdentity`).
* Completed intents are also reopened by extension/src/bin/cancel.ts:351-363, modelled as `OperatorReopen`.
  `LeavingCompleted` is the exact condition: a step leaves completed if and only if it is that one, or a
  request for the intent with a new identity.  `FailedCancellationReopens` is the witness: any completed
  intent, no new identity.
* Racing consumers: after writing the scheduled receipt a consumer reads the state again but does not look
  at the scheduled receipt that is pending then (extension/src/services/autonomous-budget.ts:349-365).
  The guard it could check is that no scheduled receipt is pending, or only the one it has just written.
  Consumers that pass it keep the receipts in order (`ReceiptsInOrder`), and it is the weakest such guard on
  the read (`GuardIsExact`, `UnguardedBreaksOrder`); `RacingConsumer` is a run in which it fails.
* Stale mismatch: lifting the suspension after a runtime mismatch does not look at the request
  (extension/src/services/autonomous-owner-recovery.ts:1463-1464).  `StepKeepsInvIff` gives the exact guard
  and `StaleMismatchUnfences` a run.
* Interleaved failures: a call for another failure identity replaces the recovery journal.  A failure is
  handed some strategy twice if and only if two of its stretches of calls both have a call with an exclusive
  owner, or both have one without at the same place (`RepeatsIff`); within one stretch never
  (`SegmentDistinct`).
* Interrupted repairs: the ticket is updated before the journal
  (extension/src/services/citadel-deterministic-recovery.ts:182-199).  Within one stretch a
  direct strategy is handed out a second time if and only if a repair was interrupted between the two writes
  and another repair followed (`RepeatedRepairIff`); `RepairsRepeatIff` says which repairs are the same.

## Model

| member | source | states |
|---|---|---|
| Microverse.AncestorTransitive | extension/src/services/git-utils.ts:639-651 | ancestry of commits is transitive, so what is contained stays contained under later commits |
| Microverse.EmptyCandidateNotContained | extension/src/bin/loop-runner.ts:837-838 | a candidate commit with the tree of its base changes no path and is not seen in the live history while the branch is at the base |
| Microverse.ChangedPathsIff | extension/src/services/git-utils.ts:181-211 | no path is listed as changed exactly between equal trees, and a path not listed reads the same in both |
| Microverse.PromotedStays | extension/src/bin/loop-runner.ts:926-931 | a delivered commit reads as promoted, and goes on to while later commits leave its paths as they are |
| Microverse.NotPromoted | extension/src/bin/loop-runner.ts:926-931 | a commit outside the history, or one of whose paths was changed since, does not read as promoted |
| Microverse.ClassifyIff | extension/src/services/metric-convergence.ts:278-291 | a score is improved exactly when it beats the best one by more than the tolerance, regressed exactly when the best one beats it so, in either direction |
| Microverse.BestIsBest | extension/src/services/metric-convergence.ts:364-408 | the best score of a sound history is at least as good as its baseline and every improvement in it, in either direction |
| Microverse.ImprovementsClimb | extension/src/services/metric-convergence.ts:364-408 | in a sound history every improvement beats the baseline and each earlier improvement by more than the tolerance |
| Microverse.CompleteSettles | extension/src/services/experiment-ledger.ts:428-468 | completing the experiment of an attempt with its recorded measurement makes metric history, ledger counts, stall counters and iteration number agree again, for acceptance and rejection |
| Microverse.CompleteCoherent | extension/src/bin/loop-runner.ts:1991-1999 | completing an experiment keeps the invariant over all stores |
| Microverse.ReconciledOnlyRunning | extension/src/services/experiment-ledger.ts:540-578 | reconciling changes exactly the running experiments, all to the given status, counts each as a failure and leaves everything else in the ledger as it was |
| Microverse.SpentByOne | extension/src/bin/loop-runner.ts:1602-2081 | a pass that touches one experiment adds that one at most to those given up or running |
| Microverse.CompleteScores | extension/src/services/experiment-ledger.ts:428-468 | accepting an experiment adds its score to the ledger as the recorded improvement adds it to the history |
| Microverse.ClearCoherent | extension/src/bin/loop-runner.ts:871-873 | clearing the attempt record keeps the invariant in every state the closing condition allows |
| Microverse.BeginCoherent | extension/src/bin/loop-runner.ts:665-690 | writing the first attempt record over settled stores keeps the invariant |
| Microverse.LandCoherent | extension/src/bin/loop-runner.ts:861-868 | bringing a durable promotion's commit to the live branch keeps the invariant |
| Microverse.CountedOnce | extension/src/bin/loop-runner.ts:2020-2029 | without an attempt record the iteration counter is the number of accepted and rejected experiments; with one it is at most one behind and never ahead |
| Microverse.AcceptedIsContained | extension/src/bin/loop-runner.ts:962-1003 | an accepted experiment with changed paths has its commit in the live history with exactly those paths; one with none never moved the branch |
| Microverse.MovedIsRecorded | extension/src/bin/loop-runner.ts:692-716 | the runtime moved the live branch only for experiments that are accepted or whose durable promotion record names that very commit |
| Microverse.BestOfAccepted | extension/src/bin/loop-runner.ts:1177-1183 | with no attempt under way the accepted experiments have exactly the scores of the improvements in the metric history, each as often, and the best score is at least as good as every accepted one |
| EmptyCandidate.Measures | extension/src/bin/loop-runner.ts:1137-1190 | the empty commit counts as a change of the repository, so a better score is judged an improvement and recorded as the new best |
| EmptyCandidate.Pends | extension/src/bin/loop-runner.ts:1964-1969 | the durable promotion of the normalized candidate lists no changed path |
| EmptyCandidate.Promotes | extension/src/bin/loop-runner.ts:837-838 | the promotion returns before the fast-forward, so the record becomes promoted and no other store changes |
| EmptyCandidate.Accepts | extension/src/bin/loop-runner.ts:1991-1999 | the experiment is accepted with no paths and its candidate dropped; metric, counter, landed and moved stay |
| EmptyCandidate.Settles | extension/src/bin/loop-runner.ts:2020-2030 | its iteration is counted and its record cleared; ledger, landed and moved stay |
| EmptyCandidate.EmptyImprovementAccepted | extension/src/bin/loop-runner.ts:962-2030 | from every idle session a sequence of the writes of the loop, each made under its guard and keeping the invariant, leads to a session in which an experiment that was new or planned is accepted with the better score while its commit is in no live history; on the way the record is promoted and recovery would find the commit not promoted |
| MicroverseSession.FreshCoherent | extension/src/services/metric-convergence.ts:293-321 | a session with a baseline measurement and an empty ledger satisfies the invariant |
| MicroverseSession.CloseOutcome | extension/src/bin/loop-runner.ts:871-873 | clearing a closable attempt leaves either the whole effect of the promotion or none of it |
| MicroverseSession.Session.FastForward | extension/src/services/git-utils.ts:589-618 | needs a durable promotion record with that commit; on success the branch head is the candidate and it is the only runtime write to the branch; on refusal nothing changed |
| MicroverseSession.Session.Promote | extension/src/bin/loop-runner.ts:831-869 | moves the branch exactly when the promotion has changed paths; defers only when the live checkout differs from the recorded boundary, and left in peace whenever it does; otherwise changes nothing |
| MicroverseSession.Session.WritePromoted | extension/src/bin/loop-runner.ts:692-716 | writes phase promoted only for a delivered commit and changes nothing else |
| MicroverseSession.Session.CompleteExperiment | extension/src/services/experiment-ledger.ts:428-468 | accepted only with a delivered promotion, rejected only with a recorded non-improvement; the ledger alone changes |
| MicroverseSession.Session.WriteCounted | extension/src/bin/loop-runner.ts:957-965 | sets the counter to the attempt's iteration however often it is retried |
| MicroverseSession.Session.Recover | extension/src/bin/loop-runner.ts:882-1014 | with a crash, a write failure or a user commit before any write: on a normal return the record is gone and either everything took effect (for a pending or promoted attempt) or nothing did, with exactly the running experiments planned again, each counted as a failure, and the candidate removed; however it ends, no experiment but a running one changes, and that one only to planned or accepted; a missing or quarantined candidate never returns and changes nothing but the phase; a deferral keeps every store; the lost-promotion error is thrown exactly when a promoted commit no longer reads as promoted; left in peace it returns exactly when there is no attempt, or its candidate is there and not quarantined and a promotion is either already in the live history or pending with the live checkout at the recorded boundary |
| MicroverseSession.Session.Deliver | extension/src/bin/loop-runner.ts:925-945 | returns only when the commit was seen in or brought to the live history, or has no changes; all other stores are untouched; left in peace it returns exactly for a deliverable commit |
| MicroverseSession.Session.FinishPromotion | extension/src/bin/loop-runner.ts:915-969 | on a normal return the attempt took effect in ledger, metric and counter, with stall and failure counts at zero if it was still running |
| MicroverseSession.Session.AcceptDelivered | extension/src/bin/loop-runner.ts:946-968 | ledger, metric and counter follow a delivered commit, in an order that can be resumed |
| MicroverseSession.Session.CloseFinished | extension/src/bin/loop-runner.ts:971-986 | a rejected attempt is counted and an invalid one dropped, the live branch never moved for it |
| MicroverseSession.Session.UndoAttempt | extension/src/bin/loop-runner.ts:987-1013 | an undecided attempt is dropped with its candidate archived and its metric restored; exactly the running experiments are planned again, each counted as a failure |
| MicroverseSession.Session.Archive | extension/src/bin/loop-runner.ts:750-801 | on success the content of the candidate is archived and nothing else changes; a failed archive quarantines the attempt and changes nothing else |
| MicroverseSession.Session.StartExperiment | extension/src/bin/loop-runner.ts:595-615 | starts a planned experiment whenever there is one, otherwise a new one; nothing else in the ledger changes, however it ends |
| MicroverseSession.Session.OpenAttempt | extension/src/bin/loop-runner.ts:1616-1641 | the record names the next iteration, the base head, the live checkout as it was seen and a new candidate worktree at that head; without it no attempt exists; a candidate is pending exactly when its worktree was made |
| MicroverseSession.Session.RecordFailure | extension/src/bin/loop-runner.ts:1780-1812 | the ledger after a failed worker attempt is exactly the planned, rotated or given-up one, the run state follows it, and the loop stops only for tampering at the limit |
| MicroverseSession.Session.EndRecoveryWindow | extension/src/bin/loop-runner.ts:234-273 | at the failure limit an incomplete or tampered experiment is given up, any other stays planned |
| MicroverseSession.Session.FailWorker | extension/src/bin/loop-runner.ts:1775-1813 | a worker attempt without a measurement ends dropped, with its content archived before, or is left so that the exit handling can undo it; a candidate is pending exactly while its worktree is there |
| MicroverseSession.Session.Measure | extension/src/bin/loop-runner.ts:1126-1191 | the metric written is exactly the recorded measurement; it is improved exactly when the repository changed and the score beats the best by more than the tolerance, regressed exactly when the best beats the score so, and held otherwise; the candidate is left clean with its own content if improved and at the base otherwise |
| MicroverseSession.Session.Remeasure | extension/src/bin/loop-runner.ts:1193-1252 | the candidate is back at the base when the checkpoint is measured; it goes on only if that gives the best score of the checkpoint, and throws the metric error only if it does not |
| MicroverseSession.Session.AcceptCandidate | extension/src/bin/loop-runner.ts:1963-1990 | the candidate becomes one commit on the base with the worker's content; its record is pending before the branch can move; a deferral restores the metric and keeps the record; left in peace a clean candidate is deferred exactly when it has changes and the live checkout is off the recorded boundary, and promoted otherwise |
| MicroverseSession.Session.PromoteOrDefer | extension/src/bin/loop-runner.ts:1970-1989 | returns promoted with the new metric, or deferred with the old one and the record unchanged; left in peace it is the live checkout that decides |
| MicroverseSession.Session.Decide | extension/src/bin/loop-runner.ts:1960-2030 | left in peace an improvement of a clean candidate is accepted with its score and changed paths unless it has to wait for the user, and anything else is rejected with its score |
| MicroverseSession.Session.SettleAttempt | extension/src/bin/loop-runner.ts:1991-2030 | on a normal end the iteration is exactly the attempt's, all stores agree on its outcome, the failure count is zero and the stall count zero or one more; left in peace it does end |
| MicroverseSession.Session.Iterate | extension/src/bin/loop-runner.ts:1602-2081 | one pass keeps the invariant at every stop, touches a single experiment, which was planned or new, and leaves a state the exit handling may finish; when the loop goes on, no experiment runs |
| MicroverseSession.Session.Finalize | extension/src/bin/loop-runner.ts:1016-1048 | on a normal return no attempt is left: a finished one is resolved with the ledger unchanged, any other is dropped and exactly the running experiments become invalid, each counted as a failure; a planned or given-up one is never touched; it is only ever reached without an undelivered promotion; left in peace it returns exactly unless the candidate is missing |
| MicroverseSession.Session.RollBack | extension/src/bin/loop-runner.ts:2098-2126 | a normal return leaves the candidate archived and at its base and nothing else changed; any failure quarantines the attempt or leaves it as it was |
| MicroverseSession.Session.KeepsRecord | extension/src/bin/loop-runner.ts:2083-2096 | the record is kept exactly after a deferral, after a quarantine, or when an error leaves a durable promotion without terminal outcome |
| MicroverseSession.Session.LeaveLoop | extension/src/bin/loop-runner.ts:2097-2139 | the exit of the loop changes no store while the record is kept, and no experiment but the running ones, which become invalid; left in peace, with the candidate there, it leaves no attempt and nothing running, has archived a pending candidate, and reports the error of the loop if there was one |
| MicroverseSession.Session.BeginLoop | extension/src/bin/loop-runner.ts:1460-1528 | before the first pass running experiments are planned again, unless recovery accepts one, and nothing else changes; left in peace the loop begins exactly when the record can be recovered |
| MicroverseSession.Session.Passes | extension/src/bin/loop-runner.ts:1602-2081 | over any number of passes what is accepted, rejected or given up stays so, and no more experiments than passes are given up or left running |
| MicroverseSession.Session.RunLoop | extension/src/bin/loop-runner.ts:1460-2158 | recovery, any number of passes and the clean-up keep the invariant at every stop; what is accepted, rejected or given up stays so, and a process gives up no more experiments than it made passes |
| MicroverseSession.Session.Lifetimes | extension/src/bin/loop-runner.ts:1460-2158 | over any number of processes, wherever each one dies, the counter is the number of finished experiments once no attempt is left, no experiment that is accepted, rejected or given up ever changes again, and unless the user took the branch off its own history every accepted experiment with changes is contained in it |
| WatchStrategies.FoldRemoved | extension/src/services/adoption-watch-strategies.ts:402-407 | folding the entries taken off the history one by one is the fold of all of them, with the first error |
| WatchStrategies.Finish | extension/src/services/adoption-watch-strategies.ts:386-417 | on success the history is the old one, as much as the bound allows, with one entry at its end that carries exactly the active attempt, the given outcome, signature and time, the next number and the old head; epoch and seed stay, the attempt is closed, and the cursor moves on unless this was a launch; folds the overflow entry by entry |
| WatchStrategies.Validate | extension/src/services/adoption-watch-strategies.ts:419-488 | reports exactly the first fault of the specification, or none |
| WatchStrategies.ValidIff | extension/src/services/adoption-watch-strategies.ts:419-488 | the validator accepts exactly the states whose base, history, cursor, attempt and digest are each as described place by place: entry i is the attempt of the strategy i behind the base on its evidence, numbered, linked, sealed, with a new material, and only the last one launched |
| WatchStrategies.BaseFaultTells | extension/src/services/adoption-watch-strategies.ts:425-445 | each fault of header or base means that the checks before it pass and this one fails |
| WatchStrategies.HistoryFaultTells | extension/src/services/adoption-watch-strategies.ts:446-488 | each later fault means that the history, the head or the attempt is not as described |
| WatchStrategies.ReplayShape | extension/src/services/adoption-watch-strategies.ts:441-470 | a replayed history has one entry per cursor step plus one if launched, extends the sequence by its length, and its head digest nests one level per entry |
| WatchStrategies.ReplayUses | extension/src/services/adoption-watch-strategies.ts:441-470 | replay uses up exactly the materials of the entries |
| WatchStrategies.ValidShape | extension/src/services/adoption-watch-strategies.ts:419-488 | a valid state has cursor minus base cursor entries, plus one if launched, never more than the catalogue |
| WatchStrategies.OpenValidIff | extension/src/services/adoption-watch-strategies.ts:209-304 | a freshly created state validates exactly when its header is in range and its materials are distinct |
| WatchStrategies.RecoveriesOpen | extension/src/services/adoption-watch-strategies.ts:259-304 | a launched state, and nothing else, is followed by an epoch on any evidence; an exhausted one exactly by an epoch on other evidence than the recorded one; the new seed tells what it followed |
| WatchStrategies.CreationsOpen | extension/src/services/adoption-watch-strategies.ts:209-252 | a first state, or one rebuilt from the ledger, is created exactly for a cursor inside the catalogue and passes the validator |
| WatchStrategies.BeginKeepsValid | extension/src/services/adoption-watch-strategies.ts:355-380 | beginning keeps validity, changes only the attempt, and never begins a prior material |
| WatchStrategies.BeginsIff | extension/src/services/adoption-watch-strategies.ts:351-379 | an attempt begins exactly when none is active and the validator would accept one for this evidence whose material was not used elsewhere |
| WatchStrategies.BeginErrors | extension/src/services/adoption-watch-strategies.ts:361-378 | each error of a begin means its own reason, those before it being absent |
| WatchStrategies.NextEntryReplays | extension/src/services/adoption-watch-strategies.ts:386-417 | the entry a finish appends is the one the validator accepts next |
| WatchStrategies.StaleBaseInvalid | extension/src/services/adoption-watch-strategies.ts:439-440 | a base digested together with its old digest never validates |
| WatchStrategies.FinishWhenFull | extension/src/services/adoption-watch-strategies.ts:335-348 | finishing on a full history compacts and yields an invalid state with the right cursor |
| WatchStrategies.FinishValidIff | extension/src/services/adoption-watch-strategies.ts:386-417 | finishing a valid attempt yields a valid state exactly when the history has room |
| WatchStrategyTheorems.RunKeepsValid | extension/src/services/adoption-watch-strategies.ts:355-417 | over every run of begins and finishes validity is kept when the catalogue fits the bound |
| WatchStrategyTheorems.RunRecordsFinishes | extension/src/services/adoption-watch-strategies.ts:386-417 | while the catalogue fits in the bound the history of a run tells every finish in order, with its outcome, signature and time |
| WatchStrategyTheorems.FoldTells | extension/src/services/adoption-watch-strategies.ts:335-348 | a fold leaves the materials in order behind those used before, and the last number, digest and outcome |
| WatchStrategyTheorems.FailuresReach | extension/src/services/adoption-watch-strategies.ts:355-417 | any number of failures up to the catalogue and the bound is reachable, with the expected materials |
| WatchStrategyTheorems.LongCatalogueBreaks | extension/src/services/adoption-watch-strategies.ts:340-345 | with a longer catalogue a concrete run reaches a state that fails the validator |
| WatchStrategyTheorems.ReachableValidIff | extension/src/services/adoption-watch-strategies.ts:335-417 | every state reachable from a fresh valid one validates if and only if the catalogue is no longer than the history bound |
| WatchStrategyTheorems.ShippedHistoryShort | extension/src/services/adoption-watch-strategies.ts:62-63 | with the shipped catalogue and bound every reachable state validates and its history has at most three entries |
| WatchStrategyTheorems.SameHeadSameHistory | extension/src/services/adoption-watch-strategies.ts:441-470 | two replayed chains over one base with the same head digest are the same chain |
| WatchStrategyTheorems.TamperEvident | extension/src/services/adoption-watch-strategies.ts:306-315 | two valid states with the same state digest are equal: base, history, cursor and active attempt |
| WatchStrategyTheorems.CompactionKeepsReplay | extension/src/services/adoption-watch-strategies.ts:335-348 | replaying the kept suffix from the folded base gives the same cursor, sequence, head, launched flag and used set as replaying everything |
| WatchStrategyTheorems.CompactionBreaksDigest | extension/src/services/adoption-watch-strategies.ts:340-345 | a non-empty fold never carries the digest the validator recomputes |
| MaterialLedger.MarkerTells | extension/src/services/adoption-watch-material-ledger.ts:55-66 | a marker tells its whole attempt; equal content of a valid marker means the same attempt; it is valid exactly for a known strategy with its own material and a real epoch |
| MaterialLedger.FillFiles | extension/src/services/adoption-watch-material-ledger.ts:133-163 | writes exactly the missing marker files; fails exactly on contradicting contents |
| MaterialLedger.Reconcile | extension/src/services/adoption-watch-material-ledger.ts:133-163 | on return both halves hold the union of both before; on a crash no more and no less is remembered; each error says which half is broken; left in peace it returns exactly when none is |
| MaterialLedger.ReconcileForgetsNothing | extension/src/services/adoption-watch-material-ledger.ts:133-163 | wherever reconciliation stops the remembered materials are the same |
| MaterialLedger.WriteFiles | extension/src/services/adoption-watch-material-ledger.ts:165-186 | writes the expected markers in order; a crash leaves a prefix of them written |
| MaterialLedger.Restore | extension/src/services/adoption-watch-material-ledger.ts:165-186 | rejects exactly invalid or repeated expectations; on return every expected marker is present in both halves, and a repair is reported exactly when something was not in place |
| MaterialLedger.RestoreForgetsNothing | extension/src/services/adoption-watch-material-ledger.ts:165-186 | wherever restoring stops nothing is forgotten and at most the expected materials are added |
| MaterialLedger.Record | extension/src/services/adoption-watch-material-ledger.ts:188-204 | on return a marker that tells exactly this attempt is in both halves; a collision means the one there tells another attempt of the same material |
| MaterialLedger.RecordForgetsNothing | extension/src/services/adoption-watch-material-ledger.ts:188-204 | wherever recording stops nothing is forgotten and at most this material is added |
| MaterialLedger.AnyCalls | extension/src/services/adoption-watch-material-ledger.ts:133-204 | over any sequence of calls and crashes no remembered material is lost, and a final reconciliation puts all of them in the files |
| MaterialLedger.ReconciledHalves | extension/src/services/adoption-watch-material-ledger.ts:133-163 | a reconciled pair of halves has nothing left to merge or contradict |
| MaterialLedger.ReconcileTwice | extension/src/services/adoption-watch-material-ledger.ts:133-163 | a second reconciliation repairs nothing and returns the same markers |
| MaterialLedger.ValidHalvesCoherent | extension/src/services/adoption-watch-material-ledger.ts:76-91 | valid markers with the same content digest are the same marker |
| AdoptionWatch.SegmentCursor | extension/src/bin/adopt-legacy-session.ts:461-471 | over an initial segment of reservations the gap branch is dead and the cursor is the first unreserved strategy |
| AdoptionWatch.MaterialsForShape | extension/src/bin/adopt-legacy-session.ts:469-470 | the listed materials are distinct and exactly those of the catalogue on this evidence that are used |
| AdoptionWatch.UsedMaterials | extension/src/bin/adopt-legacy-session.ts:457-460 | the used set is exactly the materials with a durable marker |
| AdoptionWatch.UsedFor | extension/src/bin/adopt-legacy-session.ts:461-471 | no gap, exactly the strategies before the cursor are reserved, and the listed materials are exactly the reserved ones of this evidence |
| AdoptionWatch.PublishAuthority | extension/src/services/adoption-watch-authority.ts:49-67 | the authority carries the state and exactly the reservations of the marker files, each once |
| AdoptionWatch.Persist | extension/src/bin/adopt-legacy-session.ts:517-522 | authority first, then status; a status never exists without an authority |
| AdoptionWatch.ReserveOne | extension/src/bin/adopt-legacy-session.ts:863-869 | reserving the strategy at the cursor keeps every evidence an initial segment |
| AdoptionWatch.PublishedStillFits | extension/src/bin/adopt-legacy-session.ts:863-880 | the last published state still fits the ledger after a reservation that is not yet published |
| AdoptionWatch.Reserve | extension/src/bin/adopt-legacy-session.ts:869-870 | the reservation is durable before anything is published or executed, and tells the whole attempt |
| AdoptionWatch.Dispatch | extension/src/bin/adopt-legacy-session.ts:882-927 | executes exactly the material of the published attempt, once, while the authority shows that attempt; then the published state has one entry more for it, a launch without a signature or a failure with one, and the watch goes on from that state exactly after a failure |
| AdoptionWatch.AttemptStrategy | extension/src/bin/adopt-legacy-session.ts:863-927 | what is executed is the strategy at the cursor on the recorded evidence; it was not reserved before, and is reserved and published durably before it runs; an error reserves and executes nothing; left in peace an unreserved strategy on the recorded evidence is executed |
| AdoptionWatch.ChooseState | extension/src/bin/adopt-legacy-session.ts:472-515 | the state is the authority's whenever there is one; otherwise a new one is opened, for the first epoch without markers and for epoch, seed and evidence of a marker with some; references and action are the trusted ones; the result fits the ledger |
| AdoptionWatch.ReopenReserved | extension/src/bin/adopt-legacy-session.ts:524-563 | a state is left as it is unless its next strategy is reserved already; then that strategy is under way again since the time of its reservation |
| AdoptionWatch.CloseLeftover | extension/src/bin/adopt-legacy-session.ts:524-589 | either nothing was left and the memory is unchanged, or exactly one entry was appended, interrupted and with the restart as its signature, for the attempt that was under way; the cursor is at the first unreserved strategy |
| AdoptionWatch.ActiveReserved | extension/src/bin/adopt-legacy-session.ts:564-568 | the attempt under way is the last reservation of its evidence |
| AdoptionWatch.RestoreLedger | extension/src/bin/adopt-legacy-session.ts:425-456 | the ledger is restored from the authority and its own halves; a repair is reported exactly when the manifest changed |
| AdoptionWatch.BootFrom | extension/src/bin/adopt-legacy-session.ts:457-589 | archived references come from a believed status only; a broken or conflicting start is published at once, a conflict with the catalogue given up for the evidence there is; otherwise the authority's state goes on, with at most one interrupted entry more |
| AdoptionWatch.Boot | extension/src/bin/adopt-legacy-session.ts:425-589 | whatever the last process left, boot adds no marker and yields a state that fits the ledger; references of an invalid status are not believed, a conflict gives the catalogue up, and otherwise the authority's state goes on with at most one interrupted entry more; left in peace it does not stop short |
| AdoptionWatch.RecoverLaunched | extension/src/bin/adopt-legacy-session.ts:611-646 | a launch without its record opens the next epoch on the current evidence with an empty history, remembers the launched state, and fits the ledger |
| AdoptionWatch.NoticeEvidence | extension/src/bin/adopt-legacy-session.ts:647-656 | the memory is unchanged exactly when the catalogue is used up or the evidence is the recorded one; otherwise the cursor is at the end of the catalogue for the evidence the epoch was begun with; no reservation is lost |
| AdoptionWatch.Exhausted | extension/src/bin/adopt-legacy-session.ts:657-855 | the next epoch begins exactly on acknowledged evidence other than what the recorded request was made for; otherwise the state is kept and published, with a request for its evidence when there is none yet or it was sealed; all reservations are kept |
| AdoptionWatch.Turn | extension/src/bin/adopt-legacy-session.ts:596-928 | one turn executes at most one material, that of the strategy at the cursor, never one reserved before, and only with nothing launched, the evidence as recorded and nothing to wait for; left in peace it then does execute it; the watch ends only when it is over or launched |
| AdoptionWatch.Watch | extension/src/bin/adopt-legacy-session.ts:407-929 | one process of any length keeps the invariant, markers and executions only grow |
| AdoptionWatch.Lifetimes | extension/src/bin/adopt-legacy-session.ts:407-929 | over any number of crashing processes no material is executed twice, each executed one is durably reserved, and the reserved strategies of every evidence are an initial segment of the catalogue |
| CanonicalJson.CanonicalizeSorts | extension/src/services/adoption-watch-strategies.ts:73-78 | the canonical text is the text of the value with all keys sorted |
| CanonicalJson.ReadEscapedString | extension/src/services/adoption-watch-strategies.ts:73-78 | reading undoes the escaping of every string literal |
| CanonicalJson.NumbersReadable | extension/src/services/adoption-watch-material-ledger.ts:43-49 | every text of the number grammar is a number of the model |
| CanonicalJson.ParsePrinted | extension/src/services/adoption-watch-strategies.ts:73-78 | parsing a printed value gives it back and leaves what follows it |
| CanonicalJson.LessTotal | extension/src/services/adoption-watch-strategies.ts:77 | the key order is total and strict |
| CanonicalJson.LessIff | extension/src/services/adoption-watch-material-ledger.ts:48-49 | a key comes before another exactly when it is a proper prefix of it or has the smaller code point at the first difference |
| CanonicalJson.SortedFacts | extension/src/services/adoption-watch-strategies.ts:76-77 | sorting keeps the value as an unordered tree |
| CanonicalJson.OrderedUnique | extension/src/services/adoption-watch-strategies.ts:76-77 | two values with sorted keys and the same tree are identical |
| CanonicalJson.CanonicalRoundTrip | extension/src/services/adoption-watch-strategies.ts:73-78 | parsing the canonical text gives the value with sorted keys |
| CanonicalJson.CanonicalInjective | extension/src/services/adoption-watch-strategies.ts:73-78 | two values print the same text if and only if they are equal as trees with unordered keys |
| CancellationRecovery.MergeIdsFacts | extension/src/services/cancellation-recovery.ts:87-89 | merging is a union that keeps the old identities in front and grows exactly when one is new |
| CancellationRecovery.MergeMeets | extension/src/services/cancellation-recovery.ts:77-112 | merging refuses exactly a corrupt intent, loses no identity, and opens or reopens exactly when an identity is new, due at once and with attempt and epoch kept |
| CancellationRecovery.ChildrenExactly | extension/src/services/cancellation-recovery.ts:31-39 | the child identities are exactly the exact entries of the three ledgers, each once |
| CancellationRecovery.QuietIff | extension/src/services/cancellation-recovery.ts:261-285 | a world is quiet exactly when no controller matches or holds the session operation, every ledger entry is exact, and no group of the intent or a ledger is alive |
| CancellationRecovery.StepKeepsValid | extension/src/services/cancellation-recovery.ts:64-75 | every step keeps the stored intent valid and its id fixed, and never overwrites a corrupt one |
| CancellationRecovery.RunKeepsValid | extension/src/services/cancellation-recovery.ts:64-75 | the same over every run |
| CancellationRecovery.CompletionIsSafe | extension/src/services/cancellation-recovery.ts:261-308 | only the final clear completes, only in a deserted session whose intent names everybody in the ledgers, and the same step empties every ledger and lifts the block |
| CancellationRecovery.LeavingCompleted | extension/src/services/cancellation-recovery.ts:77-96 | a step takes a completed intent out of completed if and only if it records a failed cancellation or is a request for that intent with an identity it does not name; any other step leaves the whole intent as it is |
| CancellationRecovery.FailedCancellationReopens | extension/src/bin/cancel.ts:351-363 | recording a failed cancellation with nobody new makes every completed intent pending again with the same identities, due at once, and blocks the session for the operator |
| CancellationRecovery.CompletedRunWasQuiet | extension/src/services/cancellation-recovery.ts:147-311 | every interleaving that ends completed passed through a quiet world with exactly the final identities and was not reopened since |
| CancellationRecovery.AddedBy | extension/src/services/cancellation-recovery.ts:77-112 | an identity enters an intent only by a request or out of the child ledgers |
| CancellationRecovery.OtherStepsKeep | extension/src/services/cancellation-recovery.ts:221-308 | no step but a scan drops an identity |
| CancellationRecovery.ScanKeepsIff | extension/src/services/cancellation-recovery.ts:177-191 | when nothing was dropped so far, a scan keeps every identity if and only if everything added between its read and its write was in the intent or in a child ledger at the read |
| CancellationRecovery.NothingDroppedIff | extension/src/services/cancellation-recovery.ts:177-191 | a run of processes that write what they read drops no identity if and only if no scan is overtaken in that way |
| CancellationRecovery.IdentitiesOnlyGrow | extension/src/services/cancellation-recovery.ts:177-191 | when no scan is overtaken an identity once in the intent stays to the end of the run |
| CancellationRecovery.NothingForgotten | extension/src/services/cancellation-recovery.ts:261-308 | then completion saw the group of every identity ever requested absent |
| CancellationRecovery.OvertakenScanLosesIdentity | extension/src/services/cancellation-recovery.ts:184 | a concrete run of such processes in which a request arrives between the read and the write of a scan, is dropped by it, and the intent completes while its group is alive |
| CancellationRecovery.BackoffAfter | extension/src/services/cancellation-recovery.ts:221-235 | after n failures, each with its own reason and time, the attempt is n, the epoch grew by n div 5, the error is the last one, and the next try waits from the last failure on for the delay of that epoch |
| CancellationRecovery.DelayBounds | extension/src/services/cancellation-recovery.ts:143-145 | the delay never shrinks with the epoch and stays between 250 ms and 30 s |
| CancellationReconcile.Session.UpdateMerged | extension/src/services/cancellation-recovery.ts:179-191 | the update is exactly the scan step of the machine, for the state its process read |
| CancellationReconcile.Session.UpdateFailed | extension/src/services/cancellation-recovery.ts:221-235 | the update is exactly the failure step |
| CancellationReconcile.Session.UpdateQuiescent | extension/src/services/cancellation-recovery.ts:239-252 | the update is exactly the quiescence step |
| CancellationReconcile.Session.UpdateCleared | extension/src/services/cancellation-recovery.ts:261-308 | the update is exactly the final clear |
| CancellationReconcile.ScanKeepsQuiet | extension/src/services/cancellation-recovery.ts:179-191 | a scan makes the intent name every identity of the ledgers and makes no session quiet or busy |
| CancellationReconcile.CompletesIff | extension/src/services/cancellation-recovery.ts:239-308 | an intent that names everything completes by quiescence and final clear if and only if the session is quiet |
| CancellationReconcile.Session.VisitGroup | extension/src/services/cancellation-recovery.ts:203-216 | a live group is signalled exactly when one of the identities matches its process, and has to be absent afterwards; an absent one is left alone |
| CancellationReconcile.Session.Sweep | extension/src/services/cancellation-recovery.ts:200-217 | without an error every group was reported absent at some instant of the sweep; left alone it finds an error exactly when a group is there |
| CancellationReconcile.Session.Reconcile | extension/src/services/cancellation-recovery.ts:147-311 | every execution is a run of the machine whose scans write what was read at their recorded place and whose signals went to groups that were alive with an exact authority; done means completed through a quiet world; left alone it is done if and only if the intent is open and due and the session is quiet, and a no-op if and only if nothing is pending |
| BudgetRollover.StepAccounts | extension/src/services/autonomous-budget.ts:385-409 | every step keeps the accounts |
| BudgetRollover.StepReceipts | extension/src/services/autonomous-budget.ts:98-123 | every step keeps pending and written receipts unique per intent and kind |
| BudgetRollover.StepDoubles | extension/src/services/autonomous-budget.ts:208-215 | every step keeps the time window a capped power of two |
| BudgetRollover.RunKeepsInv | extension/src/services/autonomous-budget.ts:138-173 | the whole invariant holds over every run of racing processes |
| BudgetRollover.RolloverAccounts | extension/src/services/autonomous-budget.ts:193-311 | from a fresh session: epoch minus consumed epoch is one exactly while an intent is outstanding, each intent is consumed at most once, duplicate receipts are equal, and after k time rollovers from w the window is min(10080, 2^k w) |
| BudgetRollover.CancelledAccountsFrozen | extension/src/services/autonomous-budget.ts:140-143 | after a cancellation request no run changes the accounts; a pending receipt can only be cleared |
| BudgetRollover.WindowFixed | extension/src/services/autonomous-budget.ts:200-207 | once granted, the iteration window never changes |
| BudgetRollover.GrantsFirstWindow | extension/src/services/autonomous-budget.ts:200-207 | every iteration rollover grants exactly the first configured limit beyond the current iteration |
| BudgetRollover.ScheduledOnce | extension/src/services/autonomous-budget.ts:133 | an intent id belongs to one scheduling step only |
| BudgetRollover.DelayDoubles | extension/src/services/autonomous-budget.ts:194-197 | the delay starts at a quarter second and doubles with every epoch up to half a minute |
| BudgetRollover.NthRollover | extension/src/services/autonomous-budget.ts:193-245 | the rollover after n others opens epoch n + 1, wakes a quarter second doubled n times later, half a minute at most, has its deadline a minute after that, and its receipt tells the same |
| BudgetRollover.RolloverGrants | extension/src/services/autonomous-budget.ts:200-215 | every iteration rollover of a fresh session grants the first limit configured, from the current iteration on, or nothing without a limit; a time rollover grants a minute at least and a week at most |
| BudgetRollover.CancelledExitBlocks | extension/src/services/autonomous-budget.ts:138-142 | a session that ended as cancelled opens and closes no epoch |
| BudgetOrder.GuardedIsClean | extension/src/services/autonomous-budget.ts:335-352 | a consumer whose read shows no pending scheduled receipt, or only the one it has written, finds the scheduled receipt written whenever it consumes |
| BudgetOrder.ReceiptsInOrder | extension/src/services/autonomous-budget.ts:330-420 | in every run whose consumers pass that guard the scheduled receipt of a recorded intent precedes its consumed receipt |
| BudgetOrder.UncleanBreaksOrder | extension/src/services/autonomous-budget.ts:385-418 | an unclean consumption breaks that order as soon as its receipt is written |
| BudgetOrder.WithoutRuns | extension/src/services/autonomous-budget.ts:98-123 | leaving out the writes and clearings of a receipt that is still pending is another run of the same processes to the same state |
| BudgetOrder.UnguardedBreaksOrder | extension/src/services/autonomous-budget.ts:341-377 | for every reachable read that fails the guard there is a run with the same read in which that consumer breaks the order |
| BudgetOrder.GuardIsExact | extension/src/services/autonomous-budget.ts:341-377 | a reachable read passes the guard if and only if no run in which the consumer reads the same leads to an unclean consumption |
| BudgetOrder.RacingConsumer | extension/src/services/autonomous-budget.ts:349-365 | a concrete race: the first read shows the first receipt pending, the second one, after writing it, the second receipt, and consuming then breaks the order |
| BudgetSession.Session.EmitPending | extension/src/services/autonomous-budget.ts:98-123 | on success, which is that of the write, the receipt is in the journal and cleared where it was pending; nothing written before is taken back |
| BudgetSession.Session.UpdateScheduled | extension/src/services/autonomous-budget.ts:193-245 | the update opens the next epoch for the intent with the doubled delay, the deadline a minute later, and the receipt it returns pending |
| BudgetSession.Session.ScheduleRollover | extension/src/services/autonomous-budget.ts:125-311 | a rollover comes from a scheduling step with its id, and reports the epoch that step opened, the delay doubled for it and whether its receipt was written; no-op means inactive or cancelled, refused means another rollover is outstanding; left alone it schedules exactly when that is possible |
| BudgetSession.Session.UpdateConsumed | extension/src/services/autonomous-budget.ts:385-409 | consumes exactly when the intent and epoch read before are still there, uncancelled |
| BudgetSession.Session.ConsumeRollover | extension/src/services/autonomous-budget.ts:330-420 | never reports a corrupt intent; the step it consumes by comes from its first read with no scheduled receipt pending, or from a later read after it wrote the receipt that was pending at the first; whenever that read passes the guard the consumption is clean; left alone it takes the outstanding intent exactly when the session is active, not cancelled, has no consumed receipt left over and a pending scheduled receipt can be written, and reports what it did |
| OwnerHandoff.StepKeepsInvIff | extension/src/services/autonomous-owner-recovery.ts:1251-1585 | a step keeps suspension, validity and ownership consistent if and only if it is not a mismatch found for one request that meets the fence of another |
| OwnerHandoff.RunKeepsInv | extension/src/services/autonomous-owner-recovery.ts:397-438 | over every run of handoffs, registrations and cancellations without such a step recovery is suspended exactly for the fenced request, the transaction passes its validator, the owner is the target after completion and the source otherwise, with pid and identity of the supervisor that registered last, if one has; no process ever reads a transaction to reject |
| OwnerHandoff.StaleMismatchUnfences | extension/src/services/autonomous-owner-recovery.ts:1463-1464 | a concrete run in which a mismatch read for a request that was released since lifts the suspension of a newer fence |
| OwnerHandoff.OwnerMovesOnlyBy | extension/src/services/autonomous-owner-recovery.ts:552-664 | from any state the owner moves only by settling a valid fenced transaction, by a transfer without one, or by a registration, which never changes a specification that is there; an owner that comes out of a transaction belongs to this session, with a real pid and its identity; after a cancellation only a missing specification can be filled in |
| OwnerHandoff.CancelledOwnerFixed | extension/src/services/autonomous-owner-recovery.ts:561-657 | after a cancellation no run changes supervisor pid or identity, nor a specification that is there |
| OwnerHandoff.InvalidIsRejected | extension/src/services/autonomous-owner-recovery.ts:456-472 | an invalid fenced transaction is rejected by every step that would use it, with the owner untouched |
| OwnerHandoff.FenceStarts | extension/src/services/autonomous-owner-recovery.ts:1305-1350 | a fence starts at epoch 1 before its first failure, with the owner as source and a minute to its deadline |
| OwnerHandoff.LegacyResumes | extension/src/services/autonomous-owner-recovery.ts:1397-1425 | exactly a transaction given up after its retries is fenced again, in the next epoch, with the strategy of that epoch and due at once |
| OwnerHandoff.RetryStaysValid | extension/src/services/autonomous-owner-recovery.ts:1502-1528 | one more failure of any valid fence keeps its attempts below five and its strategy that of its epoch |
| OwnerHandoff.RetriesAfter | extension/src/services/autonomous-owner-recovery.ts:1502-1528 | after n recoverable failures from a fresh fence the epoch is 1 + n div 5 and the attempt n mod 5; the strategy is an immediate retry below five, a quiescence backoff below ten and an extended backoff from then on; every fifth failure waits a quarter second, doubled each time up to half a minute |
| HandoffSession.Session.FenceHandoff | extension/src/services/autonomous-owner-recovery.ts:1305-1350 | fences the request or refuses for another one; the owner is untouched |
| HandoffSession.Session.TransferOwner | extension/src/services/autonomous-owner-recovery.ts:1251-1303 | a returned owner is the published one and the suspension is lifted |
| HandoffSession.Session.RegisterSupervisor | extension/src/services/autonomous-owner-recovery.ts:612-626 | refused exactly under another specification; otherwise the registered supervisor is the owner, unless the session is cancelled, and the transaction is untouched |
| HandoffSession.Session.ReleaseFence | extension/src/services/autonomous-owner-recovery.ts:1352-1368 | the request is no longer fenced and the owner is untouched |
| HandoffSession.Session.UpdateFinalizeFailed | extension/src/services/autonomous-owner-recovery.ts:1477-1531 | the update is exactly the failure step and keeps the owner |
| HandoffSession.Session.UpdateSettled | extension/src/services/autonomous-owner-recovery.ts:1534-1581 | applies exactly to a still fenced, valid, uncancelled transaction and moves all three owner fields together |
| HandoffSession.Session.Reconcile | extension/src/services/autonomous-owner-recovery.ts:1370-1585 | completed means target owner and completed transaction, rolled back means source owner; running alone it keeps the invariant and does nothing unless the transaction is ready; then it completes exactly for an accepted request with the same runtime whose finalization succeeds, rolls back exactly for an aborted one or one that expires, and fails exactly for another runtime or a refused finalization |
| Descendants.DescendantsAreLeast | extension/src/bin/monitored-process-broker.ts:116-124 | the pids below the target are the least set closed under children |
| Descendants.FrontierVisit | extension/src/bin/monitored-process-broker.ts:119-124 | visiting a pid keeps every seen or queued pid a descendant and every child covered, and makes progress on any finite table |
| Descendants.SnapshotDetermined | extension/src/bin/monitored-process-broker.ts:153 | the snapshot depends on the rows and the host's answers, not on row order |
| Descendants.SearchVisits | extension/src/bin/monitored-process-broker.ts:119-152 | visiting a pid keeps everything the search knows of tables, identities and promotions, and makes progress |
| Descendants.ProgressSighted | extension/src/bin/monitored-process-broker.ts:134-151 | one more sighting keeps what the search knows: unseen pids untouched, second sightings promoted, first ones candidates |
| Descendants.Broker.Sight | extension/src/bin/monitored-process-broker.ts:127-151 | conflicts exactly with a different recorded identity; otherwise a new pid becomes a candidate and a second sighting promotes |
| Descendants.Broker.Discover | extension/src/bin/monitored-process-broker.ts:94-154 | terminates; a snapshot is exactly the descendants of the target, and none of them is unanswered or disputed; a transient result comes with an unanswered descendant, an integrity result with a disputed one; promoted identities are never dropped or replaced, and only former candidates with the same identity are promoted |
| Descendants.Broker.Freeze | extension/src/bin/monitored-process-broker.ts:251-272 | a conflict exactly when the target or a member of the snapshot was reused, or is there and refuses to stop |
| Descendants.Broker.SealOrphans | extension/src/bin/monitored-process-broker.ts:275-292 | of the candidates outside the tree exactly those the host reports as not running are forgotten, those reported as reused stay as they are and are a conflict, and all others are promoted with their identity; those inside stay candidates |
| Descendants.Broker.Observe | extension/src/bin/monitored-process-broker.ts:232-306 | one discovery; a conflict exactly when a recorded descendant is disputed, a member cannot be stopped or an orphan was reused; stable exactly when there is none, the snapshot repeats the last one, is wholly promoted and leaves no candidate; the snapshot to compare with next is this one or none |
| Descendants.Broker.Converge | extension/src/bin/monitored-process-broker.ts:156-320 | succeeds only with two equal consecutive snapshots, every member promoted and no candidate left, and only when everybody sighted at any time is promoted or was reported as not running; ends with the first conflict, and otherwise only after all its passes |
| ShellWords.ScanConcat | extension/src/bin/config-protection.ts:42-73 | scanning two pieces is scanning the second from where the first ended |
| ShellWords.TokenizeShellWords | extension/src/bin/config-protection.ts:37-79 | the loop computes the words of the automaton, trailing backslash included |
| ShellWords.ScanForm | extension/src/bin/config-protection.ts:44-72 | a bare, backslash-escaped, double-quoted or single-quoted piece is read back as it was; in double quotes a backslash before any character is dropped |
| ShellWords.ScanWord | extension/src/bin/config-protection.ts:44-72 | pieces in any mix of forms side by side make one word |
| ShellWords.RoundTrip | extension/src/bin/config-protection.ts:37-79 | written words followed by white space come back, empty ones vanish |
| ShellWords.JoinedWordsRoundTrip | extension/src/bin/config-protection.ts:37-79 | non-empty words, each in any mix of pieces, joined by white space, come back exactly |
| ShellWords.BetweenBareWords | extension/src/bin/config-protection.ts:57-72 | between two bare words each of the 25 white space characters splits, a quote or a backslash disappears, and any other character joins |
| ShellWords.LastBackslashStays | extension/src/bin/config-protection.ts:48-63 | a backslash at the very end is part of the last word, in the open and in double quotes |
| ShellWords.BlankSplitsIff | extension/src/bin/config-protection.ts:65-71 | tokenizing distributes over a blank for every right part if and only if the left part ends outside quotes and escapes |
| TicketClosure.AffectedLeast | extension/src/services/citadel-remediation.ts:916-931 | every closed set with the direct tickets contains all affected ones |
| TicketClosure.AffectedByOne | extension/src/services/citadel-remediation.ts:916-931 | a ticket is affected exactly when a single direct ticket affects it |
| TicketClosure.DependentTicketIds | extension/src/services/citadel-remediation.ts:916-931 | terminates on any graph and lists exactly the affected ids, each once, the direct ones first |
| TicketClosure.Pass | extension/src/services/citadel-remediation.ts:919-928 | a pass that changes nothing leaves no ticket to add; any other makes progress |
| DeterministicRecovery.ExclusiveOwnerIff | extension/src/services/citadel-deterministic-recovery.ts:111-123 | a ticket is the exclusive owner if and only if something failed and it alone claims every failed command |
| DeterministicRecovery.FirstUnusedIsNext | extension/src/services/citadel-deterministic-recovery.ts:150-151 | the strategy found is the one after all direct ones used |
| DeterministicRecovery.ConsumeKeepsOrderly | extension/src/services/citadel-deterministic-recovery.ts:127-199 | a call keeps direct strategies in table order from the first and diagnoses numbered by position |
| DeterministicRecovery.OrderlyDistinct | extension/src/services/citadel-deterministic-recovery.ts:95-204 | no strategy occurs twice in such a journal |
| DeterministicRecovery.CallsHandOutStrategies | extension/src/services/citadel-deterministic-recovery.ts:95-204 | over any calls for one failure strategies are pairwise distinct and the direct ones are the first of the table, one per owned call up to five |
| DeterministicRecovery.OtherFailureRestarts | extension/src/services/citadel-deterministic-recovery.ts:98-108 | after a call for another failure the first failure starts over with the first direct strategy |
| DeterministicRecovery.HandedOutIs | extension/src/services/citadel-deterministic-recovery.ts:95-204 | for any calls, failures taking turns at will, what a call is given depends only on its place and the owned calls in its segment of calls for one failure |
| DeterministicRecovery.SegmentDistinct | extension/src/services/citadel-deterministic-recovery.ts:95-204 | within one segment no strategy is handed out twice |
| DeterministicRecovery.RepeatsIff | extension/src/services/citadel-deterministic-recovery.ts:95-204 | a failure is handed some strategy twice if and only if two of its segments both have an owned call, or both have an unowned call at the same place |
| DeterministicRecovery.TriesOrderly | extension/src/services/citadel-deterministic-recovery.ts:86-204 | the journal stays orderly over any calls, each interrupted anywhere or not |
| DeterministicRecovery.DirectsLater | extension/src/services/citadel-deterministic-recovery.ts:151-199 | within one stretch of calls for a failure, interrupted ones included, the journal gains one direct strategy per owned call that finished, up to the length of the table |
| DeterministicRecovery.GiftIs | extension/src/services/citadel-deterministic-recovery.ts:174-191 | a ticket is given a direct strategy exactly by an owned call that came as far as the ticket while the table is not used up, and it is the one after those the journal shows |
| DeterministicRecovery.RepairsRepeatIff | extension/src/services/citadel-deterministic-recovery.ts:182-199 | two repairs of one stretch hand out the same strategy if and only if no owned call from the first up to the second finished; the first was then interrupted between ticket and journal |
| DeterministicRecovery.RepeatedRepairIff | extension/src/services/citadel-deterministic-recovery.ts:182-199 | over any calls with interruptions, within one stretch a direct strategy is handed out twice if and only if a repair was interrupted between ticket and journal and another one followed |
| DeterministicRecovery.Session.ConsumeFailure | extension/src/services/citadel-deterministic-recovery.ts:86-204 | the journal advances by exactly one call or stays as it was; the ticket is exactly what the call gave it, also when it was interrupted before the journal write; a repair names the exclusive owner and its ticket carries the strategy |

## Left out

- MicroverseSession.Session.FastForward: the check of the live checkout and the move of the branch are one step, as git refuses a fast-forward that lost a race.
- MicroverseSession.Session.DiscardAndClear: removing the candidate directory is one step; a half-removed directory is not modelled.
- MicroverseSession.Session.Archive: the archive file, its receipt in the attempt record and candidate patches are not modelled, only what content was archived, and quarantine.
- MicroverseSession.Session.Measure: timeouts of the metric command only succeed or fail; scores are integers; a salvage that stages fewer paths than are dirty is not modelled.
- MicroverseSession.Session.RunLoop: an arbitrary number of passes stands for the endless loop; target checks, stall thresholds, circuit breaker, summaries and logs only decide when it stops.
- AdoptionWatch.ChooseState: salvage from a status without an authority and version 1 authority files are left out; the latest reservation is an arbitrary marker.
- AdoptionWatch.Exhausted: the executor restart handshake is an arbitrary acknowledgement; archived states are held by value instead of in files.
- MaterialLedger.Reconcile: entry order and malformed JSON inside a manifest are reduced to whether the manifest can be trusted.
- CanonicalJson.CanonicalInjective: numbers carry their shortest decimal text, keys are ordered by code point, and lone surrogates do not occur.
- CancellationReconcile.Session.Sweep: identities of one group are visited one by one; what a signal does to the host is any change of it.
- BudgetSession.Session.ScheduleRollover: the modes that repair a missing intent or migrate an inactive legacy session are left out; error text and history entries are not modelled.
- OwnerHandoff.RetriesAfter: epochs are unbounded, so the validator's limit on safe integers is not modelled.
- HandoffSession.Session.Reconcile: suspension written for other purposes by extension/src/services/session.ts is not part of this model.
- HandoffSession.Session.RegisterSupervisor: restoring an owner (extension/src/services/autonomous-owner-recovery.ts:972-1010) is a registration under the specification that is there; a corrupt stored specification is one that is missing.
- OwnerHandoff.OwnerMovesOnlyBy: the owner written by the legacy time migration (extension/src/services/autonomous-budget.ts:216-226) and the first specification written by extension/src/services/legacy-session-adoption.ts:1433-1440 are not part of this model.
- Descendants.Broker.Converge: progress messages and the final shutdown are left out; whether a freezing signal is refused is an answer of the host; an arbitrary number of passes stands for the loop and for the connection.
- DeterministicRecovery.Session.ConsumeFailure: strategy ids are a datatype instead of text; diagnostic artifacts are left out.
- Attribution repair of `citadel-remediation.ts`: re-enqueueing after a selection need not succeed, and the rest is file handling.
- `normalizedPathSuffixes` and the protected patterns: plain string functions, outside the protocols modelled here.
- Schema 1 Microverse transactions, Windows branches and injected test failures.
- `mux-runner.ts`, `pipeline-runner.ts`, `spawn-morty.ts`, command lines, prompts, status output and configuration defaults.
