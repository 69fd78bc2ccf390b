/**
 The Microverse promotion transaction: one measured session over its lifetimes.  Before every durable
 write the user may move the live branch, and the process may die or the write may fail.
 */
module MicroverseSession {
  import opened Basics
  import opened Microverse

  datatype Fate = Go | Dies | Fails

  datatype Failure =
    | CandidateQuarantined | PromotionDeferred | PromotedLost | NoImprovement | FastForwardRefused
    | MetricInvalid | IoFailure

  datatype Ended<+T> = Returned(value: T) | Threw(failure: Failure) | Died

  function Broken<T>(fate: Fate): Ended<T>
    requires !fate.Go?
  {
    if fate.Dies? then Died else Threw(IoFailure)
  }

  /** What does not return ends the whole pass. */
  function Unfinished(r: Ended<()>): Ended<Next>
    requires !r.Returned?
  {
    match r
    case Threw(failure) => Threw(failure)
    case Died => Died
  }

  /** What the loop does after one pass. */
  datatype Next = Again | Stop(deferred: bool)

  datatype WorkerFailure = Timeout | Error | Incomplete | Tamper

  datatype Measured = Scored(verdict: Verdict) | Unmeasured

  predicate HasChanges(s: Status) {
    s.Accepted? && s.paths != {}
  }

  /** The verdict on a candidate: an improved score of an unchanged repository is only held. */
  function Judge(rule: Rule, w: Worktree, a: Attempt, score: int): Verdict {
    var changed := w.head != a.base || w.files != w.head.tree;
    var natural := Classify(rule, score, a.before.best);
    if natural.Improved? && !changed then Held else natural
  }

  /** Improved is a changed repository whose score beats the best one by more than the tolerance, regressed
      one that the best score beats so; everything else is held. */
  predicate Judged(rule: Rule, w: Worktree, a: Attempt, score: int, verdict: Verdict) {
    && (verdict.Improved? <==> (w.head != a.base || w.files != a.base.tree) && Beats(rule, score, a.before.best))
    && (verdict.Regressed? <==> Beats(rule, a.before.best, score))
    && !verdict.Baseline?
  }

  lemma JudgedFairly(rule: Rule, w: Worktree, a: Attempt, score: int)
    ensures Judged(rule, w, a, score, Judge(rule, w, a, score))
    ensures Fair(rule, Judge(rule, w, a, score), score, a.before.best)
  {
    ClassifyIff(rule, score, a.before.best);
  }

  /** The content of the candidate of the attempt, as far as there is one. */
  function ContentOf(attempt: Option<Attempt>, worktrees: map<nat, Worktree>): set<Tree> {
    if attempt.Some? && attempt.value.candidate in worktrees then {worktrees[attempt.value.candidate].files} else {}
  }

  /** The experiment of the attempt is accepted or rejected. */
  predicate Concluded(l: Ledger, attempt: Option<Attempt>) {
    attempt.Some? && Terminal(StatusOf(l.experiments, attempt.value))
  }

  /** Accepted, rejected or given up. */
  predicate Finished(l: Ledger, x: nat) {
    x in l.experiments && (Terminal(l.experiments[x]) || l.experiments[x].Invalid?)
  }

  /** Nothing but the experiment `x` may have changed, which was unfinished or not there yet. */
  predicate Touches(l: Ledger, m: Ledger, x: nat) {
    && !Finished(l, x) && Rest(m, x) == Rest(l, x)
    && (x in l.experiments ==> x in m.experiments) && l.next <= m.next
  }

  lemma TouchesLasting(l: Ledger, m: Ledger, x: nat)
    requires Touches(l, m, x)
    ensures Lasting(l, m)
  {
    forall y | y in l.experiments && y != x ensures y in m.experiments && m.experiments[y] == l.experiments[y] {
      assert y in Rest(l, x) && Rest(l, x)[y] == Rest(m, x)[y];
    }
  }

  lemma TouchedRest(l: Ledger, m: Ledger, n: Ledger, x: nat)
    requires Touches(l, m, x) && Rest(n, x) == Rest(m, x) && n.next == m.next && x in n.experiments
    ensures Touches(l, n, x)
    ensures NoneRunning(l) && !n.experiments[x].Running? ==> NoneRunning(n)
  {
    forall y | y in n.experiments && y != x && NoneRunning(l) ensures !n.experiments[y].Running? {
      assert y in Rest(n, x) && Rest(n, x)[y] == Rest(l, x)[y];
    }
  }

  lemma ResumedTwice(l: Ledger, m: Ledger, n: Ledger)
    requires Resumes(l, m) && (n == m || OnlyRunning(m, n, Planned))
    ensures Resumes(l, n)
    ensures OnlyRunning(m, n, Planned) ==> NoneRunning(n)
  {
  }

  lemma SetStatusRest(l: Ledger, x: nat, status: Status)
    ensures Rest(SetStatus(l, x, status), x) == Rest(l, x)
    ensures Rest(Complete(l, x, status), x) == Rest(l, x)
  {
  }

  /** The attempt record as it is first written. */
  function FirstRecord(run: RunState, metric: Metric, x: nat, candidate: nat, live: Live): Attempt {
    Attempt(x, run.iteration + 1, metric, candidate, live.head, live.ref, live.fingerprint, PhaseRunning, None, None)
  }

  /** The metric file after the candidate was measured. */
  function MeasuredMetric(a: Attempt, metric: Metric, w: Worktree, score: int, verdict: Verdict): Metric {
    RecordMetric(metric, MetricEntry(a.iteration, score, verdict, Some(w.head)))
  }

  /** The attempt record that makes the promotion of `head` durable. */
  function PendingRecord(a: Attempt, metric: Metric, head: Commit): Attempt {
    a.(phase := PromotionPending, head := Some(head),
       promotion := Some(Promotion(metric.latest, metric, ChangedPaths(a.base.tree, head.tree))))
  }

  /** The ledger after a worker attempt that ended without a measurement. */
  function FailedLedger(l: Ledger, x: nat, kind: WorkerFailure, limit: nat): Ledger {
    var once := SetStatus(l, x, Planned).(failures := l.failures + 1);
    if once.failures < limit then once
    else
      match kind
      case Tamper => SetStatus(once, x, Invalid)
      case Incomplete => SetStatus(once, x, Invalid).(failures := 0)
      case _ => once.(failures := 0)
  }

  function StatusOf(e: Experiments, a: Attempt): Status {
    if a.experiment in e then e[a.experiment] else Planned
  }

  /** The attempt took effect: recorded as accepted, its metric in place, its commit delivered. */
  ghost predicate After(s: Stores, a: Attempt) {
    && s.attempt.None? && a.candidate !in s.worktrees
    && a.promotion.Some? && a.head.Some?
    && StatusOf(s.ledger.experiments, a) == Accepted(a.promotion.value.score, a.promotion.value.paths)
    && s.metric == a.promotion.value.after
    && s.run == RunState(a.iteration, s.ledger.stall, s.ledger.failures)
    && (if a.promotion.value.paths == {} then a.experiment !in s.moved
        else a.experiment in s.landed && s.landed[a.experiment] == a.head.value)
  }

  /** The attempt had no effect on the live branch: it was measured and rejected, or it never counted. */
  ghost predicate Dropped(rule: Rule, s: Stores, a: Attempt) {
    && s.attempt.None? && a.candidate !in s.worktrees
    && a.experiment !in s.landed && a.experiment !in s.moved
    && match StatusOf(s.ledger.experiments, a)
       case Rejected(score) =>
         Recorded(rule, a, s.metric, false) && s.metric.latest == score && s.run == RunState(a.iteration, s.ledger.stall, s.ledger.failures)
       case Accepted(_, _) => false
       case Running => false
       case _ => s.metric == a.before && s.run.iteration == a.iteration - 1
  }

  /** The ledger once the promotion of the attempt is accepted, now or earlier. */
  function AcceptedLedger(l: Ledger, a: Attempt): Ledger
    requires a.promotion.Some?
  {
    if StatusOf(l.experiments, a).Running? then
      Complete(l, a.experiment, Accepted(a.promotion.value.score, a.promotion.value.paths))
    else l
  }

  ghost predicate Resolved(rule: Rule, s: Stores, a: Attempt) {
    if StatusOf(s.ledger.experiments, a).Accepted? then After(s, a) else Dropped(rule, s, a)
  }

  lemma CloseOutcome(rule: Rule, s: Stores)
    requires Coherent(rule, s) && Closable(s)
    requires !StatusOf(s.ledger.experiments, s.attempt.value).Running?
    ensures Coherent(rule, s.(attempt := None))
    ensures Resolved(rule, s.(attempt := None), s.attempt.value)
  {
    ClearCoherent(rule, s);
    var a := s.attempt.value;
    if a.experiment in s.moved {
      assert MovedFor(s.ledger.experiments, s.attempt, a.experiment);
    }
    if a.experiment in s.landed {
      assert LandedFor(s.ledger.experiments, s.attempt, a.experiment, s.landed[a.experiment]);
    }
  }

  /** A session before its first iteration: a baseline measurement and an empty ledger. */
  function Fresh(baseline: int): Stores {
    Stores(Metric(baseline, baseline, 0, [MetricEntry(0, baseline, Baseline, None)]), Ledger(map[], 1, 0, 0),
           RunState(0, 0, 0), None, map[], map[], {})
  }

  lemma FreshCoherent(rule: Rule, baseline: int)
    ensures Coherent(rule, Fresh(baseline))
  {
    var s := Fresh(baseline);
    assert s.metric.history[..0] == [];
    assert TerminalSet(s.ledger.experiments) == {} && AcceptedSet(s.ledger.experiments) == {};
    assert Improvements(s.metric.history) == 0;
    assert forall score :: AcceptedWith(s.ledger.experiments, score) == {} && ImprovedWith(s.metric.history, score) == 0;
  }

  /** The candidate of a durable promotion is the recorded commit on the base, with clean files. */
  lemma CandidateIs(rule: Rule, s: Stores, a: Attempt)
    requires Coherent(rule, s) && s.attempt == Some(a) && a.Promoting() && a.candidate in s.worktrees
    ensures PromotionReady(rule, a)
    ensures s.worktrees[a.candidate] == Worktree(a.head.value, a.head.value.tree)
  {
  }

  class Session {
    const rule: Rule
    var live: Live
    var metric: Metric
    var ledger: Ledger
    var run: RunState
    var attempt: Option<Attempt>
    var worktrees: map<nat, Worktree>
    ghost var landed: map<nat, Commit>
    ghost var moved: set<nat>
    ghost var rewound: bool
    /** The contents of candidates that were archived. */
    ghost var archives: set<Tree>
    /** The process is left in peace: no write fails or is cut short, and the user leaves the live checkout
        alone.  No invariant depends on it; it serves to say what recovery achieves then. */
    var calm: bool

    /** A fresh session: a baseline measurement and an empty ledger. */
    constructor (rule: Rule, live: Live, baseline: int)
      ensures Inv() && attempt.None? && run.iteration == 0
    {
      this.rule := rule;
      this.live := live;
      var s := Fresh(baseline);
      metric, ledger, run, attempt, worktrees := s.metric, s.ledger, s.run, s.attempt, s.worktrees;
      landed, moved, rewound, calm, archives := s.landed, s.moved, false, false, {};
      FreshCoherent(rule, baseline);
    }

    ghost function Now(): Stores
      reads this
    {
      Stores(metric, ledger, run, attempt, worktrees, landed, moved)
    }

    /** Holds between any two steps, hence at every point where the process can die.  Unless the user
        has moved the branch off its own history, everything delivered is still contained. */
    ghost predicate Inv()
      reads this
    {
      Coherent(rule, Now()) && (rewound || Contained(landed, live.head))
    }

    // -------------------------------------------------------------- durable writes

    /** The user works on the live checkout. */
    method Meanwhile()
      requires Inv()
      modifies this`live, this`rewound
      ensures Inv() && Now() == old(Now())
      ensures calm ==> live == old(live)
    {
      if calm { return; }
      var next: Live := *;
      if !rewound && IsAncestor(live.head, next.head) {
        ContainedLater(landed, live.head, next.head);
      } else {
        rewound := true;
      }
      live := next;
    }

    method BeforeWrite() returns (fate: Fate)
      requires Inv()
      modifies this`live, this`rewound
      ensures Inv() && Now() == old(Now())
      ensures calm ==> fate.Go? && live == old(live)
    {
      Meanwhile();
      fate := *;
      if calm { fate := Go; }
    }

    method WriteMetric(m: Metric) returns (fate: Fate)
      requires Inv() && Coherent(rule, Now().(metric := m))
      modifies this`metric, this`live, this`rewound
      ensures Inv()
      ensures Now() == if fate.Go? then old(Now()).(metric := m) else old(Now())
      ensures calm ==> fate.Go? && live == old(live)
    {
      fate := BeforeWrite();
      if fate.Go? { metric := m; }
    }

    method WriteLedger(l: Ledger) returns (fate: Fate)
      requires Inv() && Coherent(rule, Now().(ledger := l))
      modifies this`ledger, this`live, this`rewound
      ensures Inv()
      ensures Now() == if fate.Go? then old(Now()).(ledger := l) else old(Now())
      ensures calm ==> fate.Go? && live == old(live)
    {
      fate := BeforeWrite();
      if fate.Go? { ledger := l; }
    }

    method WriteRun(r: RunState) returns (fate: Fate)
      requires Inv() && Coherent(rule, Now().(run := r))
      modifies this`run, this`live, this`rewound
      ensures Inv()
      ensures Now() == if fate.Go? then old(Now()).(run := r) else old(Now())
      ensures calm ==> fate.Go? && live == old(live)
    {
      fate := BeforeWrite();
      if fate.Go? { run := r; }
    }

    method WriteAttempt(a: Option<Attempt>) returns (fate: Fate)
      requires Inv() && Coherent(rule, Now().(attempt := a))
      modifies this`attempt, this`live, this`rewound
      ensures Inv()
      ensures Now() == if fate.Go? then old(Now()).(attempt := a) else old(Now())
      ensures calm ==> fate.Go? && live == old(live)
    {
      fate := BeforeWrite();
      if fate.Go? { attempt := a; }
    }

    method WriteWorktrees(w: map<nat, Worktree>) returns (fate: Fate)
      requires Inv() && Coherent(rule, Now().(worktrees := w))
      modifies this`worktrees, this`live, this`rewound
      ensures Inv()
      ensures Now() == if fate.Go? then old(Now()).(worktrees := w) else old(Now())
      ensures calm ==> fate.Go? && live == old(live)
    {
      fate := BeforeWrite();
      if fate.Go? { worktrees := w; }
    }

    // -------------------------------------------------------------- promotion

    /** Moves the live branch to the candidate commit.  This is the runtime's only write to the branch,
        and its callers must hold a durable promotion record for that commit. */
    method FastForward(a: Attempt) returns (r: Ended<()>)
      requires Inv()
      requires attempt == Some(a) && a.Promoting() && a.promotion.Some? && a.promotion.value.paths != {}
      requires a.candidate in worktrees
      modifies this`live, this`rewound, this`landed, this`moved
      ensures Inv()
      ensures r.Returned? ==> live.head == a.head.value && Now() == Land(old(Now()), a, true)
      ensures !r.Returned? ==> Now() == old(Now())
      ensures r.Threw? ==> r.failure == FastForwardRefused || r.failure == IoFailure
      ensures calm && old(live).head == a.base && old(live).ref == a.ref ==> r.Returned?
    {
      Meanwhile();
      CandidateIs(rule, Now(), a);
      var refused := Refuses(a, worktrees[a.candidate]);
      if refused {
        return Threw(FastForwardRefused);
      }
      var fetched: bool := *;
      if !fetched && !calm {
        return Threw(IoFailure);
      }
      MoveLive(a);
      r := Returned(());
    }

    /** The checks of the fast-forward: a clean live checkout at the base, and the prepared candidate on it. */
    method Refuses(a: Attempt, w: Worktree) returns (refused: bool)
      requires a.head.Some?
      ensures !refused ==> live.head == a.base && live.ref == a.ref && w.head == a.head.value
      ensures calm && live.head == a.base && live.ref == a.ref && Some(w.head) == a.head
              && w.head.Child? && w.head.parent == a.base ==>
                !refused
      ensures !refused ==> w.head.Child? && w.head.parent == a.base
    {
      var dirty: bool := *;
      if calm { dirty := false; }
      refused := dirty || live.head != a.base || live.ref != a.ref || Some(w.head) != a.head
                 || !(w.head.Child? && w.head.parent == a.base);
    }

    /** The merge itself, on a branch that stands at the base. */
    method MoveLive(a: Attempt)
      requires Inv()
      requires attempt == Some(a) && a.Promoting() && a.promotion.Some? && a.promotion.value.paths != {}
      requires a.head.Some? && a.head.value.Child? && a.head.value.parent == a.base && live.head == a.base
      modifies this`live, this`landed, this`moved
      ensures Inv() && live.head == a.head.value && Now() == Land(old(Now()), a, true)
    {
      var head, fingerprint: int := a.head.value, *;
      LandCoherent(rule, Now(), a, true);
      assert IsAncestor(a.base, head);
      if !rewound {
        ContainedLater(landed, a.base, head);
      }
      live := Live(head, live.ref, fingerprint);
      landed, moved := landed[a.experiment := head], moved + {a.experiment};
      assert Now() == Land(old(Now()), a, true);
    }

    /** Brings the candidate commit to the live branch if the branch is where the attempt left it. */
    method Promote(a: Attempt) returns (r: Ended<bool>)
      requires Inv()
      requires attempt == Some(a) && a.Promoting() && a.candidate in worktrees
      modifies this`live, this`rewound, this`landed, this`moved
      ensures Inv()
      ensures r.Returned? ==> r.value == (a.promotion.value.paths != {})
      ensures Now() == if r == Returned(true) then Land(old(Now()), a, true) else old(Now())
      ensures r == Threw(PromotionDeferred) ==> live != Live(a.base, a.ref, a.fingerprint)
      ensures r.Threw? ==> r.failure in {PromotionDeferred, NoImprovement, FastForwardRefused, IoFailure}
      ensures calm && old(live) == Live(a.base, a.ref, a.fingerprint) ==> r.Returned?
      ensures calm && a.promotion.value.paths != {} && old(live) != Live(a.base, a.ref, a.fingerprint) ==> r == Threw(PromotionDeferred)
      ensures a.promotion.value.paths == {} ==> r == Returned(false)
    {
      var w := worktrees[a.candidate];
      assert w.head != a.base by { assert Depth(w.head) == 1 + Depth(a.base); }
      var changed := ListChanged(a.base, w);
      assert ChangedPaths(w.head.tree, w.head.tree) == {};
      if changed == {} {
        return Returned(false);
      }
      Meanwhile();
      if live.head != a.base || live.ref != a.ref || live.fingerprint != a.fingerprint {
        return Threw(PromotionDeferred);
      }
      if w.head == a.base || Some(w.head) != a.head {
        return Threw(NoImprovement);
      }
      var f := FastForward(a);
      match f {
        case Returned(_) => r := Returned(true);
        case Threw(e) => r := Threw(e);
        case Died => r := Died;
      }
    }

    method WritePromoted(a: Attempt) returns (fate: Fate)
      requires Inv() && attempt == Some(a) && a.Promoting() && Delivered(a, landed)
      modifies this`attempt, this`live, this`rewound
      ensures Inv()
      ensures Now() == if fate.Go? then old(Now()).(attempt := Some(a.(phase := Promoted))) else old(Now())
      ensures calm ==> fate.Go?
    {
      AttemptCoherent(rule, Now(), a.(phase := Promoted));
      fate := WriteAttempt(Some(a.(phase := Promoted)));
    }

    /** The record is set aside: nothing but its phase changes. */
    method WriteQuarantined() returns (fate: Fate)
      requires Inv() && attempt.Some?
      modifies this`attempt, this`live, this`rewound
      ensures Inv()
      ensures Now() == if fate.Go? then old(Now()).(attempt := Some(old(attempt).value.(phase := Quarantined))) else old(Now())
      ensures calm ==> fate.Go?
    {
      var b := attempt.value.(phase := Quarantined);
      AttemptCoherent(rule, Now(), b);
      fate := WriteAttempt(Some(b));
    }

    method CompleteExperiment(status: Status) returns (fate: Fate)
      requires Inv() && attempt.Some? && StatusOf(ledger.experiments, attempt.value).Running?
      requires var a := attempt.value;
               (&& status.Accepted? && a.Promoting() && Delivered(a, landed)
                && status == Accepted(a.promotion.value.score, a.promotion.value.paths))
               || (&& status.Rejected? && a.phase.PhaseRunning? && Recorded(rule, a, metric, false)
                   && metric.latest == status.score)
      modifies this`ledger, this`live, this`rewound
      ensures Inv()
      ensures Now() == if fate.Go? then old(Now()).(ledger := Complete(old(ledger), attempt.value.experiment, status))
                       else old(Now())
      ensures calm ==> fate.Go?
    {
      CompleteCoherent(rule, Now(), status);
      fate := WriteLedger(Complete(ledger, attempt.value.experiment, status));
    }

    /** Counts the iteration at most once, however often it is retried. */
    method WriteCounted(a: Attempt) returns (fate: Fate)
      requires Inv() && attempt == Some(a) && Terminal(StatusOf(ledger.experiments, a))
      modifies this`run, this`live, this`rewound
      ensures Inv()
      ensures fate.Go? ==> run == Counted(a, ledger)
      ensures Now() == if fate.Go? then old(Now()).(run := run) else old(Now())
      ensures calm ==> fate.Go?
    {
      fate := WriteRun(RunState(Max(run.iteration, a.iteration), ledger.stall, ledger.failures));
    }

    /** Removes the candidate directory, then the attempt record. */
    method DiscardAndClear(a: Attempt) returns (r: Ended<()>)
      requires Inv() && attempt == Some(a) && !StatusOf(ledger.experiments, a).Running?
      requires Closable(Now().(worktrees := worktrees - {a.candidate}))
      modifies this`attempt, this`worktrees, this`live, this`rewound
      ensures Inv()
      ensures r.Returned? ==> Now() == old(Now()).(attempt := None, worktrees := old(worktrees) - {a.candidate})
      ensures r.Returned? ==> Resolved(rule, Now(), a)
      ensures !r.Returned? ==> attempt == old(attempt)
      ensures worktrees == old(worktrees) || worktrees == old(worktrees) - {a.candidate}
      ensures r.Threw? ==> r.failure == IoFailure
      ensures calm ==> r.Returned?
    {
      var fate := WriteWorktrees(worktrees - {a.candidate});
      if !fate.Go? { return Broken(fate); }
      r := ClearAttempt();
    }

    method ClearAttempt() returns (r: Ended<()>)
      requires Inv() && Closable(Now()) && !StatusOf(ledger.experiments, attempt.value).Running?
      modifies this`attempt, this`live, this`rewound
      ensures Inv()
      ensures Now() == if r.Returned? then old(Now()).(attempt := None) else old(Now())
      ensures r.Returned? ==> Resolved(rule, Now(), old(attempt).value)
      ensures r.Threw? ==> r.failure == IoFailure
      ensures calm ==> r.Returned?
    {
      CloseOutcome(rule, Now());
      var fate := WriteAttempt(None);
      r := if fate.Go? then Returned(()) else Broken(fate);
    }

    // -------------------------------------------------------------- recovery at start-up

    /** Resolves whatever attempt record the last process left.  It may die or fail at any write and be
        run again. */
    method Recover() returns (r: Ended<()>)
      requires Inv()
      modifies this
      ensures Inv()
      ensures Resumes(old(ledger), ledger)
      ensures r.Returned? ==> attempt.None?
      ensures old(attempt).None? ==> r.Returned? && Now() == old(Now())
      ensures r.Returned? && old(attempt).Some? ==>
                var a := old(attempt).value;
                var was := StatusOf(old(ledger).experiments, a);
                if a.Promoting() then After(Now(), a) && ledger == AcceptedLedger(old(ledger), a)
                else Dropped(rule, Now(), a)
                     && if was.Rejected? || was.Invalid? then ledger == old(ledger) else OnlyRunning(old(ledger), ledger, Planned)
      ensures old(attempt).Some? && (old(attempt).value.candidate !in old(worktrees) || old(attempt).value.phase.Quarantined?) ==>
                !r.Returned?
                && (Now() == old(Now())
                    || Now() == old(Now()).(attempt := Some(old(attempt).value.(phase := Quarantined))))
      ensures r == Threw(PromotionDeferred) ==> old(attempt).Some? && old(attempt).value.phase.PromotionPending? && Now() == old(Now())
      ensures r == Threw(PromotedLost) <==>
                && old(attempt).Some? && old(attempt).value.phase.Promoted?
                && old(attempt).value.candidate in old(worktrees)
                && !AlreadyPromoted(old(attempt).value.head.value, old(attempt).value.promotion.value.paths, old(live).head)
      ensures calm == old(calm)
      ensures calm ==> (r.Returned? <==> old(Recoverable()))
      ensures calm ==> (r == Threw(PromotionDeferred) <==>
                          && old(attempt).Some? && old(attempt).value.phase.PromotionPending?
                          && old(attempt).value.candidate in old(worktrees) && !old(Deliverable(attempt.value)))
    {
      if attempt.None? {
        return Returned(());
      }
      var a := attempt.value;
      if a.candidate !in worktrees {
        var fate := WriteQuarantined();
        return if fate.Go? then Threw(CandidateQuarantined) else Broken(fate);
      }
      if a.phase.Quarantined? {
        return Threw(CandidateQuarantined);
      }
      r := ResolveAttempt(a);
    }

    /** The attempt record of a candidate that is there and was not set aside. */
    method ResolveAttempt(a: Attempt) returns (r: Ended<()>)
      requires Inv() && attempt == Some(a) && a.candidate in worktrees && !a.phase.Quarantined?
      modifies this
      ensures Inv() && Resumes(old(ledger), ledger)
      ensures r.Returned? ==>
                if a.Promoting() then After(Now(), a) && ledger == AcceptedLedger(old(ledger), a)
                else
                  var was := StatusOf(old(ledger).experiments, a);
                  && Dropped(rule, Now(), a)
                  && if was.Rejected? || was.Invalid? then ledger == old(ledger) else OnlyRunning(old(ledger), ledger, Planned)
      ensures r == Threw(PromotionDeferred) ==> a.phase.PromotionPending? && Now() == old(Now())
      ensures r == Threw(PromotedLost) <==>
                a.phase.Promoted? && !AlreadyPromoted(a.head.value, a.promotion.value.paths, old(live).head)
      ensures calm == old(calm)
      ensures calm ==> (r.Returned? <==> a.Promoting() ==> old(Deliverable(a)))
      ensures calm ==> (r == Threw(PromotionDeferred) <==> a.phase.PromotionPending? && !old(Deliverable(a)))
    {
      if a.Promoting() {
        r := FinishPromotion(a);
      } else if Terminal(StatusOf(ledger.experiments, a)) || StatusOf(ledger.experiments, a).Invalid? {
        r := CloseFinished(a);
      } else {
        r := UndoAttempt(a);
      }
    }

    ghost method Observe(a: Attempt)
      requires Inv() && attempt == Some(a) && a.Promoting() && IsAncestor(a.head.value, live.head)
      modifies this`landed
      ensures Inv() && Now() == Land(old(Now()), a, false)
    {
      LandCoherent(rule, Now(), a, false);
      landed := landed[a.experiment := a.head.value];
      assert Now() == Land(old(Now()), a, false);
    }

    /** The candidate commit is in the live history, or the live checkout is where the pending promotion
        left it. */
    ghost predicate Deliverable(a: Attempt)
      requires a.head.Some? && a.promotion.Some?
      reads this
    {
      || AlreadyPromoted(a.head.value, a.promotion.value.paths, live.head)
      || (a.phase.PromotionPending? && live == Live(a.base, a.ref, a.fingerprint))
    }

    /** What recovery can resolve in peace: no attempt, or one whose candidate is there, that is not set
        aside, and whose promotion, if there is one, can be delivered. */
    ghost predicate Recoverable()
      requires Inv()
      reads this
    {
      attempt.Some? ==>
        var a := attempt.value;
        a.candidate in worktrees && !a.phase.Quarantined? && (a.Promoting() ==> Deliverable(a))
    }

    /** Sees the candidate commit in the live history, or brings it there. */
    method Deliver(a: Attempt) returns (r: Ended<()>)
      requires Inv() && attempt == Some(a) && a.Promoting() && a.candidate in worktrees
      modifies this`live, this`rewound, this`landed, this`moved, this`attempt
      ensures Inv()
      ensures r.Returned? ==> attempt.Some? && attempt.value.Promoting() && attempt.value.(phase := a.phase) == a
      ensures r.Returned? ==> Delivered(a, landed)
      ensures Now() == old(Now()).(attempt := attempt, landed := landed, moved := moved)
      ensures r == Threw(PromotionDeferred) ==> a.phase.PromotionPending? && Now() == old(Now())
      ensures r == Threw(PromotedLost) <==>
                a.phase.Promoted? && !AlreadyPromoted(a.head.value, a.promotion.value.paths, old(live).head)
      ensures calm ==> (r.Returned? <==> old(Deliverable(a)))
      ensures calm ==> (r == Threw(PromotionDeferred) <==> a.phase.PromotionPending? && !old(Deliverable(a)))
    {
      var promotion := a.promotion.value;
      if AlreadyPromoted(a.head.value, promotion.paths, live.head) {
        Observe(a);
        return Returned(());
      }
      if a.phase.Promoted? {
        return Threw(PromotedLost);
      }
      if live.head != a.base || live.ref != a.ref || live.fingerprint != a.fingerprint {
        return Threw(PromotionDeferred);
      }
      var p := Promote(a);
      match p {
        case Threw(e) => return Threw(e);
        case Died => return Died;
        case Returned(_) =>
          var fate := WritePromoted(a);
          return if fate.Go? then Returned(()) else Broken(fate);
      }
    }

    method FinishPromotion(a: Attempt) returns (r: Ended<()>)
      requires Inv() && attempt == Some(a) && a.Promoting() && a.candidate in worktrees
      modifies this
      ensures Inv()
      ensures Resumes(old(ledger), ledger)
      ensures r.Returned? ==> After(Now(), a) && ledger == AcceptedLedger(old(ledger), a)
      ensures r.Returned? && old(StatusOf(ledger.experiments, a)).Running? ==> ledger.stall == 0 && ledger.failures == 0
      ensures r == Threw(PromotionDeferred) ==> a.phase.PromotionPending? && Now() == old(Now())
      ensures r == Threw(PromotedLost) <==>
                a.phase.Promoted? && !AlreadyPromoted(a.head.value, a.promotion.value.paths, old(live).head)
      ensures calm == old(calm)
      ensures calm ==> (r.Returned? <==> old(Deliverable(a)))
      ensures calm ==> (r == Threw(PromotionDeferred) <==> a.phase.PromotionPending? && !old(Deliverable(a)))
    {
      r := Deliver(a);
      if !r.Returned? { return; }
      var b := attempt.value;
      r := AcceptDelivered(b);
    }

    /** Ledger, metric and counter follow a delivered commit. */
    method AcceptDelivered(b: Attempt) returns (r: Ended<()>)
      requires Inv() && attempt == Some(b) && b.Promoting() && Delivered(b, landed)
      modifies this`ledger, this`metric, this`run, this`worktrees, this`attempt, this`live, this`rewound
      ensures Inv()
      ensures Resumes(old(ledger), ledger)
      ensures r.Returned? ==> After(Now(), b) && ledger == AcceptedLedger(old(ledger), b)
      ensures r.Returned? && old(StatusOf(ledger.experiments, b)).Running? ==> ledger.stall == 0 && ledger.failures == 0
      ensures r.Threw? ==> r.failure == IoFailure
      ensures calm ==> r.Returned?
    {
      var fate := EnsureAccepted(b);
      if !fate.Go? { return Broken(fate); }
      r := FollowAccepted(b);
    }

    method EnsureAccepted(b: Attempt) returns (fate: Fate)
      requires Inv() && attempt == Some(b) && b.Promoting() && Delivered(b, landed)
      modifies this`ledger, this`live, this`rewound
      ensures Inv() && Resumes(old(ledger), ledger)
      ensures fate.Go? ==> ledger == AcceptedLedger(old(ledger), b) && StatusOf(ledger.experiments, b).Accepted?
      ensures fate.Go? && old(StatusOf(ledger.experiments, b)).Running? ==> ledger.stall == 0 && ledger.failures == 0
      ensures calm ==> fate.Go?
    {
      fate := Go;
      if StatusOf(ledger.experiments, b).Running? {
        fate := CompleteExperiment(Accepted(b.promotion.value.score, b.promotion.value.paths));
      }
    }

    /** The metric and the counter follow an accepted experiment, then its attempt goes. */
    method FollowAccepted(b: Attempt) returns (r: Ended<()>)
      requires Inv() && attempt == Some(b) && StatusOf(ledger.experiments, b).Accepted?
      modifies this`metric, this`run, this`worktrees, this`attempt, this`live, this`rewound
      ensures Inv()
      ensures r.Returned? ==> After(Now(), b)
      ensures r.Threw? ==> r.failure == IoFailure
      ensures calm ==> r.Returned?
    {
      var fate := WriteMetric(b.promotion.value.after);
      if !fate.Go? { return Broken(fate); }
      fate := WriteCounted(b);
      if !fate.Go? { return Broken(fate); }
      r := DiscardAndClear(b);
    }

    /** The experiment was finished before the process stopped: only the counter may be behind. */
    method CloseFinished(a: Attempt) returns (r: Ended<()>)
      requires Inv() && attempt == Some(a) && a.phase.PhaseRunning?
      requires StatusOf(ledger.experiments, a).Rejected? || StatusOf(ledger.experiments, a).Invalid?
      modifies this`run, this`worktrees, this`attempt, this`live, this`rewound
      ensures Inv()
      ensures r.Returned? ==> Dropped(rule, Now(), a)
      ensures r.Threw? ==> r.failure == IoFailure
      ensures calm ==> r.Returned?
    {
      if Terminal(StatusOf(ledger.experiments, a)) {
        var fate := WriteCounted(a);
        if !fate.Go? { return Broken(fate); }
      }
      r := DiscardAndClear(a);
    }

    /** Nothing was decided: the candidate is archived and dropped, the metric restored. */
    method UndoAttempt(a: Attempt) returns (r: Ended<()>)
      requires Inv() && attempt == Some(a) && a.phase.PhaseRunning?
      requires StatusOf(ledger.experiments, a).Running? || StatusOf(ledger.experiments, a).Planned?
      modifies this`metric, this`ledger, this`attempt, this`worktrees, this`live, this`rewound, this`archives
      ensures Inv()
      ensures Resumes(old(ledger), ledger)
      ensures r.Returned? ==> Dropped(rule, Now(), a) && OnlyRunning(old(ledger), ledger, Planned)
      ensures r.Threw? ==> r.failure == IoFailure || r.failure == CandidateQuarantined
      ensures calm ==> r.Returned?
      ensures old(archives) <= archives && (r.Returned? ==> ContentOf(old(attempt), old(worktrees)) <= archives)
    {
      r := Archive();
      if !r.Returned? { return; }
      r := DropUndecided(a);
    }

    /** Candidate, metric, ledger and record, in this order. */
    method DropUndecided(a: Attempt) returns (r: Ended<()>)
      requires Inv() && attempt == Some(a) && a.phase.PhaseRunning?
      requires StatusOf(ledger.experiments, a).Running? || StatusOf(ledger.experiments, a).Planned?
      modifies this`metric, this`ledger, this`attempt, this`worktrees, this`live, this`rewound
      ensures Inv()
      ensures Resumes(old(ledger), ledger)
      ensures r.Returned? ==> Dropped(rule, Now(), a) && OnlyRunning(old(ledger), ledger, Planned)
      ensures r.Threw? ==> r.failure == IoFailure
      ensures calm ==> r.Returned?
    {
      var fate := DropMeasurement(a);
      if !fate.Go? { return Broken(fate); }
      fate := WriteReconciled(Planned);
      if !fate.Go? { return Broken(fate); }
      r := ClearAttempt();
    }

    /** The candidate goes, then the metric of the checkpoint comes back. */
    method DropMeasurement(a: Attempt) returns (fate: Fate)
      requires Inv() && attempt == Some(a) && a.phase.PhaseRunning?
      requires StatusOf(ledger.experiments, a).Running? || StatusOf(ledger.experiments, a).Planned?
      modifies this`worktrees, this`metric, this`live, this`rewound
      ensures Inv()
      ensures fate.Go? ==> metric == a.before && worktrees == old(worktrees) - {a.candidate}
      ensures calm ==> fate.Go?
    {
      fate := WriteWorktrees(worktrees - {a.candidate});
      if !fate.Go? { return; }
      fate := WriteMetric(a.before);
    }

    /** Running experiments are planned again, or given up. */
    method WriteReconciled(s: Status) returns (fate: Fate)
      requires Inv() && (s.Planned? || s.Invalid?)
      requires attempt.Some? ==>
                 !attempt.value.Promoting() && (s.Invalid? ==> metric == attempt.value.before || Terminal(StatusOf(ledger.experiments, attempt.value)))
      modifies this`ledger, this`live, this`rewound
      ensures Inv()
      ensures Now() == if fate.Go? then old(Now()).(ledger := Reconciled(old(ledger), s)) else old(Now())
      ensures if fate.Go? then OnlyRunning(old(ledger), ledger, s) else ledger == old(ledger)
      ensures calm ==> fate.Go?
    {
      ReconciledQuiet(ledger, s);
      ReconciledOnlyRunning(ledger, s);
      QuietLedger(rule, Now(), Reconciled(ledger, s));
      fate := WriteLedger(Reconciled(ledger, s));
    }

    /** Archives the candidate; when that fails the attempt is quarantined. */
    method Archive() returns (r: Ended<()>)
      requires Inv()
      modifies this`attempt, this`live, this`rewound, this`archives
      ensures Inv()
      ensures r.Returned? ==> Now() == old(Now())
      ensures Now() == old(Now())
              || (old(attempt).Some? && Now() == old(Now()).(attempt := Some(old(attempt).value.(phase := Quarantined))))
      ensures r.Threw? ==> r.failure == CandidateQuarantined || (r.failure == IoFailure && Now() == old(Now()))
      ensures calm ==> r.Returned? && live == old(live)
      ensures r == Threw(CandidateQuarantined) && old(attempt).Some? ==> attempt == Some(old(attempt).value.(phase := Quarantined))
      ensures archives == if r.Returned? then old(archives) + ContentOf(old(attempt), old(worktrees)) else old(archives)
    {
      var fate := BeforeWrite();
      if fate.Dies? { return Died; }
      if fate.Go? {
        archives := archives + ContentOf(attempt, worktrees);
        return Returned(());
      }
      if attempt.Some? {
        fate := WriteQuarantined();
        if !fate.Go? { return Broken(fate); }
      }
      r := Threw(CandidateQuarantined);
    }

    // -------------------------------------------------------------- one pass of the loop

    /** Picks the planned experiment, or plans a new one, and starts it; `x` is the one it picked. */
    method StartExperiment() returns (r: Ended<nat>, ghost x: nat)
      requires Inv() && attempt.None?
      modifies this`ledger, this`live, this`rewound
      ensures Inv()
      ensures Touches(old(ledger), ledger, x) && (r.Returned? ==> r.value == x)
      ensures !r.Returned? && NoneRunning(old(ledger)) ==> NoneRunning(ledger)
      ensures r.Returned? ==> StatusIs(r.value, Running)
      ensures r.Returned? ==>
                if exists y :: y in old(ledger).experiments && old(ledger).experiments[y].Planned? then
                  && r.value in old(ledger).experiments && old(ledger).experiments[r.value].Planned?
                  && ledger == SetStatus(old(ledger), r.value, Running)
                else
                  r.value == old(ledger).next && ledger == SetStatus(old(ledger), r.value, Running).(next := r.value + 1)
      ensures r.Threw? ==> r.failure == IoFailure
    {
      var fate, picked := PickPlanned();
      x := picked;
      if !fate.Go? { return Broken(fate), x; }
      SetStatusRest(ledger, x, Running);
      r := SetRunning(picked);
    }

    /** The planned experiment, or a new one that is planned. */
    method PickPlanned() returns (fate: Fate, x: nat)
      requires Inv() && attempt.None?
      modifies this`ledger, this`live, this`rewound
      ensures Inv() && Touches(old(ledger), ledger, x)
      ensures fate.Go? ==> StatusIs(x, Planned)
      ensures if exists y :: y in old(ledger).experiments && old(ledger).experiments[y].Planned? then
                fate.Go? && ledger == old(ledger)
              else
                && x == old(ledger).next
                && ledger == if fate.Go? then SetStatus(old(ledger), x, Planned).(next := x + 1) else old(ledger)
    {
      fate := Go;
      if y :| y in ledger.experiments && ledger.experiments[y].Planned? {
        x := y;
      } else {
        x := ledger.next;
        SetStatusRest(ledger, x, Planned);
        QuietLedger(rule, Now(), SetStatus(ledger, x, Planned).(next := x + 1));
        fate := WriteLedger(SetStatus(ledger, x, Planned).(next := x + 1));
      }
    }

    method SetRunning(x: nat) returns (r: Ended<nat>)
      requires Inv() && attempt.None? && StatusIs(x, Planned)
      modifies this`ledger, this`live, this`rewound
      ensures Inv()
      ensures r.Returned? ==> r.value == x
      ensures ledger == if r.Returned? then SetStatus(old(ledger), x, Running) else old(ledger)
      ensures r.Threw? ==> r.failure == IoFailure
    {
      QuietLedger(rule, Now(), SetStatus(ledger, x, Running));
      var fate := WriteLedger(SetStatus(ledger, x, Running));
      r := if fate.Go? then Returned(x) else Broken(fate);
    }

    /** Creates the candidate worktree and the attempt record. */
    method OpenAttempt(x: nat, base: Commit) returns (r: Ended<()>, pending: bool)
      requires Inv() && attempt.None? && StatusIs(x, Running)
      modifies this`worktrees, this`attempt, this`live, this`rewound
      ensures Inv()
      ensures r.Returned? ==>
                && pending && attempt.Some? && Underway(attempt.value)
                && var a := attempt.value;
                   && a.experiment == x && a.iteration == run.iteration + 1 && a.base == base
                   && worktrees == old(worktrees)[a.candidate := Worktree(base, base.tree)] && a.candidate !in old(worktrees)
      ensures r.Returned? && calm ==> attempt.value.ref == live.ref && attempt.value.fingerprint == live.fingerprint && live == old(live)
      ensures !r.Returned? ==> attempt.None?
      ensures r.Threw? ==> r.failure == IoFailure
      ensures pending <==> worktrees != old(worktrees)
    {
      pending := false;
      Meanwhile();
      var ref, fingerprint := live.ref, live.fingerprint;
      var id: nat := *;
      if id in worktrees {
        return Threw(IoFailure), pending;
      }
      var fate := WriteWorktrees(worktrees[id := Worktree(base, base.tree)]);
      if !fate.Go? { return Broken(fate), pending; }
      pending := true;
      var a := FirstRecord(run, metric, x, id, Live(base, ref, fingerprint));
      BeginCoherent(rule, Now(), a);
      fate := WriteAttempt(Some(a));
      r := if fate.Go? then Returned(()) else Broken(fate);
    }

    predicate StatusIs(x: nat, s: Status)
      reads this
    {
      x in ledger.experiments && ledger.experiments[x] == s
    }

    /** The attempt under way, before anything about it is decided. */
    ghost predicate Underway(a: Attempt)
      reads this
    {
      && attempt == Some(a) && a.phase.PhaseRunning?
      && StatusIs(a.experiment, Running) && metric == a.before
      && a.candidate in worktrees
    }

    method WriteCandidate(a: Attempt, w: Worktree) returns (fate: Fate)
      requires Inv() && attempt == Some(a) && a.phase.PhaseRunning?
      modifies this`worktrees, this`live, this`rewound
      ensures Inv()
      ensures Now() == if fate.Go? then old(Now()).(worktrees := old(worktrees)[a.candidate := w]) else old(Now())
      ensures calm ==> fate.Go? && live == old(live)
    {
      fate := WriteWorktrees(worktrees[a.candidate := w]);
    }

    /** The worker attempt is over without a measurement. */
    ghost predicate Unsettled(a: Attempt)
      reads this
    {
      && attempt == Some(a) && a.phase.PhaseRunning? && metric == a.before && a.candidate !in worktrees
      && a.experiment in ledger.experiments && !Terminal(ledger.experiments[a.experiment])
    }

    /** A worker attempt without a measurement: the experiment is planned again, or given up. */
    method RecordFailure(a: Attempt, kind: WorkerFailure, limit: nat) returns (r: Ended<Next>)
      requires Inv() && Unsettled(a) && StatusIs(a.experiment, Running)
      modifies this`ledger, this`run, this`attempt, this`live, this`rewound
      ensures Inv()
      ensures Rest(ledger, a.experiment) == Rest(old(ledger), a.experiment) && ledger.next == old(ledger).next
      ensures r.Returned? ==>
                && Dropped(rule, Now(), a)
                && ledger == FailedLedger(old(ledger), a.experiment, kind, limit) && run.failures == ledger.failures
                && r.value == (if kind.Tamper? && old(ledger).failures + 1 >= limit then Stop(false) else Again)
      ensures r.Returned? || Unsettled(a)
      ensures r.Threw? ==> r.failure == IoFailure
      ensures a.candidate !in worktrees
    {
      var fate := NoteFailure(a);
      if !fate.Go? { return Broken(fate); }
      var next := Again;
      if ledger.failures >= limit {
        fate := EndRecoveryWindow(a, kind);
        if !fate.Go? { return Broken(fate); }
        next := if kind.Tamper? then Stop(false) else Again;
      }
      var c := ClearAttempt();
      match c {
        case Returned(_) => r := Returned(next);
        case Threw(e) => r := Threw(e);
        case Died => r := Died;
      }
    }

    /** The experiment is planned again and the failure counted, in the ledger and then in the run state. */
    method NoteFailure(a: Attempt) returns (fate: Fate)
      requires Inv() && Unsettled(a) && StatusIs(a.experiment, Running)
      modifies this`ledger, this`run, this`live, this`rewound
      ensures Inv() && Unsettled(a)
      ensures Rest(ledger, a.experiment) == Rest(old(ledger), a.experiment) && ledger.next == old(ledger).next
      ensures fate.Go? ==>
                && ledger == SetStatus(old(ledger), a.experiment, Planned).(failures := old(ledger).failures + 1)
                && run == old(run).(failures := ledger.failures)
    {
      var l := SetStatus(ledger, a.experiment, Planned).(failures := ledger.failures + 1);
      QuietLedger(rule, Now(), l);
      fate := WriteLedger(l);
      if !fate.Go? { return; }
      FailureCounts(rule, Now(), l.failures, l.failures);
      assert ledger.(failures := l.failures) == ledger;
      fate := WriteRun(run.(failures := l.failures));
    }

    /** Too many failures in a row: an incomplete or tampered experiment is given up, and unless the
        loop stops for tampering a new recovery window begins. */
    method EndRecoveryWindow(a: Attempt, kind: WorkerFailure) returns (fate: Fate)
      requires Inv() && Unsettled(a) && StatusIs(a.experiment, Planned)
      modifies this`ledger, this`run, this`live, this`rewound
      ensures Inv() && Unsettled(a)
      ensures Rest(ledger, a.experiment) == Rest(old(ledger), a.experiment) && ledger.next == old(ledger).next
      ensures fate.Go? ==>
                if kind.Tamper? then ledger == SetStatus(old(ledger), a.experiment, Invalid) && run == old(run)
                else
                  && run.failures == 0
                  && ledger == (if kind.Incomplete? then SetStatus(old(ledger), a.experiment, Invalid) else old(ledger)).(failures := 0)
    {
      SetStatusRest(ledger, a.experiment, Invalid);
      if kind.Tamper? || kind.Incomplete? {
        fate := GiveUpExperiment(a);
        if !fate.Go? || kind.Tamper? { return; }
      }
      fate := ForgetFailures();
    }

    method GiveUpExperiment(a: Attempt) returns (fate: Fate)
      requires Inv() && Unsettled(a) && StatusIs(a.experiment, Planned)
      modifies this`ledger, this`live, this`rewound
      ensures Inv() && Unsettled(a)
      ensures ledger == if fate.Go? then SetStatus(old(ledger), a.experiment, Invalid) else old(ledger)
    {
      QuietLedger(rule, Now(), SetStatus(ledger, a.experiment, Invalid));
      fate := WriteLedger(SetStatus(ledger, a.experiment, Invalid));
    }

    /** The failure counts of the ledger and of the run state start over. */
    method ForgetFailures() returns (fate: Fate)
      requires Inv()
      modifies this`ledger, this`run, this`live, this`rewound
      ensures Inv()
      ensures fate.Go? ==> run == old(run).(failures := 0) && ledger == old(ledger).(failures := 0)
      ensures ledger == old(ledger) || ledger == old(ledger).(failures := 0)
      ensures run == old(run) || run == old(run).(failures := 0)
      ensures calm ==> fate.Go? && live == old(live)
    {
      FailureCounts(rule, Now(), 0, run.failures);
      assert run.(failures := run.failures) == run;
      fate := WriteLedger(ledger.(failures := 0));
      if !fate.Go? { return; }
      FailureCounts(rule, Now(), 0, 0);
      assert ledger.(failures := 0) == ledger;
      fate := WriteRun(run.(failures := 0));
    }

    /** Drops the candidate of a worker attempt that ends without a measurement. */
    method FailWorker(a: Attempt, kind: WorkerFailure, limit: nat, archived: bool) returns (r: Ended<Next>, pending: bool)
      requires Inv() && Underway(a)
      modifies this`ledger, this`run, this`attempt, this`worktrees, this`live, this`rewound, this`archives
      ensures Inv()
      ensures Rest(ledger, a.experiment) == Rest(old(ledger), a.experiment) && ledger.next == old(ledger).next
      ensures r.Returned? ==>
                && Dropped(rule, Now(), a)
                && ledger == FailedLedger(old(ledger), a.experiment, kind, limit) && run.failures == ledger.failures
                && r.value == (if kind.Tamper? && old(ledger).failures + 1 >= limit then Stop(false) else Again)
      ensures r.Returned? || Interrupted(a, r)
      ensures pending <==> a.candidate in worktrees
      ensures archived ==> r != Threw(CandidateQuarantined) && archives == old(archives)
      ensures old(archives) <= archives && (!archived && !pending ==> old(worktrees)[a.candidate].files in archives)
      ensures r == Threw(CandidateQuarantined) ==> attempt.Some? && attempt.value.phase.Quarantined?
    {
      pending := true;
      if !archived {
        var c := ArchiveAndRevert(a);
        if !c.Returned? { return Unfinished(c), pending; }
      }
      r, pending := DropFailed(a, kind, limit);
    }

    method DropFailed(a: Attempt, kind: WorkerFailure, limit: nat) returns (r: Ended<Next>, pending: bool)
      requires Inv() && Underway(a)
      modifies this`ledger, this`run, this`attempt, this`worktrees, this`live, this`rewound
      ensures Inv()
      ensures Rest(ledger, a.experiment) == Rest(old(ledger), a.experiment) && ledger.next == old(ledger).next
      ensures r.Returned? ==>
                && Dropped(rule, Now(), a)
                && ledger == FailedLedger(old(ledger), a.experiment, kind, limit) && run.failures == ledger.failures
                && r.value == (if kind.Tamper? && old(ledger).failures + 1 >= limit then Stop(false) else Again)
      ensures r.Returned? || Interrupted(a, r)
      ensures r != Threw(CandidateQuarantined)
      ensures pending <==> a.candidate in worktrees
    {
      pending := true;
      var fate := WriteWorktrees(worktrees - {a.candidate});
      if !fate.Go? { return Broken(fate), pending; }
      pending := false;
      r := RecordFailure(a, kind, limit);
    }

    /** The content of the candidate is archived, then it goes back to the base. */
    method ArchiveAndRevert(a: Attempt) returns (r: Ended<()>)
      requires Inv() && Underway(a)
      modifies this`attempt, this`worktrees, this`live, this`rewound, this`archives
      ensures Inv() && a.candidate in worktrees
      ensures r.Returned? ==> Underway(a) && old(worktrees)[a.candidate].files in archives
      ensures !r.Returned? ==> Interrupted(a, Unfinished(r))
      ensures old(archives) <= archives
      ensures r == Threw(CandidateQuarantined) ==> attempt.Some? && attempt.value.phase.Quarantined?
    {
      r := Archive();
      if !r.Returned? { return; }
      var fate := WriteCandidate(a, Worktree(a.base, a.base.tree));
      if !fate.Go? { r := Broken(fate); }
    }

    /** How a pass that does not return leaves the attempt it began: still undecided, set aside, or
        with a durable promotion or outcome. */
    ghost predicate Interrupted(a: Attempt, r: Ended<Next>)
      reads this
    {
      && attempt.Some? && attempt.value.experiment == a.experiment
      && var b := attempt.value;
         && (b.phase.Quarantined? ==> r == Threw(CandidateQuarantined) || r.Died?)
         && (StatusOf(ledger.experiments, b).Accepted? ==> b.promotion.Some? && metric == b.promotion.value.after)
    }

    /** Measures the candidate.  An improvement is committed to the candidate, anything else reverted;
        the metric file follows. */
    method Measure(a: Attempt) returns (r: Ended<Measured>)
      requires Inv() && Underway(a)
      modifies this`worktrees, this`metric, this`live, this`rewound
      ensures Inv()
      ensures StatusIs(a.experiment, Running) && a.candidate in worktrees
      ensures r.Returned? && r.value.Unmeasured? ==> Underway(a)
      ensures r.Returned? && r.value.Scored? ==>
                && Judged(rule, old(worktrees)[a.candidate], a, metric.latest, r.value.verdict)
                && Recorded(rule, a, metric, r.value.verdict.Improved?)
                && worktrees[a.candidate].files == worktrees[a.candidate].head.tree
                && worktrees[a.candidate].files == (if r.value.verdict.Improved? then old(worktrees)[a.candidate].files else a.base.tree)
      ensures r.Threw? ==> r.failure == IoFailure || r.failure == MetricInvalid
    {
      var measured: bool := *;
      if !measured {
        ghost var observed;
        r, observed := Remeasure(a);
        return;
      }
      var score: int := *;
      r := RecordScore(a, score);
    }

    /** The candidate follows its verdict, then the metric file follows the candidate. */
    method RecordScore(a: Attempt, score: int) returns (r: Ended<Measured>)
      requires Inv() && Underway(a)
      modifies this`worktrees, this`metric, this`live, this`rewound
      ensures Inv()
      ensures a.candidate in worktrees
      ensures r.Threw? ==> r.failure == IoFailure
      ensures r.Returned? ==>
                && r.value.Scored? && Judged(rule, old(worktrees)[a.candidate], a, score, r.value.verdict) && metric.latest == score
                && Recorded(rule, a, metric, r.value.verdict.Improved?)
                && metric.history[|metric.history| - 1].head == Some(old(worktrees)[a.candidate].head)
                && worktrees[a.candidate].files == worktrees[a.candidate].head.tree
                && worktrees[a.candidate].files == (if r.value.verdict.Improved? then old(worktrees)[a.candidate].files else a.base.tree)
      ensures calm ==> r.Returned? && live == old(live)
    {
      var w := worktrees[a.candidate];
      var verdict := Judge(rule, w, a, score);
      JudgedFairly(rule, w, a, score);
      var fate := KeepOrRevert(a, verdict.Improved?);
      if !fate.Go? { return Broken(fate); }
      var m := MeasuredMetric(a, metric, w, score, verdict);
      MetricFree(rule, Now(), m);
      fate := WriteMetric(m);
      r := if fate.Go? then Returned(Scored(verdict)) else Broken(fate);
    }

    /** An improved candidate is committed as it is, any other one goes back to the base. */
    method KeepOrRevert(a: Attempt, improved: bool) returns (fate: Fate)
      requires Inv() && Underway(a)
      modifies this`worktrees, this`live, this`rewound
      ensures Inv() && Underway(a)
      ensures fate.Go? ==>
                var w := worktrees[a.candidate];
                w.files == w.head.tree && w.files == if improved then old(worktrees)[a.candidate].files else a.base.tree
      ensures calm ==> fate.Go? && live == old(live)
    {
      var w := worktrees[a.candidate];
      fate := Go;
      if !improved {
        fate := WriteCandidate(a, Worktree(a.base, a.base.tree));
      } else if w.files != w.head.tree {
        var tag: int := *;
        fate := WriteCandidate(a, Worktree(Child(w.head, w.files, tag), w.files));
      }
    }

    /** The measurement failed: the candidate is reverted and the checkpoint has to measure as before. */
    method Remeasure(a: Attempt) returns (r: Ended<Measured>, ghost observed: Option<int>)
      requires Inv() && Underway(a)
      modifies this`worktrees, this`metric, this`live, this`rewound
      ensures Inv() && Underway(a)
      ensures r.Returned? ==> r.value.Unmeasured? && observed == Some(a.before.best)
      ensures r == Threw(MetricInvalid) ==> observed != Some(a.before.best)
      ensures observed.Some? ==> worktrees[a.candidate] == Worktree(a.base, a.base.tree)
      ensures r.Threw? ==> r.failure == IoFailure || r.failure == MetricInvalid
      ensures calm ==> observed.Some? || r == Threw(MetricInvalid)
      ensures calm && r.Threw? ==> r.failure == MetricInvalid
    {
      observed := None;
      var fate := WriteCandidate(a, Worktree(a.base, a.base.tree));
      if !fate.Go? { return Broken(fate), observed; }
      var measured: Option<int> := *;
      observed := measured;
      if measured != Some(metric.best) {
        return Threw(MetricInvalid), observed;
      }
      fate := WriteMetric(a.before);
      r := if fate.Go? then Returned(Unmeasured) else Broken(fate);
    }

    /** The candidate improved the metric: it becomes one commit on the base, the promotion is made
        durable, and only then is the live branch moved.  The value says whether the promotion has to
        wait for the user. */
    method AcceptCandidate(a: Attempt) returns (r: Ended<bool>)
      requires Inv() && attempt == Some(a) && a.phase.PhaseRunning? && StatusIs(a.experiment, Running)
      requires a.candidate in worktrees && Recorded(rule, a, metric, true)
      modifies this`metric, this`worktrees, this`attempt, this`live, this`rewound, this`landed, this`moved
      ensures Inv()
      ensures attempt.Some? && attempt.value.experiment == a.experiment
      ensures !attempt.value.phase.Quarantined? && attempt.value.before == a.before
      ensures attempt.value.head.Some? ==>
                && attempt.value.head.value.Child? && attempt.value.head.value.parent == a.base
                && attempt.value.head.value.tree == old(worktrees)[a.candidate].files
      ensures r == Returned(true) ==> attempt.value.phase.PromotionPending? && metric == a.before
      ensures r == Returned(false) ==>
                && attempt.value.phase.Promoted? && metric == old(metric)
                && attempt.value.promotion.value ==
                     Promotion(metric.latest, metric, ChangedPaths(a.base.tree, old(worktrees)[a.candidate].files))
      ensures r != Threw(CandidateQuarantined)
      ensures calm && old(worktrees[a.candidate]).files == old(worktrees[a.candidate]).head.tree ==>
                r == Returned(old(worktrees[a.candidate]).files != a.base.tree && old(live) != Live(a.base, a.ref, a.fingerprint))
      ensures a.candidate in worktrees && attempt.value.candidate == a.candidate
    {
      var w := worktrees[a.candidate];
      if w.files != w.head.tree {
        return Threw(IoFailure);
      }
      var fate, b := MakeDurable(a);
      if !fate.Go? { return Broken(fate); }
      ChangedPathsIff(a.base.tree, w.files);
      r := PromoteOrDefer(b);
    }

    /** One commit on the base with the content of the candidate, and then the record that names it; `b` is that
        record. */
    method MakeDurable(a: Attempt) returns (fate: Fate, b: Attempt)
      requires Inv() && attempt == Some(a) && a.phase.PhaseRunning? && StatusIs(a.experiment, Running)
      requires a.candidate in worktrees && Recorded(rule, a, metric, true)
      modifies this`worktrees, this`attempt, this`live, this`rewound
      ensures Inv() && a.candidate in worktrees
      ensures attempt == if fate.Go? then Some(b) else Some(a)
      ensures b.head.Some? && b.head.value.Child? && b.head.value.parent == a.base
              && b.head.value.tree == old(worktrees)[a.candidate].files
      ensures b == PendingRecord(a, metric, b.head.value)
      ensures calm ==> fate.Go? && live == old(live)
    {
      var head;
      fate, head := NormalizeCandidate(a);
      b := PendingRecord(a, metric, head);
      if !fate.Go? { return; }
      fate := WritePending(a, head);
    }

    /** The candidate becomes one commit on the base with the content it has. */
    method NormalizeCandidate(a: Attempt) returns (fate: Fate, head: Commit)
      requires Inv() && attempt == Some(a) && a.phase.PhaseRunning? && a.candidate in worktrees
      modifies this`worktrees, this`live, this`rewound
      ensures Inv() && a.candidate in worktrees
      ensures head.Child? && head.parent == a.base && head.tree == old(worktrees)[a.candidate].files
      ensures fate.Go? ==> worktrees[a.candidate] == Worktree(head, head.tree)
      ensures calm ==> fate.Go? && live == old(live)
    {
      var files := worktrees[a.candidate].files;
      var tag: int := *;
      head := Child(a.base, files, tag);
      fate := WriteCandidate(a, Worktree(head, files));
    }

    /** The write that makes the promotion of `head` durable. */
    method WritePending(a: Attempt, head: Commit) returns (fate: Fate)
      requires Inv() && attempt == Some(a) && a.phase.PhaseRunning? && StatusIs(a.experiment, Running)
      requires Recorded(rule, a, metric, true) && head.Child? && head.parent == a.base
      requires a.candidate in worktrees && worktrees[a.candidate] == Worktree(head, head.tree)
      modifies this`attempt, this`live, this`rewound
      ensures Inv()
      ensures attempt == if fate.Go? then Some(PendingRecord(a, metric, head)) else Some(a)
      ensures calm ==> fate.Go? && live == old(live)
    {
      AttemptCoherent(rule, Now(), PendingRecord(a, metric, head));
      fate := WriteAttempt(Some(PendingRecord(a, metric, head)));
    }

    method PromoteOrDefer(b: Attempt) returns (r: Ended<bool>)
      requires Inv() && attempt == Some(b) && b.phase.PromotionPending? && StatusIs(b.experiment, Running)
      requires b.candidate in worktrees && metric == b.promotion.value.after
      modifies this`metric, this`attempt, this`live, this`rewound, this`landed, this`moved
      ensures Inv()
      ensures attempt.Some? && attempt.value.(phase := b.phase) == b && attempt.value.Promoting()
      ensures r == Returned(true) ==> attempt == Some(b) && metric == b.before
      ensures r == Returned(false) ==> attempt.value.phase.Promoted? && metric == b.promotion.value.after
      ensures r != Threw(CandidateQuarantined)
      ensures calm ==> r == Returned(b.promotion.value.paths != {} && old(live) != Live(b.base, b.ref, b.fingerprint))
    {
      var p := Promote(b);
      match p {
        case Died => r := Died;
        case Threw(e) =>
          if !e.PromotionDeferred? { return Threw(e); }
          r := Defer(b);
        case Returned(_) =>
          var fate := WritePromoted(b);
          r := if fate.Go? then Returned(false) else Broken(fate);
      }
    }

    /** The promotion waits for the user with the metric of the checkpoint back in place. */
    method Defer(b: Attempt) returns (r: Ended<bool>)
      requires Inv() && attempt == Some(b) && StatusIs(b.experiment, Running)
      modifies this`metric, this`live, this`rewound
      ensures Inv()
      ensures r == Returned(true) ==> metric == b.before
      ensures r != Returned(false) && r != Threw(CandidateQuarantined)
      ensures calm ==> r == Returned(true)
    {
      MetricFree(rule, Now(), b.before);
      var fate := WriteMetric(b.before);
      r := if fate.Go? then Returned(true) else Broken(fate);
    }

    /** The outcome reaches ledger, worktree, counter and record, in this order. */
    method SettleAttempt(b: Attempt, status: Status) returns (r: Ended<Next>, pending: bool)
      requires b.candidate in worktrees
      requires Inv() && attempt == Some(b) && StatusIs(b.experiment, Running)
      requires Earned(b, status)
      modifies this`ledger, this`worktrees, this`run, this`attempt, this`live, this`rewound
      ensures Inv()
      ensures Rest(ledger, b.experiment) == Rest(old(ledger), b.experiment) && ledger.next == old(ledger).next
      ensures r.Returned? ==> r.value != Stop(true) && attempt.None? && run.iteration == b.iteration
                              && StatusIs(b.experiment, status) && Resolved(rule, Now(), b)
      ensures r.Returned? ==> ledger.failures == 0 && ledger.stall == if status.Accepted? then 0 else old(ledger).stall + 1
      ensures !r.Returned? ==> Interrupted(b, r)
      ensures calm ==> r.Returned?
      ensures pending <==> b.candidate in worktrees
      ensures r != Threw(CandidateQuarantined)
    {
      pending := true;
      var fate := RecordOutcome(b, status);
      if fate.Go? {
        r, pending := EndPass(b);
      } else {
        r := Broken(fate);
      }
    }

    /** The status that the attempt has come to: accepted as promoted, or rejected as measured. */
    ghost predicate Earned(b: Attempt, status: Status)
      requires Inv() && attempt == Some(b)
      reads this
    {
      match status
      case Accepted(score, paths) =>
        b.phase.Promoted? && metric == b.promotion.value.after && score == b.promotion.value.score && paths == b.promotion.value.paths
      case Rejected(score) => b.phase.PhaseRunning? && Recorded(rule, b, metric, false) && metric.latest == score
      case _ => false
    }

    method RecordOutcome(b: Attempt, status: Status) returns (fate: Fate)
      requires Inv() && attempt == Some(b) && StatusIs(b.experiment, Running)
      requires Earned(b, status)
      modifies this`ledger, this`live, this`rewound
      ensures Inv() && run.iteration == b.iteration - 1
      ensures Rest(ledger, b.experiment) == Rest(old(ledger), b.experiment) && ledger.next == old(ledger).next
      ensures StatusIs(b.experiment, if fate.Go? then status else Running)
      ensures fate.Go? ==> ledger.failures == 0 && ledger.stall == if status.Accepted? then 0 else old(ledger).stall + 1
      ensures calm ==> fate.Go?
      ensures !fate.Go? ==> Interrupted(b, Broken(fate))
    {
      SetStatusRest(ledger, b.experiment, status);
      fate := CompleteExperiment(status);
    }

    /** What remains of the pass of a finished experiment; the loop goes on or stops. */
    method EndPass(b: Attempt) returns (r: Ended<Next>, pending: bool)
      requires b.candidate in worktrees
      requires Inv() && attempt == Some(b) && Terminal(StatusOf(ledger.experiments, b)) && run.iteration == b.iteration - 1
      requires StatusOf(ledger.experiments, b).Accepted? ==> metric == b.promotion.value.after
      requires !b.phase.Quarantined? && (StatusOf(ledger.experiments, b).Accepted? ==> b.promotion.Some?)
      modifies this`worktrees, this`run, this`attempt, this`live, this`rewound
      ensures Inv()
      ensures r.Returned? ==> r.value != Stop(true) && attempt.None? && run.iteration == b.iteration && Resolved(rule, Now(), b)
      ensures !r.Returned? ==> attempt == Some(b)
      ensures calm ==> r.Returned?
      ensures pending <==> b.candidate in worktrees
      ensures !r.Returned? ==> Interrupted(b, r)
      ensures r != Threw(CandidateQuarantined)
    {
      var c;
      c, pending := DiscardFinished(b);
      var stop: bool := *;
      match c {
        case Returned(_) => r := Returned(if stop then Stop(false) else Again);
        case Threw(e) => r := Threw(e);
        case Died => r := Died;
      }
    }

    /** The candidate of a finished experiment goes, then the iteration counts. */
    method DiscardFinished(b: Attempt) returns (r: Ended<()>, pending: bool)
      requires b.candidate in worktrees
      requires Inv() && attempt == Some(b) && Terminal(StatusOf(ledger.experiments, b)) && run.iteration == b.iteration - 1
      requires StatusOf(ledger.experiments, b).Accepted? ==> metric == b.promotion.value.after
      modifies this`worktrees, this`run, this`attempt, this`live, this`rewound
      ensures Inv()
      ensures r.Returned? ==> attempt.None? && run.iteration == b.iteration && Resolved(rule, Now(), b)
      ensures !r.Returned? ==> attempt == Some(b)
      ensures calm ==> r.Returned?
      ensures pending <==> b.candidate in worktrees
      ensures r != Threw(CandidateQuarantined)
    {
      pending := true;
      var fate := WriteWorktrees(worktrees - {b.candidate});
      if !fate.Go? { return Broken(fate), pending; }
      pending := false;
      r := CountAndClear(b);
    }

    method CountAndClear(b: Attempt) returns (r: Ended<()>)
      requires b.candidate !in worktrees
      requires Inv() && attempt == Some(b) && Terminal(StatusOf(ledger.experiments, b)) && run.iteration == b.iteration - 1
      requires StatusOf(ledger.experiments, b).Accepted? ==> metric == b.promotion.value.after
      modifies this`run, this`attempt, this`live, this`rewound
      ensures Inv()
      ensures r.Returned? ==> attempt.None? && run.iteration == b.iteration && Resolved(rule, Now(), b)
      ensures !r.Returned? ==> attempt == Some(b)
      ensures calm ==> r.Returned?
      ensures r != Threw(CandidateQuarantined)
    {
      var fate := WriteRun(RunState(run.iteration + 1, ledger.stall, ledger.failures));
      if !fate.Go? { return Broken(fate); }
      r := ClearAttempt();
    }

    /** One pass: plan, work in isolation, measure, and settle. */
    method Iterate(limit: nat) returns (r: Ended<Next>, pending: bool, ghost x: nat)
      requires Inv() && attempt.None?
      modifies this
      ensures Inv()
      ensures Touches(old(ledger), ledger, x)
      ensures r == Returned(Again) && NoneRunning(old(ledger)) ==> NoneRunning(ledger)
      ensures r == Returned(Again) ==> attempt.None?
      ensures r == Returned(Stop(true)) ==> attempt.Some? && attempt.value.phase.PromotionPending? && metric == attempt.value.before
      ensures Finishable(r)
      ensures worktrees == old(worktrees) && attempt.None? ==> !pending
      ensures r == Threw(CandidateQuarantined) ==> attempt.Some? && attempt.value.phase.Quarantined?
    {
      x := ledger.next;
      Meanwhile();
      if * {
        return Threw(IoFailure), false, x;
      }
      var base := live.head;
      var started;
      started, x := StartExperiment();
      if started.Threw? { return Threw(started.failure), false, x; }
      if started.Died? { return Died, false, x; }
      ghost var running := ledger;
      r, pending := Work(started.value, base, limit);
      TouchedRest(old(ledger), running, ledger, x);
    }

    /** The work on a running experiment, in a candidate on the base. */
    method Work(x: nat, base: Commit, limit: nat) returns (r: Ended<Next>, pending: bool)
      requires Inv() && attempt.None? && StatusIs(x, Running)
      modifies this
      ensures Inv()
      ensures Rest(ledger, x) == Rest(old(ledger), x) && ledger.next == old(ledger).next && x in ledger.experiments
      ensures r == Returned(Again) ==> attempt.None? && !ledger.experiments[x].Running?
      ensures r == Returned(Stop(true)) ==> attempt.Some? && attempt.value.phase.PromotionPending? && metric == attempt.value.before
      ensures Finishable(r)
      ensures worktrees == old(worktrees) && attempt.None? ==> !pending
      ensures r == Threw(CandidateQuarantined) ==> attempt.Some? && attempt.value.phase.Quarantined?
    {
      var o;
      o, pending := OpenAttempt(x, base);
      if o.Threw? { return Threw(o.failure), pending; }
      if o.Died? { return Died, pending; }
      var work: Worktree := *;
      r, pending := RunWorker(attempt.value, limit, work);
    }

    /** What the end of the loop may find: the attempt is gone, undecided, waiting or finished. */
    ghost predicate Finishable(r: Ended<Next>)
      reads this
    {
      attempt.Some? ==>
        var b := attempt.value;
        var status := StatusOf(ledger.experiments, b);
        && (b.phase.Quarantined? ==> r == Threw(CandidateQuarantined) || r.Died?)
        && (status.Accepted? ==> b.promotion.Some? && metric == b.promotion.value.after)
        && (b.Promoting() && !Terminal(status) ==> !r.Returned? || r == Returned(Stop(true)))
    }

    /** The worker leaves `work` in its candidate; then the pass stops, fails, or is evaluated. */
    method RunWorker(a: Attempt, limit: nat, work: Worktree) returns (r: Ended<Next>, pending: bool)
      requires Inv() && Underway(a)
      modifies this
      ensures Inv()
      ensures Rest(ledger, a.experiment) == Rest(old(ledger), a.experiment) && ledger.next == old(ledger).next
      ensures a.experiment in ledger.experiments
      ensures r == Returned(Again) ==> attempt.None? && !ledger.experiments[a.experiment].Running?
      ensures r == Returned(Stop(true)) ==> attempt.Some? && attempt.value.phase.PromotionPending? && metric == attempt.value.before
      ensures Finishable(r)
      ensures pending <==> a.candidate in worktrees
      ensures r == Threw(CandidateQuarantined) ==> attempt.Some? && attempt.value.phase.Quarantined?
      ensures !pending ==> work.files in archives
    {
      pending := true;
      var fate := WriteCandidate(a, work);
      if !fate.Go? { return Broken(fate), pending; }
      if * {
        return Returned(Stop(false)), pending;
      }
      if * {
        return Threw(IoFailure), pending;
      }
      var failed: Option<WorkerFailure> := *;
      if failed.Some? {
        r, pending := EndUnmeasured(a, failed.value, limit, false);
        return;
      }
      r, pending := ArchiveAndEvaluate(a, limit);
    }

    /** A pass whose worker left nothing to measure. */
    method EndUnmeasured(a: Attempt, kind: WorkerFailure, limit: nat, archived: bool) returns (r: Ended<Next>, pending: bool)
      requires Inv() && Underway(a)
      modifies this`ledger, this`run, this`attempt, this`worktrees, this`live, this`rewound, this`archives
      ensures Inv()
      ensures Rest(ledger, a.experiment) == Rest(old(ledger), a.experiment) && ledger.next == old(ledger).next
      ensures a.experiment in ledger.experiments
      ensures r == Returned(Again) ==> attempt.None? && !ledger.experiments[a.experiment].Running?
      ensures r != Returned(Stop(true))
      ensures Finishable(r)
      ensures pending <==> a.candidate in worktrees
      ensures old(archives) <= archives && (!archived && !pending ==> old(worktrees)[a.candidate].files in archives)
      ensures archived ==> archives == old(archives)
      ensures r.Returned? ==> ledger == FailedLedger(old(ledger), a.experiment, kind, limit)
      ensures r == Threw(CandidateQuarantined) ==> attempt.Some? && attempt.value.phase.Quarantined?
      ensures archived ==> r != Threw(CandidateQuarantined)
    {
      r, pending := FailWorker(a, kind, limit, archived);
    }

    /** The candidate is archived and measured, and the verdict acted on. */
    method ArchiveAndEvaluate(a: Attempt, limit: nat) returns (r: Ended<Next>, pending: bool)
      requires Inv() && Underway(a)
      modifies this
      ensures Inv()
      ensures Rest(ledger, a.experiment) == Rest(old(ledger), a.experiment) && ledger.next == old(ledger).next
      ensures a.experiment in ledger.experiments
      ensures r == Returned(Again) ==> attempt.None? && !ledger.experiments[a.experiment].Running?
      ensures r == Returned(Stop(true)) ==> attempt.Some? && attempt.value.phase.PromotionPending? && metric == attempt.value.before
      ensures Finishable(r)
      ensures pending <==> a.candidate in worktrees
      ensures !pending ==> old(worktrees)[a.candidate].files in archives
      ensures r.Returned? && attempt.None? ==>
                Terminal(ledger.experiments[a.experiment]) || ledger == FailedLedger(old(ledger), a.experiment, Incomplete, limit)
      ensures r == Threw(CandidateQuarantined) ==> attempt.Some? && attempt.value.phase.Quarantined?
    {
      pending := true;
      var c := Archive();
      if c.Threw? { return Threw(c.failure), pending; }
      if c.Died? { return Died, pending; }
      r, pending := Evaluate(a, limit);
    }

    method Evaluate(a: Attempt, limit: nat) returns (r: Ended<Next>, pending: bool)
      requires Inv() && Underway(a)
      modifies this
      ensures Inv()
      ensures Rest(ledger, a.experiment) == Rest(old(ledger), a.experiment) && ledger.next == old(ledger).next
      ensures a.experiment in ledger.experiments
      ensures r == Returned(Again) ==> attempt.None? && !ledger.experiments[a.experiment].Running?
      ensures r == Returned(Stop(true)) ==> attempt.Some? && attempt.value.phase.PromotionPending? && metric == attempt.value.before
      ensures Finishable(r)
      ensures pending <==> a.candidate in worktrees
      ensures old(archives) <= archives
      ensures r.Returned? && attempt.None? ==>
                Terminal(ledger.experiments[a.experiment]) || ledger == FailedLedger(old(ledger), a.experiment, Incomplete, limit)
      ensures r != Threw(CandidateQuarantined)
    {
      pending := true;
      var m := Measure(a);
      match m {
        case Threw(e) => return Threw(e), pending;
        case Died => return Died, pending;
        case Returned(Unmeasured) =>
          r, pending := EndUnmeasured(a, Incomplete, limit, true);
        case Returned(Scored(verdict)) =>
          r, pending := Decide(a, verdict);
      }
    }

    method Decide(a: Attempt, verdict: Verdict) returns (r: Ended<Next>, pending: bool)
      requires Inv() && attempt == Some(a) && a.phase.PhaseRunning? && StatusIs(a.experiment, Running)
      requires a.candidate in worktrees && Recorded(rule, a, metric, verdict.Improved?)
      modifies this`ledger, this`metric, this`run, this`attempt, this`worktrees, this`live, this`rewound, this`landed, this`moved
      ensures Inv()
      ensures Rest(ledger, a.experiment) == Rest(old(ledger), a.experiment) && ledger.next == old(ledger).next
      ensures a.experiment in ledger.experiments
      ensures r == Returned(Again) ==> attempt.None? && !ledger.experiments[a.experiment].Running?
      ensures r == Returned(Stop(true)) ==> attempt.Some? && attempt.value.phase.PromotionPending? && metric == attempt.value.before
      ensures Finishable(r)
      ensures calm && old(worktrees[a.candidate]).files == old(worktrees[a.candidate]).head.tree ==>
                var waits := verdict.Improved? && old(worktrees[a.candidate]).files != a.base.tree && old(live) != Live(a.base, a.ref, a.fingerprint);
                && r.Returned? && (r == Returned(Stop(true)) <==> waits)
                && (!waits ==> StatusIs(a.experiment,
                                        if verdict.Improved? then Accepted(old(metric).latest, ChangedPaths(a.base.tree, old(worktrees[a.candidate]).files))
                                        else Rejected(old(metric).latest)))
      ensures pending <==> a.candidate in worktrees
      ensures r.Returned? && attempt.None? ==> Terminal(ledger.experiments[a.experiment])
      ensures r != Threw(CandidateQuarantined)
    {
      pending := true;
      var status := Rejected(metric.latest);
      if verdict.Improved? {
        var p := AcceptCandidate(a);
        match p {
          case Threw(e) => return Threw(e), pending;
          case Died => return Died, pending;
          case Returned(deferred) =>
            if deferred { return Returned(Stop(true)), pending; }
        }
        status := Accepted(attempt.value.promotion.value.score, attempt.value.promotion.value.paths);
      }
      r, pending := SettleAttempt(attempt.value, status);
    }

    // -------------------------------------------------------------- end of the loop

    /** Leaves no running attempt behind: a finished one is counted, any other is given up. */
    method Finalize() returns (r: Ended<()>)
      requires Inv() && Finishable(Returned(Stop(false)))
      modifies this`metric, this`ledger, this`run, this`attempt, this`worktrees, this`live, this`rewound
      ensures Inv()
      ensures ledger == old(ledger) || OnlyRunning(old(ledger), ledger, Invalid)
      ensures r.Returned? ==> attempt.None?
      ensures r.Returned? && old(attempt).Some? ==> Resolved(rule, Now(), old(attempt).value)
      ensures r.Returned? ==>
                if old(attempt).Some? && Terminal(StatusOf(old(ledger).experiments, old(attempt).value)) then ledger == old(ledger)
                else OnlyRunning(old(ledger), ledger, Invalid) && (old(attempt).Some? ==> Dropped(rule, Now(), old(attempt).value))
      ensures calm ==> (r.Returned? <==> old(attempt).None? || old(attempt).value.candidate in old(worktrees))
      ensures r.Threw? ==> r.failure == IoFailure
    {
      if attempt.None? {
        var fate := WriteReconciled(Invalid);
        return if fate.Go? then Returned(()) else Broken(fate);
      }
      if Terminal(StatusOf(ledger.experiments, attempt.value)) {
        r := FinalizeFinished(attempt.value);
      } else {
        r := FinalizeOpen(attempt.value);
      }
    }

    method FinalizeFinished(a: Attempt) returns (r: Ended<()>)
      requires Inv() && Finishable(Returned(Stop(false))) && attempt == Some(a) && Terminal(StatusOf(ledger.experiments, a))
      modifies this`run, this`attempt, this`worktrees, this`live, this`rewound
      ensures Inv()
      ensures r.Returned? ==> attempt.None? && Resolved(rule, Now(), a)
      ensures calm ==> (r.Returned? <==> a.candidate in old(worktrees))
      ensures r.Threw? ==> r.failure == IoFailure
    {
      var fate := WriteCounted(a);
      if !fate.Go? { return Broken(fate); }
      r := DropCandidate(a);
    }

    method FinalizeOpen(a: Attempt) returns (r: Ended<()>)
      requires Inv() && attempt == Some(a) && a.phase.PhaseRunning? && !Terminal(StatusOf(ledger.experiments, a))
      modifies this`metric, this`ledger, this`attempt, this`worktrees, this`live, this`rewound
      ensures Inv()
      ensures ledger == old(ledger) || OnlyRunning(old(ledger), ledger, Invalid)
      ensures r.Returned? ==> Dropped(rule, Now(), a) && OnlyRunning(old(ledger), ledger, Invalid)
      ensures calm ==> (r.Returned? <==> a.candidate in old(worktrees))
      ensures r.Threw? ==> r.failure == IoFailure
    {
      var fate := GiveUp(a);
      if !fate.Go? { return Broken(fate); }
      r := DropCandidate(a);
    }

    /** Without its candidate directory the identity check fails and the record stays. */
    method DropCandidate(a: Attempt) returns (r: Ended<()>)
      requires Inv() && attempt == Some(a) && !StatusOf(ledger.experiments, a).Running?
      requires Closable(Now().(worktrees := worktrees - {a.candidate}))
      modifies this`attempt, this`worktrees, this`live, this`rewound
      ensures Inv()
      ensures r.Returned? ==> attempt.None? && Resolved(rule, Now(), a)
      ensures metric == old(metric) && ledger == old(ledger) && run == old(run)
      ensures a.candidate !in old(worktrees) ==> r == Threw(IoFailure) && Now() == old(Now())
      ensures calm ==> (r.Returned? <==> a.candidate in old(worktrees))
      ensures r.Threw? ==> r.failure == IoFailure
    {
      if a.candidate !in worktrees {
        return Threw(IoFailure);
      }
      r := DiscardAndClear(a);
    }

    /** The metric is restored, and whatever still runs becomes invalid. */
    method GiveUp(a: Attempt) returns (fate: Fate)
      requires Inv() && attempt == Some(a) && a.phase.PhaseRunning? && !Terminal(StatusOf(ledger.experiments, a))
      modifies this`metric, this`ledger, this`live, this`rewound
      ensures Inv()
      ensures fate.Go? ==> metric == a.before
      ensures if fate.Go? then OnlyRunning(old(ledger), ledger, Invalid) else ledger == old(ledger)
      ensures calm ==> fate.Go?
    {
      fate := WriteMetric(a.before);
      if !fate.Go? { return; }
      fate := WriteReconciled(Invalid);
    }

    /** Rolls the candidate back after an interrupted pass; when that fails it is set aside. */
    method RollBack() returns (r: Ended<()>)
      requires Inv() && (attempt.Some? ==> attempt.value.phase.PhaseRunning?)
      modifies this`attempt, this`worktrees, this`live, this`rewound, this`archives
      ensures Inv()
      ensures r.Returned? ==> attempt == old(attempt) && ContentOf(old(attempt), old(worktrees)) <= archives
      ensures r.Returned? ==>
                worktrees == if attempt.Some? && attempt.value.candidate in old(worktrees)
                             then old(worktrees)[attempt.value.candidate := Worktree(attempt.value.base, attempt.value.base.tree)]
                             else old(worktrees)
      ensures attempt == old(attempt) || (old(attempt).Some? && attempt == Some(old(attempt).value.(phase := Quarantined)))
      ensures r.Threw? ==> r.failure == CandidateQuarantined || r.failure == IoFailure
      ensures r == Threw(CandidateQuarantined) && old(attempt).Some? ==> attempt == Some(old(attempt).value.(phase := Quarantined))
      ensures calm ==> r.Returned?
    {
      r := Archive();
      if r.Died? || r == Threw(CandidateQuarantined) { return; }
      if r.Returned? {
        var fate := Revert();
        if fate.Go? { return; }
        if fate.Dies? { return Died; }
      }
      if attempt.Some? {
        var fate := WriteQuarantined();
        if !fate.Go? { return Broken(fate); }
      }
      r := Threw(CandidateQuarantined);
    }

    /** The candidate goes back to the base, if there is one. */
    method Revert() returns (fate: Fate)
      requires Inv() && (attempt.Some? ==> attempt.value.phase.PhaseRunning?)
      modifies this`worktrees, this`live, this`rewound
      ensures Inv()
      ensures worktrees == if fate.Go? && attempt.Some? && attempt.value.candidate in old(worktrees)
                           then old(worktrees)[attempt.value.candidate := Worktree(attempt.value.base, attempt.value.base.tree)]
                           else old(worktrees)
      ensures calm ==> fate.Go?
    {
      if attempt.Some? && attempt.value.candidate in worktrees {
        fate := WriteCandidate(attempt.value, Worktree(attempt.value.base, attempt.value.base.tree));
      } else {
        fate := BeforeWrite();
      }
    }

    /** One process: recovery, any number of passes, and the clean-up on the way out.  Whatever is accepted,
        rejected or given up stays so, and each pass gives up one experiment at most. */
    method RunLoop(passes: nat, limit: nat) returns (r: Ended<()>)
      requires Inv()
      modifies this
      ensures Inv()
      ensures Lasting(old(ledger), ledger) && |GivenUp(old(ledger), ledger)| <= passes
    {
      ghost var start := ledger;
      var begun := BeginLoop();
      SpentSince(start, ledger, ledger);
      if !begun.Returned? { return begun; }
      ghost var entered := ledger;
      var it, pending := Passes(passes, limit);
      SpentSince(start, entered, ledger);
      ghost var left := ledger;
      if it.Died? { return Died; }
      r := LeaveLoop(it, pending);
      SpentByEnd(start, left, ledger);
    }

    /** What a process does before its first pass: running experiments are planned again, unless recovery
        finds that one was accepted. */
    method BeginLoop() returns (r: Ended<()>)
      requires Inv()
      modifies this
      ensures Inv() && Resumes(old(ledger), ledger)
      ensures r.Returned? ==> attempt.None? && NoneRunning(ledger)
      ensures old(calm) ==> (r.Returned? <==> old(Recoverable()))
    {
      var fate := ResetFailures();
      if !fate.Go? { return Broken(fate); }
      r := RecoverAndPlan();
    }

    method RecoverAndPlan() returns (r: Ended<()>)
      requires Inv()
      modifies this
      ensures Inv() && Resumes(old(ledger), ledger)
      ensures r.Returned? ==> attempt.None? && NoneRunning(ledger)
      ensures old(calm) ==> (r.Returned? <==> old(Recoverable()))
    {
      r := Recover();
      ghost var recovered := ledger;
      if !r.Returned? { return; }
      var fate := WriteReconciled(Planned);
      ResumedTwice(old(ledger), recovered, ledger);
      if !fate.Go? { return Broken(fate); }
    }

    /** A new process forgets the worker failures of the last one. */
    method ResetFailures() returns (fate: Fate)
      requires Inv()
      modifies this`ledger, this`run, this`live, this`rewound
      ensures Inv()
      ensures ledger.experiments == old(ledger).experiments && ledger.next == old(ledger).next
      ensures fate.Go? ==> ledger == old(ledger).(failures := 0) && run == if old(ledger).failures > 0 then old(run).(failures := 0) else old(run)
      ensures calm ==> fate.Go? && live == old(live)
    {
      fate := Go;
      if ledger.failures > 0 {
        fate := ForgetFailures();
      }
    }

    /** Any number of passes, of which each one touches a single experiment. */
    method Passes(passes: nat, limit: nat) returns (it: Ended<Next>, pending: bool)
      requires Inv() && attempt.None? && NoneRunning(ledger)
      modifies this
      ensures Inv() && it != Returned(Again)
      ensures Finishable(it)
      ensures Lasting(old(ledger), ledger) && |Spent(old(ledger), ledger)| <= passes
    {
      it, pending := Returned(Stop(false)), false;
      ghost var start := ledger;
      for i := 0 to passes
        invariant Inv() && attempt.None? && it == Returned(Stop(false)) && !pending
        invariant NoneRunning(ledger) && Lasting(start, ledger) && |Spent(start, ledger)| <= i
      {
        if * { return; }
        ghost var before, x := ledger, 0;
        it, pending, x := Iterate(limit);
        TouchesLasting(before, ledger, x);
        SpentByOne(start, before, ledger, x);
        if it != Returned(Again) { return; }
        it, pending := Returned(Stop(false)), false;
      }
    }

    /** A durable promotion without a terminal outcome. */
    predicate AwaitingDelivery()
      reads this
    {
      attempt.Some? && attempt.value.Promoting() && !Terminal(StatusOf(ledger.experiments, attempt.value))
    }

    /** Whether the attempt record has to survive the exit of the loop. */
    predicate Keeps(it: Ended<Next>)
      reads this
    {
      it == Returned(Stop(true)) || it == Threw(CandidateQuarantined) || (it.Threw? && AwaitingDelivery())
    }

    method KeepsRecord(it: Ended<Next>) returns (kept: bool)
      requires !it.Died? && Inv() && Finishable(it)
      ensures kept == Keeps(it)
      ensures !kept && attempt.Some? ==> Finishable(Returned(Stop(false))) && !attempt.value.phase.Quarantined?
      ensures AwaitingDelivery() ==> kept
    {
      match it {
        case Returned(next) => kept := next == Stop(true);
        case Threw(e) =>
          kept := e.CandidateQuarantined? || AwaitingDelivery();
      }
    }

    /** The loop ends: a record that has to survive does so untouched, anything else is rolled back if a candidate
        is `pending`, and finalized. */
    method LeaveLoop(it: Ended<Next>, pending: bool) returns (r: Ended<()>)
      requires Inv() && !it.Died? && Finishable(it)
      modifies this
      ensures Inv() && calm == old(calm)
      ensures old(AwaitingDelivery()) ==> Now() == old(Now())
      ensures old(Keeps(it)) ==> Now() == old(Now()) && if it.Threw? then r == Threw(it.failure) else r.Returned?
      ensures ledger == old(ledger) || OnlyRunning(old(ledger), ledger, Invalid)
      ensures calm && !old(Keeps(it)) && (old(attempt).Some? ==> old(attempt).value.candidate in old(worktrees)) ==>
                && attempt.None? && (old(attempt).Some? ==> Resolved(rule, Now(), old(attempt).value))
                && (if it.Threw? then r == Threw(it.failure) else r.Returned?)
                && (!Concluded(old(ledger), old(attempt)) ==>
                      NoneRunning(ledger) && (pending ==> ContentOf(old(attempt), old(worktrees)) <= archives))
    {
      var kept := KeepsRecord(it);
      r := Returned(());
      if !kept {
        r := CloseLoop(pending);
      }
      if r.Returned? && it.Threw? {
        r := Threw(it.failure);
      }
    }

    /** Rolls back a pending candidate without an outcome, and unless that fails finalizes the session. */
    method CloseLoop(pending: bool) returns (r: Ended<()>)
      requires Inv() && (attempt.Some? ==> Finishable(Returned(Stop(false))) && !attempt.value.phase.Quarantined?)
      requires !AwaitingDelivery()
      modifies this`metric, this`ledger, this`run, this`attempt, this`worktrees, this`live, this`rewound, this`archives
      ensures Inv()
      ensures ledger == old(ledger) || OnlyRunning(old(ledger), ledger, Invalid)
      ensures r.Returned? ==> attempt.None? && (old(attempt).Some? ==> Resolved(rule, Now(), old(attempt).value))
      ensures r.Returned? && !Concluded(old(ledger), old(attempt)) ==>
                NoneRunning(ledger) && (pending ==> ContentOf(old(attempt), old(worktrees)) <= archives)
      ensures calm && (old(attempt).Some? ==> old(attempt).value.candidate in old(worktrees)) ==> r.Returned?
    {
      r := Returned(());
      if pending && !(attempt.Some? && Terminal(StatusOf(ledger.experiments, attempt.value))) {
        r := RollBack();
        if !r.Returned? { return; }
      }
      r := Finalize();
    }

    /** Any number of processes, one after the other, dying wherever they like: iterations are counted
        exactly once, and unless the user takes the branch off its own history every accepted experiment
        with changes is contained in it. */
    method Lifetimes(n: nat, limit: nat)
      requires Inv()
      modifies this
      ensures Inv()
      ensures Lasting(old(ledger), ledger)
      ensures attempt.None? ==> run.iteration == |TerminalSet(ledger.experiments)|
      ensures !rewound ==> forall x :: x in ledger.experiments && HasChanges(ledger.experiments[x]) ==>
                x in landed && IsAncestor(landed[x], live.head)
    {
      for i := 0 to n
        invariant Inv() && Lasting(old(ledger), ledger)
      {
        Meanwhile();
        if * {
          var lost: nat := *;
          worktrees := worktrees - {lost};
        }
        calm := *;
        var passes: nat := *;
        var _ := RunLoop(passes, limit);
      }
      CountedOnce(rule, Now());
      if !rewound {
        forall x | x in ledger.experiments && HasChanges(ledger.experiments[x]) ensures x in landed && IsAncestor(landed[x], live.head) {
          AcceptedIsContained(rule, Now(), live.head, x);
        }
      }
    }
  }
}
