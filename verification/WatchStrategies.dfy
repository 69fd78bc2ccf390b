/**
 The strategy machine of the adoption watchdog: a cursor walks a fixed catalogue of recovery
 strategies, and every finished attempt becomes an entry of a bounded, hash-chained history
 over a base checkpoint.  A validator replays the history to decide whether a persisted state
 may be trusted.

 A SHA-256 digest is modelled as a constructor applied to the document it digests, so digests
 collide exactly when the documents are equal and no digest can contain itself.
 */
module WatchStrategies {
  import opened Basics

  datatype Outcome = Failed | Interrupted | Launched

  datatype Attempt = Attempt(
    epoch: int, strategy: string, seed: Digest, evidence: Digest,
    constraints: Digest, material: Digest, startedAt: int)

  /** A history entry without its own digest. */
  datatype EntryBody = EntryBody(
    attempt: Attempt, sequence: int, outcome: Outcome,
    signature: Option<string>, finishedAt: int, previous: Digest)

  datatype Entry = Entry(body: EntryBody, digest: Digest)

  /** A checkpoint without its own digest. */
  datatype CheckpointBody = CheckpointBody(
    epoch: int, cursor: int, seed: Digest, evidence: Digest, used: seq<Digest>,
    sequence: int, previous: Digest, launched: bool)

  datatype Checkpoint = Checkpoint(body: CheckpointBody, digest: Digest)

  datatype State = State(
    epoch: int, cursor: int, seed: Digest, base: Checkpoint,
    history: seq<Entry>, active: Option<Attempt>, digest: Digest)

  /** Why an epoch was opened; part of the digested seed. */
  datatype SeedCause =
    | FirstEpoch
    | AfterLaunch(prior: Digest)
    | AfterExhaustion(prior: Digest, receipt: Digest)

  datatype Digest =
    | Zero
    | External(name: string)
    | ConstraintsOf(strategy: string)
    | MaterialOf(strategy: string, evidence: Digest, constraints: Digest)
    | SeedOf(session: string, evidence: Digest, epoch: int, cause: SeedCause)
    | EntryOf(entry: EntryBody)
      // `stale` is the digest a checkpoint already carried when it was digested again.
    | CheckpointOf(checkpoint: CheckpointBody, stale: Option<Digest>)
    | StateOf(epoch: int, cursor: int, seed: Digest, base: Checkpoint, head: Digest, active: Option<Attempt>)
    | MarkerOf(epoch: int, seed: Digest, material: Digest, strategy: string,
               evidence: Digest, constraints: Digest, startedAt: int)

  datatype Config = Config(catalogue: seq<string>, bound: nat)

  /** The shipped catalogue and history bound. */
  const SHIPPED := Config(
    ["standard-adopt-launch", "authenticated-runtime-revalidation", "sealed-launch-transaction-reconstruction"], 64)

  datatype Error =
    | InitialCursorInvalid | RecoveryHeaderInvalid | NotLaunched | NotExhausted | EvidenceUnchanged
    | AlreadyActive | AlreadyLaunched | CatalogueExhausted | EvidenceUnrecorded | CursorInvalid
    | MaterialReused | NotActive | FollowsLaunch

  datatype Fault =
    | HeaderInvalid | BaseInvalid | BaseDigestInvalid | HistoryTooLong
    | EntryInvalid | MaterialRepeats | ChainInvalid
    | HeadMismatch | ActiveInvalid | ActiveRepeats | StateDigestInvalid

  // ---------------------------------------------------------------- sealing

  function SealCheckpoint(body: CheckpointBody, stale: Option<Digest>): Checkpoint {
    Checkpoint(body, CheckpointOf(body, stale))
  }

  function Head(base: Checkpoint, history: seq<Entry>): Digest {
    if history == [] then base.body.previous else history[|history| - 1].digest
  }

  function StateDigest(s: State): Digest {
    StateOf(s.epoch, s.cursor, s.seed, s.base, Head(s.base, s.history), s.active)
  }

  function Seal(s: State): State {
    s.(digest := StateDigest(s))
  }

  function StateLaunched(s: State): bool {
    if s.history == [] then s.base.body.launched else s.history[|s.history| - 1].body.outcome.Launched?
  }

  // ---------------------------------------------------------------- creating a state

  function Open(epoch: int, cursor: int, seed: Digest, evidence: Digest, used: seq<Digest>): State {
    Seal(State(epoch, cursor, seed,
               SealCheckpoint(CheckpointBody(epoch, cursor, seed, evidence, used, 0, Zero, false), None),
               [], None, Zero))
  }

  function Create(cfg: Config, session: string, evidence: Digest, cursor: int, used: seq<Digest>): Result<State, Error> {
    if cursor < 0 || cursor > |cfg.catalogue| then Err(InitialCursorInvalid)
    else Ok(Open(1, cursor, SeedOf(session, evidence, 1, FirstEpoch), evidence, used))
  }

  function CreateLedgerRecovery(cfg: Config, evidence: Digest, epoch: int, seed: Digest, cursor: int, used: seq<Digest>)
    : Result<State, Error>
  {
    if epoch < 1 || cursor < 0 || cursor > |cfg.catalogue| then Err(RecoveryHeaderInvalid)
    else Ok(Open(epoch, cursor, seed, evidence, used))
  }

  function CreateTerminalRecovery(session: string, evidence: Digest, prior: State, cursor: int, used: seq<Digest>)
    : Result<State, Error>
  {
    if !StateLaunched(prior) then Err(NotLaunched)
    else Ok(Open(prior.epoch + 1, cursor,
                 SeedOf(session, evidence, prior.epoch + 1, AfterLaunch(prior.digest)), evidence, used))
  }

  function CreateEvidenceRecovery(cfg: Config, session: string, evidence: Digest, prior: State, receipt: Digest,
                                  cursor: int, used: seq<Digest>): Result<State, Error>
  {
    if prior.cursor != |cfg.catalogue| || prior.active.Some? || StateLaunched(prior) then Err(NotExhausted)
    else if evidence == prior.base.body.evidence then Err(EvidenceUnchanged)
    else Ok(Open(prior.epoch + 1, cursor,
                 SeedOf(session, evidence, prior.epoch + 1, AfterExhaustion(prior.digest, receipt)), evidence, used))
  }

  // ---------------------------------------------------------------- attempts

  function MaterialHash(strategy: string, evidence: Digest): Digest {
    MaterialOf(strategy, evidence, ConstraintsOf(strategy))
  }

  /** The attempt that `Begin` publishes when it succeeds. */
  function AttemptAt(cfg: Config, s: State, startedAt: int): Attempt
    requires 0 <= s.cursor < |cfg.catalogue|
  {
    var id := cfg.catalogue[s.cursor];
    Attempt(s.epoch, id, s.seed, s.base.body.evidence, ConstraintsOf(id), MaterialHash(id, s.base.body.evidence), startedAt)
  }

  function Begin(cfg: Config, s: State, evidence: Digest, startedAt: int, prior: set<Digest>): Result<State, Error> {
    if s.active.Some? then Err(AlreadyActive)
    else if StateLaunched(s) then Err(AlreadyLaunched)
    else if s.cursor >= |cfg.catalogue| then Err(CatalogueExhausted)
    else if evidence != s.base.body.evidence then Err(EvidenceUnrecorded)
    else if s.cursor < 0 then Err(CursorInvalid)
    else
      var attempt := AttemptAt(cfg, s, startedAt);
      if attempt.material in prior || attempt.material in s.base.body.used
         || exists e <- s.history :: e.body.attempt.material == attempt.material then Err(MaterialReused)
      else Ok(Seal(s.(active := Some(attempt))))
  }

  /** One history entry folded into the checkpoint; the old digest is digested along with it. */
  function Advance(cfg: Config, c: Checkpoint, e: Entry): Result<Checkpoint, Error> {
    var used := c.body.used + [e.body.attempt.material];
    if e.body.outcome.Launched? then
      Ok(SealCheckpoint(c.body.(used := used, sequence := e.body.sequence, previous := e.digest, launched := true),
                        Some(c.digest)))
    else if c.body.launched then Err(FollowsLaunch)
    else
      Ok(SealCheckpoint(c.body.(cursor := Min(c.body.cursor + 1, |cfg.catalogue|), used := used,
                                sequence := e.body.sequence, previous := e.digest, launched := false),
                        Some(c.digest)))
  }

  function Fold(cfg: Config, c: Checkpoint, h: seq<Entry>): Result<Checkpoint, Error>
    decreases h
  {
    if h == [] then Ok(c)
    else
      var next := Advance(cfg, c, h[0]);
      if next.Err? then next else Fold(cfg, next.value, h[1..])
  }

  function NextEntry(s: State, outcome: Outcome, signature: Option<string>, finishedAt: int): Entry
    requires s.active.Some?
  {
    var last := if s.history == [] then 0 else s.history[|s.history| - 1].body.sequence;
    var body := EntryBody(s.active.value, (if last != 0 then last else s.base.body.sequence) + 1,
                          outcome, signature, finishedAt, Head(s.base, s.history));
    Entry(body, EntryOf(body))
  }

  /** What `Finish` computes: append the entry, fold whatever exceeds the bound into the base. */
  function Finished(cfg: Config, s: State, outcome: Outcome, signature: Option<string>, finishedAt: int)
    : Result<State, Error>
  {
    if s.active.None? then Err(NotActive)
    else
      var history := s.history + [NextEntry(s, outcome, signature, finishedAt)];
      var excess := if |history| > cfg.bound then |history| - cfg.bound else 0;
      var base := Fold(cfg, s.base, history[..excess]);
      if base.Err? then Err(base.error)
      else Ok(Closed(s, if outcome.Launched? then s.cursor else Min(s.cursor + 1, |cfg.catalogue|), base.value, history[excess..]))
  }

  /** The state without its attempt, sealed over the new base and history. */
  function Closed(s: State, cursor: int, base: Checkpoint, history: seq<Entry>): State {
    Seal(s.(cursor := cursor, base := base, history := history, active := None))
  }

  /** Folds the entries that are taken off the history, one by one. */
  method FoldRemoved(cfg: Config, start: Checkpoint, removed: seq<Entry>) returns (r: Result<Checkpoint, Error>)
    ensures r == Fold(cfg, start, removed)
  {
    var base := start;
    var i := 0;
    while i < |removed|
      invariant 0 <= i <= |removed|
      invariant Fold(cfg, start, removed) == Fold(cfg, base, removed[i..])
    {
      var next := Advance(cfg, base, removed[i]);
      if next.Err? {
        return Err(next.error);
      }
      base := next.value;
      assert removed[i..][1..] == removed[i + 1..];
      i := i + 1;
    }
    return Ok(base);
  }

  /** The number the next history entry has to carry. */
  function NextSequence(s: State): int {
    if s.history != [] && s.history[|s.history| - 1].body.sequence != 0 then s.history[|s.history| - 1].body.sequence + 1
    else s.base.body.sequence + 1
  }

  /** An entry for the active attempt with this outcome, linked to the head of `s` and sealed. */
  predicate Records(s: State, e: Entry, outcome: Outcome, signature: Option<string>, finishedAt: int)
    requires s.active.Some?
  {
    && e.body.attempt == s.active.value && e.body.outcome == outcome
    && e.body.signature == signature && e.body.finishedAt == finishedAt
    && e.body.sequence == NextSequence(s)
    && e.body.previous == (if s.history == [] then s.base.body.previous else s.history[|s.history| - 1].digest)
    && e.digest == EntryOf(e.body)
  }

  /** The history of `t` is that of `s` with such an entry at its end; what exceeds the bound is gone from the
      front, and only then the base has moved.  The cursor moves on unless this was a launch. */
  ghost predicate Appended(cfg: Config, s: State, t: State, outcome: Outcome, signature: Option<string>, finishedAt: int)
    requires s.active.Some?
  {
    && (exists e :: Records(s, e, outcome, signature, finishedAt) && EndsWith(cfg, s.history, t.history, e))
    && t.epoch == s.epoch && t.seed == s.seed && t.active.None?
    && (|s.history| < cfg.bound ==> t.base == s.base)
    && (outcome.Launched? ==> t.cursor == s.cursor)
    && (!outcome.Launched? && s.cursor < |cfg.catalogue| ==> t.cursor == s.cursor + 1)
  }

  /** `after` is the end of `before` and `e`, as much of it as the bound allows. */
  predicate EndsWith(cfg: Config, before: seq<Entry>, after: seq<Entry>, e: Entry) {
    if |before| < cfg.bound then after == before + [e]
    else |after| == cfg.bound && (after != [] ==> after == before[|before| + 1 - cfg.bound..] + [e])
  }

  lemma FinishedAppends(cfg: Config, s: State, outcome: Outcome, signature: Option<string>, finishedAt: int)
    requires Finished(cfg, s, outcome, signature, finishedAt).Ok?
    ensures Appended(cfg, s, Finished(cfg, s, outcome, signature, finishedAt).value, outcome, signature, finishedAt)
  {
    var e, t := NextEntry(s, outcome, signature, finishedAt), Finished(cfg, s, outcome, signature, finishedAt).value;
    EndOf(cfg, s.history, e);
    assert Records(s, e, outcome, signature, finishedAt);
  }

  lemma EndOf(cfg: Config, before: seq<Entry>, e: Entry)
    ensures var all := before + [e];
            EndsWith(cfg, before, all[if |all| > cfg.bound then |all| - cfg.bound else 0..], e)
  {
  }

  method Finish(cfg: Config, s: State, outcome: Outcome, signature: Option<string>, finishedAt: int)
    returns (r: Result<State, Error>)
    ensures r == Finished(cfg, s, outcome, signature, finishedAt)
    ensures r.Ok? ==> s.active.Some? && Appended(cfg, s, r.value, outcome, signature, finishedAt)
  {
    if s.active.None? {
      return Err(NotActive);
    }
    if Finished(cfg, s, outcome, signature, finishedAt).Ok? {
      FinishedAppends(cfg, s, outcome, signature, finishedAt);
    }
    var history := s.history + [NextEntry(s, outcome, signature, finishedAt)];
    var excess := if |history| > cfg.bound then |history| - cfg.bound else 0;
    var base := FoldRemoved(cfg, s.base, history[..excess]);
    if base.Err? {
      return Err(base.error);
    }
    var cursor := s.cursor;
    if !outcome.Launched? {
      cursor := Min(cursor + 1, |cfg.catalogue|);
    }
    return Ok(Closed(s, cursor, base.value, history[excess..]));
  }

  // ---------------------------------------------------------------- validation

  /** Where the replay of a history stands. */
  datatype Replayed = Replayed(semantic: Checkpoint, launched: bool, used: set<Digest>)

  function Start(base: Checkpoint): Replayed {
    Replayed(base, base.body.launched, ToSet(base.body.used))
  }

  predicate EntryAllowed(cfg: Config, r: Replayed, e: Entry) {
    var a, at := e.body.attempt, r.semantic.body;
    && !r.launched
    && e.body.sequence == at.sequence + 1
    && a.epoch == at.epoch
    && 0 <= at.cursor < |cfg.catalogue| && a.strategy == cfg.catalogue[at.cursor]
    && a.seed == at.seed
    && a.evidence == at.evidence
    && a.constraints == ConstraintsOf(a.strategy)
    && a.material == MaterialOf(a.strategy, a.evidence, a.constraints)
    && e.body.previous == at.previous
  }

  function ReplayOne(cfg: Config, r: Replayed, e: Entry): Result<Replayed, Fault> {
    if !EntryAllowed(cfg, r, e) then Err(EntryInvalid)
    else if e.body.attempt.material in r.used then Err(MaterialRepeats)
    else if e.digest != EntryOf(e.body) then Err(ChainInvalid)
    else
      var next := Advance(cfg, r.semantic, e);
      if next.Err? then Err(EntryInvalid)
      else Ok(Replayed(next.value, e.body.outcome.Launched?, r.used + {e.body.attempt.material}))
  }

  function Replay(cfg: Config, r: Replayed, h: seq<Entry>): Result<Replayed, Fault>
    decreases h
  {
    if h == [] then Ok(r)
    else
      var next := ReplayOne(cfg, r, h[0]);
      if next.Err? then next else Replay(cfg, next.value, h[1..])
  }

  predicate ActiveAllowed(cfg: Config, s: State, a: Attempt, evidence: Digest) {
    && a.epoch == s.epoch
    && 0 <= s.cursor < |cfg.catalogue| && a.strategy == cfg.catalogue[s.cursor]
    && a.seed == s.seed
    && a.evidence == evidence
    && a.constraints == ConstraintsOf(a.strategy)
    && a.material == MaterialHash(a.strategy, a.evidence)
  }

  /** The checks on the head of the state, once its history has been replayed to `r`. */
  function HeadFault(cfg: Config, s: State, r: Replayed): Option<Fault> {
    if s.epoch != r.semantic.body.epoch || s.cursor != r.semantic.body.cursor || s.seed != r.semantic.body.seed
    then Some(HeadMismatch)
    else if s.active.Some? && !ActiveAllowed(cfg, s, s.active.value, r.semantic.body.evidence) then Some(ActiveInvalid)
    else if s.active.Some? && (r.launched || s.active.value.material in r.used) then Some(ActiveRepeats)
    else if s.digest != StateDigest(s) then Some(StateDigestInvalid)
    else None
  }

  function BaseFault(cfg: Config, s: State): Option<Fault> {
    var b := s.base.body;
    if s.epoch < 1 || s.cursor < 0 || s.cursor > |cfg.catalogue| then Some(HeaderInvalid)
    else if b.epoch < 1 || b.cursor < 0 || b.cursor > |cfg.catalogue| || b.sequence < 0 || !Distinct(b.used)
    then Some(BaseInvalid)
    else if s.base.digest != CheckpointOf(b, None) then Some(BaseDigestInvalid)
    else if |s.history| > cfg.bound then Some(HistoryTooLong)
    else None
  }

  /** The first fault the validator reports, if any. */
  function FaultOf(cfg: Config, s: State): Option<Fault> {
    var early := BaseFault(cfg, s);
    if early.Some? then early
    else
      var r := Replay(cfg, Start(s.base), s.history);
      if r.Err? then Some(r.error) else HeadFault(cfg, s, r.value)
  }

  predicate Valid(cfg: Config, s: State) {
    FaultOf(cfg, s).None?
  }

  method Validate(cfg: Config, s: State) returns (fault: Option<Fault>)
    ensures fault == FaultOf(cfg, s)
  {
    var early := BaseFault(cfg, s);
    if early.Some? {
      return early;
    }
    var semantic, launched, used := s.base, s.base.body.launched, ToSet(s.base.body.used);
    var i := 0;
    while i < |s.history|
      invariant 0 <= i <= |s.history|
      invariant Replay(cfg, Start(s.base), s.history)
             == Replay(cfg, Replayed(semantic, launched, used), s.history[i..])
    {
      var e := s.history[i];
      assert s.history[i..][1..] == s.history[i + 1..];
      if !EntryAllowed(cfg, Replayed(semantic, launched, used), e) {
        return Some(EntryInvalid);
      }
      if e.body.attempt.material in used {
        return Some(MaterialRepeats);
      }
      used := used + {e.body.attempt.material};
      if e.digest != EntryOf(e.body) {
        return Some(ChainInvalid);
      }
      var next := Advance(cfg, semantic, e);
      if next.Err? {
        return Some(EntryInvalid);
      }
      semantic := next.value;
      launched := e.body.outcome.Launched?;
      i := i + 1;
    }
    return HeadFault(cfg, s, Replayed(semantic, launched, used));
  }

  // ---------------------------------------------------------------- the shape of a replayed history

  predicate Consistent(r: Replayed) {
    r.launched == r.semantic.body.launched && r.used == ToSet(r.semantic.body.used) && Distinct(r.semantic.body.used)
  }

  lemma ReplayOneShape(cfg: Config, r: Replayed, e: Entry)
    requires Consistent(r) && ReplayOne(cfg, r, e).Ok?
    ensures Consistent(ReplayOne(cfg, r, e).value)
  {
    var u := r.semantic.body.used;
    DistinctSnoc(u, e.body.attempt.material);
    assert ToSet(u + [e.body.attempt.material]) == ToSet(u) + {e.body.attempt.material};
  }

  /** Nesting depth of a digest along the `previous` links of history entries. */
  function Height(d: Digest): nat {
    match d
    case EntryOf(e) => 1 + Height(e.previous)
    case _ => 0
  }

  /**
   A replayed history has one entry per cursor step, plus one if it ends in a launch; it
   extends the sequence by its length, its last digest is the new chain head, and that digest
   nests the old head once per entry.
   */
  lemma {:induction false} ReplayShape(cfg: Config, r: Replayed, h: seq<Entry>)
    requires Consistent(r) && Replay(cfg, r, h).Ok?
    ensures var t := Replay(cfg, r, h).value;
            && Consistent(t)
            && t.semantic.body.sequence == r.semantic.body.sequence + |h|
            && |h| == t.semantic.body.cursor - r.semantic.body.cursor + (if h != [] && t.launched then 1 else 0)
            && t.semantic.body.previous == Head(r.semantic, h)
            && Height(t.semantic.body.previous) == Height(r.semantic.body.previous) + |h|
            && t.launched == (if h == [] then r.launched else h[|h| - 1].body.outcome.Launched?)
            && (h != [] ==> !r.launched && h[|h| - 1].body.sequence == t.semantic.body.sequence)
            && t.semantic.body.epoch == r.semantic.body.epoch
            && t.semantic.body.seed == r.semantic.body.seed
            && t.semantic.body.evidence == r.semantic.body.evidence
    decreases h
  {
    if h == [] {
    } else {
      var next := ReplayOne(cfg, r, h[0]).value;
      ReplayOneShape(cfg, r, h[0]);
      ReplayShape(cfg, next, h[1..]);
    }
  }

  /** Replaying uses up exactly the materials of the entries. */
  lemma {:induction false} ReplayUses(cfg: Config, r: Replayed, h: seq<Entry>)
    requires Replay(cfg, r, h).Ok?
    ensures Replay(cfg, r, h).value.used == r.used + (set e <- h :: e.body.attempt.material)
    decreases h
  {
    if h != [] {
      ReplayUses(cfg, ReplayOne(cfg, r, h[0]).value, h[1..]);
      assert (set e <- h :: e.body.attempt.material)
          == {h[0].body.attempt.material} + (set e <- h[1..] :: e.body.attempt.material);
    }
  }

  lemma {:induction false} ReplayConcat(cfg: Config, r: Replayed, h: seq<Entry>, k: seq<Entry>)
    requires Replay(cfg, r, h).Ok?
    ensures Replay(cfg, r, h + k) == Replay(cfg, Replay(cfg, r, h).value, k)
    decreases h
  {
    if h == [] {
      assert h + k == k;
    } else {
      assert (h + k)[1..] == h[1..] + k;
      ReplayConcat(cfg, ReplayOne(cfg, r, h[0]).value, h[1..], k);
    }
  }

  lemma ValidShape(cfg: Config, s: State)
    requires Valid(cfg, s)
    ensures StateLaunched(s) ==> s.active.None?
    ensures |s.history| == s.cursor - s.base.body.cursor + (if s.history != [] && StateLaunched(s) then 1 else 0)
    ensures |s.history| <= |cfg.catalogue|
    ensures s.active.Some? ==> |s.history| < |cfg.catalogue|
  {
    ReplayShape(cfg, Start(s.base), s.history);
    if s.history != [] {
      LastEntryBelowCatalogue(cfg, Start(s.base), s.history);
    }
  }

  lemma {:induction false} LastEntryBelowCatalogue(cfg: Config, r: Replayed, h: seq<Entry>)
    requires h != [] && Consistent(r) && Replay(cfg, r, h).Ok?
    ensures |h| <= |cfg.catalogue| - r.semantic.body.cursor
  {
    var front := h[..|h| - 1];
    assert h == front + [h[|h| - 1]];
    ReplayPrefix(cfg, r, front, [h[|h| - 1]]);
    ReplayConcat(cfg, r, front, [h[|h| - 1]]);
    ReplayShape(cfg, r, front);
    var t := Replay(cfg, r, front).value;
    assert ReplayOne(cfg, t, h[|h| - 1]).Ok?;
  }

  lemma {:induction false} ReplayPrefix(cfg: Config, r: Replayed, h: seq<Entry>, k: seq<Entry>)
    requires Replay(cfg, r, h + k).Ok?
    ensures Replay(cfg, r, h).Ok?
    decreases h
  {
    if h != [] {
      assert (h + k)[1..] == h[1..] + k;
      ReplayPrefix(cfg, ReplayOne(cfg, r, h[0]).value, h[1..], k);
    }
  }

  // ---------------------------------------------------------------- what the validator accepts

  /** Entry `i` is the attempt of the strategy that is `i` places behind the base, on the evidence of the base,
      sealed, numbered and linked, and only the last one may be a launch. */
  predicate EntryIs(cfg: Config, b: CheckpointBody, h: seq<Entry>, i: nat)
    requires i < |h|
  {
    var e := h[i].body;
    && 0 <= b.cursor + i < |cfg.catalogue|
    && var strategy := cfg.catalogue[b.cursor + i];
       && e.attempt == Attempt(b.epoch, strategy, b.seed, b.evidence, ConstraintsOf(strategy),
                               MaterialOf(strategy, b.evidence, ConstraintsOf(strategy)), e.attempt.startedAt)
       && e.sequence == b.sequence + i + 1
       && e.previous == (if i == 0 then b.previous else h[i - 1].digest)
       && h[i].digest == EntryOf(e)
       && (i < |h| - 1 ==> !e.outcome.Launched?)
  }

  /** The material of entry `i` was used neither before the base nor by an earlier entry. */
  predicate EntryIsNew(b: CheckpointBody, h: seq<Entry>, i: nat)
    requires i < |h|
  {
    h[i].body.attempt.material !in b.used
    && forall j :: 0 <= j < i ==> h[j].body.attempt.material != h[i].body.attempt.material
  }

  predicate ChainIs(cfg: Config, b: CheckpointBody, h: seq<Entry>) {
    && (h != [] ==> !b.launched)
    && (forall i: nat {:trigger EntryIs(cfg, b, h, i)} :: i < |h| ==> EntryIs(cfg, b, h, i))
    && (forall i: nat {:trigger EntryIsNew(b, h, i)} :: i < |h| ==> EntryIsNew(b, h, i))
  }

  lemma ChainSnoc(cfg: Config, b: CheckpointBody, h: seq<Entry>, e: Entry)
    requires ChainIs(cfg, b, h)
    ensures ChainIs(cfg, b, h + [e]) <==>
              && !b.launched && (h != [] ==> !h[|h| - 1].body.outcome.Launched?)
              && EntryIs(cfg, b, h + [e], |h|) && EntryIsNew(b, h + [e], |h|)
  {
    var k := h + [e];
    if h != [] && ChainIs(cfg, b, k) {
      assert EntryIs(cfg, b, k, |h| - 1);
    }
    if !b.launched && (h != [] ==> !h[|h| - 1].body.outcome.Launched?) && EntryIs(cfg, b, k, |h|) && EntryIsNew(b, k, |h|) {
      forall i: nat | i < |k| ensures EntryIs(cfg, b, k, i) && EntryIsNew(b, k, i) {
        if i < |h| {
          assert EntryIs(cfg, b, h, i) && EntryIsNew(b, h, i);
        }
      }
    }
  }

  lemma ChainPrefix(cfg: Config, b: CheckpointBody, h: seq<Entry>, e: Entry)
    requires ChainIs(cfg, b, h + [e])
    ensures ChainIs(cfg, b, h)
  {
    var k := h + [e];
    forall i: nat | i < |h| ensures EntryIs(cfg, b, h, i) && EntryIsNew(b, h, i) {
      assert EntryIs(cfg, b, k, i) && EntryIsNew(b, k, i);
      assert forall j :: 0 <= j < |h| ==> k[j] == h[j];
    }
  }

  /** The materials used after a replay. */
  lemma UsedIff(cfg: Config, base: Checkpoint, h: seq<Entry>, m: Digest)
    requires Replay(cfg, Start(base), h).Ok?
    ensures m in Replay(cfg, Start(base), h).value.used <==>
              m in base.body.used || exists j :: 0 <= j < |h| && h[j].body.attempt.material == m
  {
    ReplayUses(cfg, Start(base), h);
  }

  /** After a chain the replay takes exactly the entry that continues it. */
  lemma ReplayOneIff(cfg: Config, base: Checkpoint, h: seq<Entry>, e: Entry)
    requires 0 <= base.body.cursor <= |cfg.catalogue| && Distinct(base.body.used)
    requires Replay(cfg, Start(base), h).Ok? && ChainIs(cfg, base.body, h)
    ensures ReplayOne(cfg, Replay(cfg, Start(base), h).value, e).Ok? <==>
              && !base.body.launched && (h != [] ==> !h[|h| - 1].body.outcome.Launched?)
              && EntryIs(cfg, base.body, h + [e], |h|) && EntryIsNew(base.body, h + [e], |h|)
  {
    var t, k := Replay(cfg, Start(base), h).value, h + [e];
    ReplayShape(cfg, Start(base), h);
    UsedIff(cfg, base, h, e.body.attempt.material);
    assert forall j :: 0 <= j < |h| ==> k[j] == h[j];
    assert EntryIsNew(base.body, k, |h|) <==> e.body.attempt.material !in t.used;
    if !t.launched {
      AllowedIff(cfg, base.body, h, e, t);
    }
  }

  lemma AllowedIff(cfg: Config, b: CheckpointBody, h: seq<Entry>, e: Entry, t: Replayed)
    requires !t.launched && b.cursor >= 0 && t.semantic.body.cursor == b.cursor + |h| && t.semantic.body.sequence == b.sequence + |h|
    requires t.semantic.body.epoch == b.epoch && t.semantic.body.seed == b.seed && t.semantic.body.evidence == b.evidence
    requires t.semantic.body.previous == if h == [] then b.previous else h[|h| - 1].digest
    ensures EntryAllowed(cfg, t, e) && e.digest == EntryOf(e.body) <==> EntryIs(cfg, b, h + [e], |h|)
  {
  }

  /** A history replays exactly when it is such a chain. */
  lemma {:induction false} ReplaysIff(cfg: Config, base: Checkpoint, h: seq<Entry>)
    requires 0 <= base.body.cursor <= |cfg.catalogue| && Distinct(base.body.used)
    ensures Replay(cfg, Start(base), h).Ok? <==> ChainIs(cfg, base.body, h)
    decreases |h|
  {
    if h != [] {
      var front, e := h[..|h| - 1], h[|h| - 1];
      assert h == front + [e];
      ReplaysIff(cfg, base, front);
      if Replay(cfg, Start(base), h).Ok? {
        ReplayPrefix(cfg, Start(base), front, [e]);
      }
      if ChainIs(cfg, base.body, h) {
        ChainPrefix(cfg, base.body, front, e);
      }
      if Replay(cfg, Start(base), front).Ok? {
        ReplaySnoc(cfg, Start(base), front, e);
        ReplayOneIff(cfg, base, front, e);
        ChainSnoc(cfg, base.body, front, e);
      }
    }
  }

  /** The active attempt is that of the strategy at the cursor, on the evidence of the base, with a material
      that neither base nor history has used, and nothing was launched. */
  predicate ActiveIs(cfg: Config, s: State, a: Attempt) {
    && !StateLaunched(s)
    && 0 <= s.cursor < |cfg.catalogue|
    && var strategy, evidence := cfg.catalogue[s.cursor], s.base.body.evidence;
       && a == Attempt(s.epoch, strategy, s.seed, evidence, ConstraintsOf(strategy),
                       MaterialOf(strategy, evidence, ConstraintsOf(strategy)), a.startedAt)
       && a.material !in s.base.body.used && forall e :: e in s.history ==> e.body.attempt.material != a.material
  }

  /** Base, history, cursor, attempt and digest of a state that may be trusted, each described by itself. */
  predicate Trustworthy(cfg: Config, s: State) {
    var b := s.base.body;
    && s.epoch == b.epoch >= 1 && s.seed == b.seed
    && 0 <= b.cursor <= |cfg.catalogue| && b.sequence >= 0 && Distinct(b.used)
    && s.base.digest == CheckpointOf(b, None)
    && |s.history| <= cfg.bound && ChainIs(cfg, b, s.history)
    && s.cursor == b.cursor + |s.history| - (if s.history != [] && s.history[|s.history| - 1].body.outcome.Launched? then 1 else 0)
    && (s.active.Some? ==> ActiveIs(cfg, s, s.active.value))
    && s.digest == StateOf(s.epoch, s.cursor, s.seed, s.base,
                           if s.history == [] then b.previous else s.history[|s.history| - 1].digest, s.active)
  }

  /** The validator accepts exactly those states. */
  lemma ValidIff(cfg: Config, s: State)
    ensures Valid(cfg, s) <==> Trustworthy(cfg, s)
  {
    var b := s.base.body;
    if 0 <= b.cursor <= |cfg.catalogue| && Distinct(b.used) {
      ReplaysIff(cfg, s.base, s.history);
      if Replay(cfg, Start(s.base), s.history).Ok? {
        HeadIff(cfg, s);
      }
    }
  }

  /** What a fault of header and base says: every check before it passed, and this one failed. */
  lemma BaseFaultTells(cfg: Config, s: State)
    ensures var b := s.base.body;
            var header := s.epoch >= 1 && 0 <= s.cursor <= |cfg.catalogue|;
            var base := header && b.epoch >= 1 && 0 <= b.cursor <= |cfg.catalogue| && b.sequence >= 0 && Distinct(b.used);
            var sealed := base && s.base.digest == CheckpointOf(b, None);
            match BaseFault(cfg, s)
            case Some(HeaderInvalid) => !header
            case Some(BaseInvalid) => header && !base
            case Some(BaseDigestInvalid) => base && !sealed
            case Some(HistoryTooLong) => sealed && |s.history| > cfg.bound
            case None => sealed && |s.history| <= cfg.bound
            case _ => false
    ensures BaseFault(cfg, s).Some? ==> FaultOf(cfg, s) == BaseFault(cfg, s)
  {
  }

  /** What any other fault says. */
  lemma HistoryFaultTells(cfg: Config, s: State)
    requires BaseFault(cfg, s).None?
    ensures var b := s.base.body;
            match FaultOf(cfg, s)
            case Some(EntryInvalid) => !ChainIs(cfg, b, s.history)
            case Some(MaterialRepeats) => !ChainIs(cfg, b, s.history)
            case Some(ChainInvalid) => !ChainIs(cfg, b, s.history)
            case Some(HeadMismatch) =>
              ChainIs(cfg, b, s.history)
              && !(s.epoch == b.epoch && s.seed == b.seed
                   && s.cursor == b.cursor + |s.history|
                                  - (if s.history != [] && s.history[|s.history| - 1].body.outcome.Launched? then 1 else 0))
            case Some(ActiveInvalid) => ChainIs(cfg, b, s.history) && s.active.Some? && !ActiveIs(cfg, s, s.active.value)
            case Some(ActiveRepeats) => ChainIs(cfg, b, s.history) && s.active.Some? && !ActiveIs(cfg, s, s.active.value)
            case Some(StateDigestInvalid) => ChainIs(cfg, b, s.history) && s.digest != StateDigest(s)
            case Some(_) => false
            case None => true
  {
    ReplaysIff(cfg, s.base, s.history);
    if Replay(cfg, Start(s.base), s.history).Ok? {
      ReplayShape(cfg, Start(s.base), s.history);
      if s.active.Some? {
        ActiveIff(cfg, s, s.active.value, Replay(cfg, Start(s.base), s.history).value);
      }
    } else {
      EntryFault(cfg, Start(s.base), s.history);
    }
  }

  lemma {:induction false} EntryFault(cfg: Config, r: Replayed, h: seq<Entry>)
    requires Replay(cfg, r, h).Err?
    ensures Replay(cfg, r, h).error in {EntryInvalid, MaterialRepeats, ChainInvalid}
    decreases h
  {
    if h != [] && ReplayOne(cfg, r, h[0]).Ok? {
      EntryFault(cfg, ReplayOne(cfg, r, h[0]).value, h[1..]);
    }
  }

  lemma HeadIff(cfg: Config, s: State)
    requires 0 <= s.base.body.cursor <= |cfg.catalogue| && Distinct(s.base.body.used)
    requires Replay(cfg, Start(s.base), s.history).Ok? && ChainIs(cfg, s.base.body, s.history)
    ensures HeadFault(cfg, s, Replay(cfg, Start(s.base), s.history).value).None? <==>
              && s.epoch == s.base.body.epoch && s.seed == s.base.body.seed
              && s.cursor == s.base.body.cursor + |s.history|
                             - (if s.history != [] && s.history[|s.history| - 1].body.outcome.Launched? then 1 else 0)
              && (s.active.Some? ==> ActiveIs(cfg, s, s.active.value))
              && s.digest == StateDigest(s)
    ensures s.history != [] ==> s.base.body.cursor + |s.history| <= |cfg.catalogue|
  {
    var r := Replay(cfg, Start(s.base), s.history).value;
    ReplayShape(cfg, Start(s.base), s.history);
    if s.history != [] {
      assert EntryIs(cfg, s.base.body, s.history, |s.history| - 1);
    }
    if s.active.Some? {
      ActiveIff(cfg, s, s.active.value, r);
    }
    HeadMeets(cfg, s, r);
  }

  /** The checks on the head, for a replay that ended at a known place. */
  lemma HeadMeets(cfg: Config, s: State, r: Replayed)
    requires r.semantic.body.evidence == s.base.body.evidence
    requires s.active.Some? ==>
               (ActiveAllowed(cfg, s, s.active.value, s.base.body.evidence) && !r.launched && s.active.value.material !in r.used
                <==> ActiveIs(cfg, s, s.active.value))
    ensures HeadFault(cfg, s, r).None? <==>
              && s.epoch == r.semantic.body.epoch && s.seed == r.semantic.body.seed && s.cursor == r.semantic.body.cursor
              && (s.active.Some? ==> ActiveIs(cfg, s, s.active.value))
              && s.digest == StateDigest(s)
  {
  }

  lemma ActiveIff(cfg: Config, s: State, a: Attempt, r: Replayed)
    requires Replay(cfg, Start(s.base), s.history) == Ok(r) && r.launched == StateLaunched(s)
    ensures ActiveAllowed(cfg, s, a, s.base.body.evidence) && !r.launched && a.material !in r.used <==> ActiveIs(cfg, s, a)
  {
    UsedIff(cfg, s.base, s.history, a.material);
    assert (exists j :: 0 <= j < |s.history| && s.history[j].body.attempt.material == a.material)
      <==> exists e :: e in s.history && e.body.attempt.material == a.material;
  }

  // ---------------------------------------------------------------- what the operations keep

  /** A freshly opened state passes the validator iff its header is in range and its materials are distinct. */
  lemma OpenValidIff(cfg: Config, epoch: int, cursor: int, seed: Digest, evidence: Digest, used: seq<Digest>)
    ensures Valid(cfg, Open(epoch, cursor, seed, evidence, used))
       <==> epoch >= 1 && 0 <= cursor <= |cfg.catalogue| && Distinct(used)
  {
  }

  /** A new epoch: nothing but its seed, which tells what it followed, connects it to the state before. */
  predicate NewEpoch(session: string, evidence: Digest, prior: State, cursor: int, used: seq<Digest>, cause: SeedCause, t: State) {
    && t.epoch == prior.epoch + 1 && t.cursor == cursor && t.history == [] && t.active.None?
    && t.seed == SeedOf(session, evidence, t.epoch, cause)
    && t.base.body == CheckpointBody(t.epoch, cursor, t.seed, evidence, used, 0, Zero, false)
  }

  /** After a launch an epoch opens on any evidence; after an exhausted catalogue exactly on evidence other than
      the recorded one. */
  lemma RecoveriesOpen(cfg: Config, session: string, evidence: Digest, prior: State, receipt: Digest, cursor: int, used: seq<Digest>)
    ensures var r := CreateTerminalRecovery(session, evidence, prior, cursor, used);
            && (r.Ok? <==> StateLaunched(prior))
            && (r.Ok? ==> NewEpoch(session, evidence, prior, cursor, used, AfterLaunch(prior.digest), r.value))
            && (r.Err? ==> r.error == NotLaunched)
    ensures var r := CreateEvidenceRecovery(cfg, session, evidence, prior, receipt, cursor, used);
            && (r.Ok? <==> prior.cursor == |cfg.catalogue| && prior.active.None? && !StateLaunched(prior) && evidence != prior.base.body.evidence)
            && (r.Ok? ==> NewEpoch(session, evidence, prior, cursor, used, AfterExhaustion(prior.digest, receipt), r.value))
            && (r.Err? ==> r.error == if evidence == prior.base.body.evidence && prior.cursor == |cfg.catalogue| && prior.active.None? && !StateLaunched(prior)
                                      then EvidenceUnchanged else NotExhausted)
  {
  }

  /** A first epoch, and one rebuilt from the ledger. */
  lemma CreationsOpen(cfg: Config, session: string, evidence: Digest, epoch: int, seed: Digest, cursor: int, used: seq<Digest>)
    requires Distinct(used)
    ensures var r := Create(cfg, session, evidence, cursor, used);
            if 0 <= cursor <= |cfg.catalogue| then
              r.Ok? && Valid(cfg, r.value) && r.value.epoch == 1 && r.value.cursor == cursor && r.value.history == []
              && r.value.seed == SeedOf(session, evidence, 1, FirstEpoch) && r.value.base.body.evidence == evidence && r.value.base.body.used == used
            else r == Err(InitialCursorInvalid)
    ensures var r := CreateLedgerRecovery(cfg, evidence, epoch, seed, cursor, used);
            if epoch >= 1 && 0 <= cursor <= |cfg.catalogue| then
              r.Ok? && Valid(cfg, r.value) && r.value.epoch == epoch && r.value.cursor == cursor && r.value.history == []
              && r.value.seed == seed && r.value.base.body.evidence == evidence && r.value.base.body.used == used
            else r == Err(RecoveryHeaderInvalid)
  {
    OpenValidIff(cfg, epoch, cursor, seed, evidence, used);
    OpenValidIff(cfg, 1, cursor, SeedOf(session, evidence, 1, FirstEpoch), evidence, used);
  }

  /** The attempt that may begin is what the validator allows for an active one. */
  lemma BeginAllowed(cfg: Config, s: State, evidence: Digest, startedAt: int, prior: set<Digest>)
    requires Valid(cfg, s) && Begin(cfg, s, evidence, startedAt, prior).Ok?
    ensures var a, r := AttemptAt(cfg, s, startedAt), Replay(cfg, Start(s.base), s.history).value;
            && ActiveAllowed(cfg, s, a, r.semantic.body.evidence) && !r.launched
            && a.material !in r.used && a.material !in prior && a.evidence == evidence
  {
    ReplayShape(cfg, Start(s.base), s.history);
    ReplayUses(cfg, Start(s.base), s.history);
  }

  /** Beginning an attempt keeps validity and changes nothing but the attempt and the digest. */
  lemma BeginKeepsValid(cfg: Config, s: State, evidence: Digest, startedAt: int, prior: set<Digest>)
    requires Valid(cfg, s) && Begin(cfg, s, evidence, startedAt, prior).Ok?
    ensures var t := Begin(cfg, s, evidence, startedAt, prior).value;
            && Valid(cfg, t)
            && t == s.(active := t.active, digest := t.digest)
            && t.active == Some(AttemptAt(cfg, s, startedAt))
            && t.active.value.strategy == cfg.catalogue[s.cursor] && t.active.value.startedAt == startedAt
            && t.active.value.evidence == evidence
            && t.active.value.material !in prior
  {
    BeginAllowed(cfg, s, evidence, startedAt, prior);
    var t := Begin(cfg, s, evidence, startedAt, prior).value;
    assert t == Seal(s.(active := Some(AttemptAt(cfg, s, startedAt))));
    assert BaseFault(cfg, t).None?;
    assert HeadFault(cfg, t, Replay(cfg, Start(s.base), s.history).value).None?;
  }

  /** An attempt begins exactly when the validator would accept one for this evidence whose material was not
      used before; `prior` are materials used elsewhere. */
  lemma BeginsIff(cfg: Config, s: State, evidence: Digest, startedAt: int, prior: set<Digest>)
    requires Valid(cfg, s)
    ensures Begin(cfg, s, evidence, startedAt, prior).Ok? <==>
              s.active.None? && exists a: Attempt :: Acceptable(cfg, s, a, evidence, startedAt, prior)
  {
    if Begin(cfg, s, evidence, startedAt, prior).Ok? {
      BeginKeepsValid(cfg, s, evidence, startedAt, prior);
      assert Acceptable(cfg, s, AttemptAt(cfg, s, startedAt), evidence, startedAt, prior);
    }
    if a: Attempt :| s.active.None? && Acceptable(cfg, s, a, evidence, startedAt, prior) {
      AcceptableBegins(cfg, s, a, evidence, startedAt, prior);
    }
  }

  /** Why an attempt of a valid state does not begin. */
  lemma BeginErrors(cfg: Config, s: State, evidence: Digest, startedAt: int, prior: set<Digest>)
    requires Valid(cfg, s) && Begin(cfg, s, evidence, startedAt, prior).Err?
    ensures match Begin(cfg, s, evidence, startedAt, prior).error
            case AlreadyActive => s.active.Some?
            case AlreadyLaunched => s.active.None? && StateLaunched(s)
            case CatalogueExhausted => s.active.None? && !StateLaunched(s) && s.cursor == |cfg.catalogue|
            case EvidenceUnrecorded => s.active.None? && !StateLaunched(s) && s.cursor < |cfg.catalogue| && evidence != s.base.body.evidence
            case MaterialReused =>
              && s.active.None? && !StateLaunched(s) && s.cursor < |cfg.catalogue| && evidence == s.base.body.evidence
              && var m := MaterialOf(cfg.catalogue[s.cursor], evidence, ConstraintsOf(cfg.catalogue[s.cursor]));
                 m in prior || m in s.base.body.used || exists e :: e in s.history && e.body.attempt.material == m
            case _ => false
  {
  }

  predicate Acceptable(cfg: Config, s: State, a: Attempt, evidence: Digest, startedAt: int, prior: set<Digest>) {
    a.evidence == evidence && a.startedAt == startedAt && a.material !in prior && Valid(cfg, Seal(s.(active := Some(a))))
  }

  lemma AcceptableBegins(cfg: Config, s: State, a: Attempt, evidence: Digest, startedAt: int, prior: set<Digest>)
    requires Valid(cfg, s) && s.active.None? && Acceptable(cfg, s, a, evidence, startedAt, prior)
    ensures Begin(cfg, s, evidence, startedAt, prior) == Ok(Seal(s.(active := Some(a))))
  {
    var t := Seal(s.(active := Some(a)));
    ReplayShape(cfg, Start(s.base), s.history);
    ReplayUses(cfg, Start(s.base), s.history);
    var r := Replay(cfg, Start(s.base), s.history).value;
    assert HeadFault(cfg, t, r).None?;
    assert ActiveAllowed(cfg, t, a, r.semantic.body.evidence) && !r.launched && a.material !in r.used;
    assert a == AttemptAt(cfg, s, startedAt);
  }

  lemma ReplaySnoc(cfg: Config, r: Replayed, h: seq<Entry>, e: Entry)
    requires Replay(cfg, r, h).Ok?
    ensures Replay(cfg, r, h + [e]) == ReplayOne(cfg, Replay(cfg, r, h).value, e)
  {
    ReplayConcat(cfg, r, h, [e]);
    assert [e][1..] == [];
  }

  /** The entry `Finish` appends is the one the validator expects next. */
  lemma NextEntryReplays(cfg: Config, s: State, outcome: Outcome, signature: Option<string>, finishedAt: int)
    requires Valid(cfg, s) && s.active.Some?
    ensures var r := Replay(cfg, Start(s.base), s.history + [NextEntry(s, outcome, signature, finishedAt)]);
            && r.Ok?
            && r.value.semantic.body.cursor == s.cursor + (if outcome.Launched? then 0 else 1)
            && r.value.semantic.body.epoch == s.epoch && r.value.semantic.body.seed == s.seed
  {
    var e := NextEntry(s, outcome, signature, finishedAt);
    ReplayShape(cfg, Start(s.base), s.history);
    ReplaySnoc(cfg, Start(s.base), s.history, e);
    var t := Replay(cfg, Start(s.base), s.history).value;
    assert s.history == [] ==> t == Start(s.base);
    assert EntryAllowed(cfg, t, e);
  }

  lemma FinishWithRoom(cfg: Config, s: State, outcome: Outcome, signature: Option<string>, finishedAt: int)
    requires Valid(cfg, s) && s.active.Some? && |s.history| < cfg.bound
    ensures var r := Finished(cfg, s, outcome, signature, finishedAt);
            r.Ok? && Valid(cfg, r.value) && r.value.base == s.base
            && r.value.history == s.history + [NextEntry(s, outcome, signature, finishedAt)]
  {
    NextEntryReplays(cfg, s, outcome, signature, finishedAt);
    var history := s.history + [NextEntry(s, outcome, signature, finishedAt)];
    assert history[..0] == [] && history[0..] == history;
    var r := Finished(cfg, s, outcome, signature, finishedAt).value;
    ValidShape(cfg, s);
    assert r.cursor <= |cfg.catalogue|;
    assert BaseFault(cfg, r).None?;
    assert HeadFault(cfg, r, Replay(cfg, Start(r.base), r.history).value).None?;
  }

  lemma StaleBaseInvalid(cfg: Config, s: State)
    requires s.base.digest.CheckpointOf? && s.base.digest.stale.Some?
    ensures !Valid(cfg, s)
  {
  }

  lemma FinishWhenFull(cfg: Config, s: State, outcome: Outcome, signature: Option<string>, finishedAt: int)
    requires Valid(cfg, s) && s.active.Some? && |s.history| == cfg.bound
    ensures var r := Finished(cfg, s, outcome, signature, finishedAt);
            && r.Ok? && r.value.active.None? && !Valid(cfg, r.value)
            && r.value.cursor == s.cursor + (if outcome.Launched? then 0 else 1)
            && StateLaunched(r.value) == outcome.Launched?
  {
    FullFolds(cfg, s, outcome, signature, finishedAt);
    var r := Finished(cfg, s, outcome, signature, finishedAt);
    assert r.Ok?;
    StaleBaseInvalid(cfg, r.value);
  }

  /** On a full history one entry is folded into the base, with the old digest digested along. */
  lemma FullFolds(cfg: Config, s: State, outcome: Outcome, signature: Option<string>, finishedAt: int)
    requires Valid(cfg, s) && s.active.Some? && |s.history| == cfg.bound
    ensures var h := s.history + [NextEntry(s, outcome, signature, finishedAt)];
            var base := Fold(cfg, s.base, h[..1]);
            && base.Ok?
            && Finished(cfg, s, outcome, signature, finishedAt) ==
               Ok(Closed(s, if outcome.Launched? then s.cursor else s.cursor + 1, base.value, h[1..]))
            && base.value.digest == CheckpointOf(base.value.body, Some(s.base.digest))
            && base.value.body.launched == h[0].body.outcome.Launched?
  {
    var h := s.history + [NextEntry(s, outcome, signature, finishedAt)];
    NextEntryReplays(cfg, s, outcome, signature, finishedAt);
    FirstEntryFolds(cfg, s.base, h);
    assert h[..1] == [h[0]];
    CursorInside(cfg, s);
  }

  /** An attempt under way leaves room for the cursor. */
  lemma CursorInside(cfg: Config, s: State)
    requires Valid(cfg, s) && s.active.Some?
    ensures s.cursor < |cfg.catalogue|
  {
  }

  lemma FirstEntryFolds(cfg: Config, base: Checkpoint, h: seq<Entry>)
    requires h != [] && Replay(cfg, Start(base), h).Ok?
    ensures var r := Fold(cfg, base, [h[0]]);
            && r.Ok? && r.value.digest == CheckpointOf(r.value.body, Some(base.digest))
            && r.value.body.launched == h[0].body.outcome.Launched?
  {
    assert ReplayOne(cfg, Start(base), h[0]).Ok?;
    assert [h[0]][1..] == [];
  }

  /** Finishing an attempt of a valid state yields a valid state exactly when the history has room. */
  lemma FinishValidIff(cfg: Config, s: State, outcome: Outcome, signature: Option<string>, finishedAt: int)
    requires Valid(cfg, s) && s.active.Some?
    ensures var r := Finished(cfg, s, outcome, signature, finishedAt);
            && r.Ok?
            && (Valid(cfg, r.value) <==> |s.history| < cfg.bound)
            && r.value.active.None?
            && r.value.cursor == s.cursor + (if outcome.Launched? then 0 else 1)
            && StateLaunched(r.value) == outcome.Launched?
  {
    ReplayShape(cfg, Start(s.base), s.history);
    if |s.history| < cfg.bound {
      FinishWithRoom(cfg, s, outcome, signature, finishedAt);
    } else {
      FinishWhenFull(cfg, s, outcome, signature, finishedAt);
    }
  }
}
