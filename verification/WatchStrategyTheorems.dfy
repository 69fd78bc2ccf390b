/** Properties of the adoption-watch strategy machine over whole runs. */
module WatchStrategyTheorems {
  import opened Basics
  import opened WatchStrategies

  // ---------------------------------------------------------------- runs

  datatype Op =
    | BeginOp(evidence: Digest, startedAt: int, prior: set<Digest>)
    | FinishOp(outcome: Outcome, signature: Option<string>, finishedAt: int)

  function Do(cfg: Config, s: State, op: Op): Result<State, Error> {
    match op
    case BeginOp(evidence, startedAt, prior) => Begin(cfg, s, evidence, startedAt, prior)
    case FinishOp(outcome, signature, finishedAt) => Finished(cfg, s, outcome, signature, finishedAt)
  }

  function Run(cfg: Config, s: State, ops: seq<Op>): Result<State, Error>
    decreases ops
  {
    if ops == [] then Ok(s)
    else
      var next := Do(cfg, s, ops[0]);
      if next.Err? then next else Run(cfg, next.value, ops[1..])
  }

  /** Whatever a run of begins and finishes reaches from a fresh valid state still validates. */
  ghost predicate RunsStayValid(cfg: Config) {
    forall s, ops :: Valid(cfg, s) && s.history == [] && Run(cfg, s, ops).Ok? ==> Valid(cfg, Run(cfg, s, ops).value)
  }

  lemma {:induction false} RunKeepsValid(cfg: Config, s: State, ops: seq<Op>)
    requires Valid(cfg, s) && |cfg.catalogue| <= cfg.bound && Run(cfg, s, ops).Ok?
    ensures Valid(cfg, Run(cfg, s, ops).value)
    decreases ops
  {
    if ops != [] {
      StepKeepsValid(cfg, s, ops[0]);
      RunKeepsValid(cfg, Do(cfg, s, ops[0]).value, ops[1..]);
    }
  }

  lemma StepKeepsValid(cfg: Config, s: State, op: Op)
    requires Valid(cfg, s) && |cfg.catalogue| <= cfg.bound && Do(cfg, s, op).Ok?
    ensures Valid(cfg, Do(cfg, s, op).value)
  {
    match op
    case BeginOp(evidence, startedAt, prior) => BeginKeepsValid(cfg, s, evidence, startedAt, prior);
    case FinishOp(outcome, signature, finishedAt) =>
      ValidShape(cfg, s);
      FinishValidIff(cfg, s, outcome, signature, finishedAt);
  }

  /** What a history says about how its attempts ended. */
  datatype Ending = Ending(outcome: Outcome, signature: Option<string>, finishedAt: int)

  function Endings(h: seq<Entry>): seq<Ending> {
    seq(|h|, i requires 0 <= i < |h| => Ending(h[i].body.outcome, h[i].body.signature, h[i].body.finishedAt))
  }

  /** How the finishes of a run ended its attempts. */
  function Finishes(ops: seq<Op>): seq<Ending> {
    if ops == [] then [] else EndedBy(ops[0]) + Finishes(ops[1..])
  }

  function EndedBy(op: Op): seq<Ending> {
    if op.FinishOp? then [Ending(op.outcome, op.signature, op.finishedAt)] else []
  }

  /** While the catalogue fits in the bound, the history of a run tells every finish in order and as it was. */
  lemma {:induction false} RunRecordsFinishes(cfg: Config, s: State, ops: seq<Op>)
    requires Valid(cfg, s) && |cfg.catalogue| <= cfg.bound && Run(cfg, s, ops).Ok?
    ensures Endings(Run(cfg, s, ops).value.history) == Endings(s.history) + Finishes(ops)
    decreases ops
  {
    if ops != [] {
      var t := Do(cfg, s, ops[0]).value;
      StepKeepsValid(cfg, s, ops[0]);
      StepRecords(cfg, s, ops[0]);
      RunRecordsFinishes(cfg, t, ops[1..]);
      Regroup(Endings(s.history), EndedBy(ops[0]), Finishes(ops[1..]));
    }
  }

  lemma Regroup(a: seq<Ending>, b: seq<Ending>, c: seq<Ending>)
    ensures a + b + c == a + (b + c)
  {
  }

  lemma StepRecords(cfg: Config, s: State, op: Op)
    requires Valid(cfg, s) && |cfg.catalogue| <= cfg.bound && Do(cfg, s, op).Ok?
    ensures Endings(Do(cfg, s, op).value.history) == Endings(s.history) + EndedBy(op)
  {
    var t := Do(cfg, s, op).value;
    match op
    case BeginOp(evidence, startedAt, prior) =>
      assert t.history == s.history;
      assert Endings(s.history) + [] == Endings(s.history);
    case FinishOp(outcome, signature, finishedAt) =>
      ValidShape(cfg, s);
      FinishedAppends(cfg, s, outcome, signature, finishedAt);
      var e :| Records(s, e, outcome, signature, finishedAt) && EndsWith(cfg, s.history, t.history, e);
      EndingsSnoc(s.history, e);
  }

  lemma EndingsSnoc(h: seq<Entry>, e: Entry)
    ensures Endings(h + [e]) == Endings(h) + [Ending(e.body.outcome, e.body.signature, e.body.finishedAt)]
  {
  }

  function Failures(evidence: Digest, n: nat): seq<Op> {
    if n == 0 then [] else Failures(evidence, n - 1) + [BeginOp(evidence, 0, {}), FinishOp(Failed, None, 0)]
  }

  lemma {:induction false} RunConcat(cfg: Config, s: State, a: seq<Op>, b: seq<Op>)
    requires Run(cfg, s, a).Ok?
    ensures Run(cfg, s, a + b) == Run(cfg, Run(cfg, s, a).value, b)
    decreases a
  {
    if a == [] {
      assert a + b == b;
    } else {
      assert (a + b)[1..] == a[1..] + b;
      RunConcat(cfg, Do(cfg, s, a[0]).value, a[1..], b);
    }
  }

  /** A fresh state whose catalogue has not been touched. */
  function Fresh(evidence: Digest): State {
    Open(1, 0, Zero, evidence, [])
  }

  /** The state after `n` failed attempts: `n` entries, none folded, cursor at `n`. */
  ghost predicate AfterFailures(cfg: Config, evidence: Digest, s: State, n: nat) {
    && Valid(cfg, s) && s.active.None? && !StateLaunched(s)
    && s.base == Fresh(evidence).base && s.cursor == n && |s.history| == n
    && forall i :: 0 <= i < n ==> s.history[i].body.attempt.material == MaterialHash(cfg.catalogue[i], evidence)
  }

  lemma OneMoreBegin(cfg: Config, evidence: Digest, s: State, n: nat)
    requires Distinct(cfg.catalogue) && n < |cfg.catalogue| && AfterFailures(cfg, evidence, s, n)
    ensures Begin(cfg, s, evidence, 0, {}).Ok?
    ensures var t := Begin(cfg, s, evidence, 0, {}).value;
            && Valid(cfg, t) && t.active == Some(AttemptAt(cfg, s, 0))
            && t.history == s.history && t.base == s.base && t.cursor == s.cursor
  {
    forall e | e in s.history ensures e.body.attempt.material != AttemptAt(cfg, s, 0).material {
      var i :| 0 <= i < n && e == s.history[i];
      assert cfg.catalogue[i] != cfg.catalogue[n];
    }
    BeginKeepsValid(cfg, s, evidence, 0, {});
  }

  lemma FailOnce(cfg: Config, evidence: Digest, s: State, n: nat)
    requires Distinct(cfg.catalogue) && n < |cfg.catalogue| && n < cfg.bound && AfterFailures(cfg, evidence, s, n)
    ensures var b := Begin(cfg, s, evidence, 0, {});
            && b.Ok?
            && var f := Finished(cfg, b.value, Failed, None, 0);
            f.Ok? && AfterFailures(cfg, evidence, f.value, n + 1)
  {
    OneMoreBegin(cfg, evidence, s, n);
    var t := Begin(cfg, s, evidence, 0, {}).value;
    FinishValidIff(cfg, t, Failed, None, 0);
    FinishWithRoom(cfg, t, Failed, None, 0);
    assert NextEntry(t, Failed, None, 0).body.attempt == AttemptAt(cfg, s, 0);
  }

  lemma {:induction false} FailuresReach(cfg: Config, evidence: Digest, n: nat)
    requires Distinct(cfg.catalogue) && n <= |cfg.catalogue| && n <= cfg.bound
    ensures Run(cfg, Fresh(evidence), Failures(evidence, n)).Ok?
    ensures AfterFailures(cfg, evidence, Run(cfg, Fresh(evidence), Failures(evidence, n)).value, n)
  {
    if n == 0 {
      OpenValidIff(cfg, 1, 0, Zero, evidence, []);
    } else {
      FailuresReach(cfg, evidence, n - 1);
      var s := Run(cfg, Fresh(evidence), Failures(evidence, n - 1)).value;
      FailOnce(cfg, evidence, s, n - 1);
      RunConcat(cfg, Fresh(evidence), Failures(evidence, n - 1), [BeginOp(evidence, 0, {}), FinishOp(Failed, None, 0)]);
      RunPair(cfg, s, BeginOp(evidence, 0, {}), FinishOp(Failed, None, 0));
    }
  }

  lemma RunPair(cfg: Config, s: State, a: Op, b: Op)
    requires Do(cfg, s, a).Ok?
    ensures Run(cfg, s, [a, b]) == Do(cfg, Do(cfg, s, a).value, b)
  {
    assert [a, b][1..] == [b];
    var s' := Do(cfg, s, a).value;
    assert [b][1..] == [];
    assert Run(cfg, s', [b]) == Do(cfg, s', b);
  }

  lemma LongCatalogueBreaks(cfg: Config, evidence: Digest)
    requires Distinct(cfg.catalogue) && |cfg.catalogue| > cfg.bound
    ensures var r := Run(cfg, Fresh(evidence), Failures(evidence, cfg.bound + 1));
            r.Ok? && !Valid(cfg, r.value)
  {
    var n := cfg.bound;
    FailuresReach(cfg, evidence, n);
    var s := Run(cfg, Fresh(evidence), Failures(evidence, n)).value;
    OneMoreBegin(cfg, evidence, s, n);
    FinishValidIff(cfg, Begin(cfg, s, evidence, 0, {}).value, Failed, None, 0);
    RunConcat(cfg, Fresh(evidence), Failures(evidence, n), [BeginOp(evidence, 0, {}), FinishOp(Failed, None, 0)]);
    RunPair(cfg, s, BeginOp(evidence, 0, {}), FinishOp(Failed, None, 0));
  }

  /**
   Every reachable state validates exactly when the catalogue fits in the history bound: with a
   longer catalogue the first compaction digests the base checkpoint together with its old
   digest, which the validator strips before it compares.
   */
  lemma ReachableValidIff(cfg: Config)
    requires Distinct(cfg.catalogue)
    ensures RunsStayValid(cfg) <==> |cfg.catalogue| <= cfg.bound
  {
    if |cfg.catalogue| <= cfg.bound {
      forall s, ops | Valid(cfg, s) && s.history == [] && Run(cfg, s, ops).Ok?
        ensures Valid(cfg, Run(cfg, s, ops).value)
      {
        RunKeepsValid(cfg, s, ops);
      }
    } else {
      LongCatalogueBreaks(cfg, Zero);
      OpenValidIff(cfg, 1, 0, Zero, Zero, []);
    }
  }

  /** The shipped catalogue never reaches compaction: histories stay far below the bound. */
  lemma ShippedHistoryShort(s: State, ops: seq<Op>)
    requires Valid(SHIPPED, s) && s.history == [] && Run(SHIPPED, s, ops).Ok?
    ensures var t := Run(SHIPPED, s, ops).value;
            && Valid(SHIPPED, t)
            && |t.history| == t.cursor - t.base.body.cursor + (if t.history != [] && StateLaunched(t) then 1 else 0)
            && |t.history| <= 3
  {
    RunKeepsValid(SHIPPED, s, ops);
    ValidShape(SHIPPED, Run(SHIPPED, s, ops).value);
  }

  // ---------------------------------------------------------------- tamper evidence

  lemma SameHeadSameLength(cfg: Config, r: Replayed, h: seq<Entry>, k: seq<Entry>)
    requires Consistent(r) && Replay(cfg, r, h).Ok? && Replay(cfg, r, k).Ok?
    requires Head(r.semantic, h) == Head(r.semantic, k)
    ensures |h| == |k|
  {
    ReplayShape(cfg, r, h);
    ReplayShape(cfg, r, k);
  }

  /** Two replayed chains over the same base that end in the same head are the same chain. */
  lemma {:induction false} SameHeadSameHistory(cfg: Config, r: Replayed, h: seq<Entry>, k: seq<Entry>)
    requires Consistent(r) && Replay(cfg, r, h).Ok? && Replay(cfg, r, k).Ok?
    requires Head(r.semantic, h) == Head(r.semantic, k)
    ensures h == k
    decreases |h|
  {
    SameHeadSameLength(cfg, r, h, k);
    if h != [] {
      SameHeadBefore(cfg, r, h, k);
      SameHeadSameHistory(cfg, r, h[..|h| - 1], k[..|k| - 1]);
      assert h == h[..|h| - 1] + [h[|h| - 1]] && k == k[..|k| - 1] + [k[|k| - 1]];
    }
  }

  /** Chains that end in the same head end in the same entry, and did so one entry before. */
  lemma {:induction false} SameHeadBefore(cfg: Config, r: Replayed, h: seq<Entry>, k: seq<Entry>)
    requires Consistent(r) && Replay(cfg, r, h).Ok? && Replay(cfg, r, k).Ok? && h != [] && k != []
    requires Head(r.semantic, h) == Head(r.semantic, k)
    ensures h[|h| - 1] == k[|k| - 1]
    ensures Replay(cfg, r, h[..|h| - 1]).Ok? && Replay(cfg, r, k[..|k| - 1]).Ok?
    ensures Head(r.semantic, h[..|h| - 1]) == Head(r.semantic, k[..|k| - 1])
  {
    LastEntryLinks(cfg, r, h);
    LastEntryLinks(cfg, r, k);
  }

  lemma LastEntryLinks(cfg: Config, r: Replayed, h: seq<Entry>)
    requires Consistent(r) && Replay(cfg, r, h).Ok? && h != []
    ensures Replay(cfg, r, h[..|h| - 1]).Ok?
    ensures h[|h| - 1].digest == EntryOf(h[|h| - 1].body) && h[|h| - 1].body.previous == Head(r.semantic, h[..|h| - 1])
  {
    assert h == h[..|h| - 1] + [h[|h| - 1]];
    LastLink(cfg, r, h[..|h| - 1], h[|h| - 1]);
  }

  /** The last entry of a replayed chain digests itself and points at the head before it. */
  lemma LastLink(cfg: Config, r: Replayed, h: seq<Entry>, e: Entry)
    requires Consistent(r) && Replay(cfg, r, h + [e]).Ok?
    ensures Replay(cfg, r, h).Ok? && e.digest == EntryOf(e.body) && e.body.previous == Head(r.semantic, h)
  {
    ReplayPrefix(cfg, r, h, [e]);
    ReplaySnoc(cfg, r, h, e);
    ReplayShape(cfg, r, h);
  }

  /** The state digest seals everything: base, the whole history, cursor and active attempt. */
  lemma TamperEvident(cfg: Config, s: State, t: State)
    requires Valid(cfg, s) && Valid(cfg, t) && s.digest == t.digest
    ensures s == t
  {
    SameHeadSameHistory(cfg, Start(s.base), s.history, t.history);
  }

  // ---------------------------------------------------------------- compaction

  /** Folding a prefix into the base leaves the replay of the rest exactly where it was. */
  lemma {:induction false} CompactionKeepsReplay(cfg: Config, base: Checkpoint, h: seq<Entry>, k: nat)
    requires k <= |h| && Distinct(base.body.used) && Replay(cfg, Start(base), h).Ok?
    ensures Fold(cfg, base, h[..k]).Ok?
    ensures Replay(cfg, Start(Fold(cfg, base, h[..k]).value), h[k..]) == Replay(cfg, Start(base), h)
    decreases k
  {
    if k == 0 {
      assert h[..0] == [] && h[0..] == h;
    } else {
      var next := Advance(cfg, base, h[0]).value;
      ReplayOneShape(cfg, Start(base), h[0]);
      assert ReplayOne(cfg, Start(base), h[0]) == Ok(Start(next));
      assert h[..k][1..] == h[1..][..k - 1] && h[k..] == h[1..][k - 1..];
      CompactionKeepsReplay(cfg, next, h[1..], k - 1);
    }
  }

  /** What a folded history leaves in the base: its materials behind the ones used before, its last number and
      digest, and whether it launched; the cursor moves with every entry that did not. */
  lemma {:induction false} FoldTells(cfg: Config, base: Checkpoint, h: seq<Entry>)
    requires h != [] && Fold(cfg, base, h).Ok?
    ensures var c, last := Fold(cfg, base, h).value.body, h[|h| - 1];
            && c.used == base.body.used + seq(|h|, i requires 0 <= i < |h| => h[i].body.attempt.material)
            && c.sequence == last.body.sequence && c.previous == last.digest && c.launched == last.body.outcome.Launched?
            && c.epoch == base.body.epoch && c.seed == base.body.seed && c.evidence == base.body.evidence
    decreases h
  {
    var next := Advance(cfg, base, h[0]).value;
    var all := seq(|h|, i requires 0 <= i < |h| => h[i].body.attempt.material);
    if |h| > 1 {
      FoldTells(cfg, next, h[1..]);
      var rest := seq(|h| - 1, i requires 0 <= i < |h| - 1 => h[1..][i].body.attempt.material);
      assert all == [all[0]] + rest;
      assert base.body.used + [all[0]] + rest == base.body.used + ([all[0]] + rest);
    } else {
      assert h[1..] == [];
      assert all == [all[0]];
    }
  }

  /** ... and yet a non-empty fold never reproduces the digest the validator recomputes. */
  lemma {:induction false} CompactionBreaksDigest(cfg: Config, base: Checkpoint, h: seq<Entry>)
    requires h != [] && Fold(cfg, base, h).Ok?
    ensures var c := Fold(cfg, base, h).value; c.digest != CheckpointOf(c.body, None)
    decreases h
  {
    var next := Advance(cfg, base, h[0]).value;
    if |h| > 1 {
      CompactionBreaksDigest(cfg, next, h[1..]);
    }
  }
}
