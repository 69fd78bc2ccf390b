/**
 A measured improvement whose candidate commit changes no file: the promotion has nothing to bring to the
 live branch, the experiment is accepted all the same, and its commit is nowhere in the live history.
 */
module EmptyCandidate {
  import opened Basics
  import opened Microverse
  import opened MicroverseSession

  // ---------------------------------------------------------------- the writes of one pass

  /** The durable writes of a pass that measures an improvement and accepts it, in the order of the loop.
      `Work` is what the worker leaves in its candidate. */
  datatype Write =
    | Plan
    | Start(x: nat)
    | CreateCandidate(candidate: nat)
    | RecordAttempt(x: nat, candidate: nat)
    | Work(worktree: Worktree)
    | RecordImprovement(score: int)
    | Normalize(tag: int)
    | RecordPending
    | RecordPromoted
    | CompleteAccepted
    | Discard
    | Count
    | Clear

  predicate NothingPlanned(l: Ledger) {
    forall x :: x in l.experiments ==> !l.experiments[x].Planned?
  }

  predicate IsRunning(s: Stores, x: nat) {
    x in s.ledger.experiments && s.ledger.experiments[x].Running?
  }

  /** The attempt under way in this phase, with its candidate in place. */
  predicate InPhase(s: Stores, phase: Phase) {
    && s.attempt.Some? && s.attempt.value.phase == phase
    && s.attempt.value.candidate in s.worktrees && IsRunning(s, s.attempt.value.experiment)
  }

  /** The guard under which the loop makes the write, with the live checkout standing at `live`. */
  predicate Makes(rule: Rule, live: Live, s: Stores, w: Write) {
    match w
    case Plan => s.attempt.None? && NothingPlanned(s.ledger)
    case Start(x) => s.attempt.None? && x in s.ledger.experiments && s.ledger.experiments[x].Planned?
    case CreateCandidate(c) => s.attempt.None? && c !in s.worktrees
    case RecordAttempt(x, c) =>
      s.attempt.None? && IsRunning(s, x) && c in s.worktrees && s.worktrees[c] == Worktree(live.head, live.head.tree)
    case Work(_) => InPhase(s, PhaseRunning) && s.metric == s.attempt.value.before
    case RecordImprovement(score) =>
      && InPhase(s, PhaseRunning) && s.metric == s.attempt.value.before
      && var a := s.attempt.value;
         && s.worktrees[a.candidate].files == s.worktrees[a.candidate].head.tree
         && Judge(rule, s.worktrees[a.candidate], a, score).Improved?
    case Normalize(_) =>
      && InPhase(s, PhaseRunning) && Recorded(rule, s.attempt.value, s.metric, true)
      && var v := s.worktrees[s.attempt.value.candidate]; v.files == v.head.tree
    case RecordPending =>
      && InPhase(s, PhaseRunning) && Recorded(rule, s.attempt.value, s.metric, true)
      && var v, a := s.worktrees[s.attempt.value.candidate], s.attempt.value;
         v == Worktree(v.head, v.head.tree) && v.head.Child? && v.head.parent == a.base
      // The promotion lists no changed path and returns before it looks at the live checkout.
    case RecordPromoted =>
      InPhase(s, PromotionPending) && ListChanged(s.attempt.value.base, s.worktrees[s.attempt.value.candidate]) == {}
    case CompleteAccepted => InPhase(s, Promoted) && s.attempt.value.promotion.Some? && s.metric == s.attempt.value.promotion.value.after
    case Discard => s.attempt.Some? && Terminal(StatusOf(s.ledger.experiments, s.attempt.value))
    case Count =>
      s.attempt.Some? && Terminal(StatusOf(s.ledger.experiments, s.attempt.value)) && s.attempt.value.candidate !in s.worktrees
    case Clear => Closable(s)
  }

  /** What the write leaves. */
  function Leaves(rule: Rule, live: Live, s: Stores, w: Write): Stores
    requires Makes(rule, live, s, w)
  {
    match w
    case Plan => s.(ledger := SetStatus(s.ledger, s.ledger.next, Planned).(next := s.ledger.next + 1))
    case Start(x) => s.(ledger := SetStatus(s.ledger, x, Running))
    case CreateCandidate(c) => s.(worktrees := s.worktrees[c := Worktree(live.head, live.head.tree)])
    case RecordAttempt(x, c) => s.(attempt := Some(FirstRecord(s.run, s.metric, x, c, live)))
    case Work(v) => s.(worktrees := s.worktrees[s.attempt.value.candidate := v])
    case RecordImprovement(score) =>
      var a := s.attempt.value;
      s.(metric := MeasuredMetric(a, s.metric, s.worktrees[a.candidate], score, Improved))
    case Normalize(tag) =>
      var a := s.attempt.value;
      var files := s.worktrees[a.candidate].files;
      s.(worktrees := s.worktrees[a.candidate := Worktree(Child(a.base, files, tag), files)])
    case RecordPending =>
      s.(attempt := Some(PendingRecord(s.attempt.value, s.metric, s.worktrees[s.attempt.value.candidate].head)))
    case RecordPromoted => s.(attempt := Some(s.attempt.value.(phase := Promoted)))
    case CompleteAccepted =>
      var a := s.attempt.value;
      s.(ledger := Complete(s.ledger, a.experiment, Accepted(a.promotion.value.score, a.promotion.value.paths)))
    case Discard => s.(worktrees := s.worktrees - {s.attempt.value.candidate})
    case Count => s.(run := RunState(s.run.iteration + 1, s.ledger.stall, s.ledger.failures))
    case Clear => s.(attempt := None)
  }

  /** The writes lead from `s` to `t`, each one made under its guard and keeping the invariant. */
  ghost predicate Leads(rule: Rule, live: Live, s: Stores, writes: seq<Write>, t: Stores) {
    && Coherent(rule, t)
    && if writes == [] then t == s
       else
         var init := writes[..|writes| - 1];
         exists u {:trigger Leads(rule, live, s, init, u)} :: Leads(rule, live, s, init, u) && Then(rule, live, u, writes[|writes| - 1], t)
  }

  /** The write is made in `u` and leaves `t`. */
  predicate Then(rule: Rule, live: Live, u: Stores, w: Write, t: Stores) {
    Makes(rule, live, u, w) && t == Leaves(rule, live, u, w)
  }

  lemma LeadsOn(rule: Rule, live: Live, s: Stores, writes: seq<Write>, u: Stores, w: Write)
    requires Leads(rule, live, s, writes, u) && Makes(rule, live, u, w) && Coherent(rule, Leaves(rule, live, u, w))
    ensures Leads(rule, live, s, writes + [w], Leaves(rule, live, u, w))
  {
    var longer := writes + [w];
    assert longer[..|longer| - 1] == writes && longer[|longer| - 1] == w;
    assert Then(rule, live, u, w, Leaves(rule, live, u, w));
  }

  // ---------------------------------------------------------------- the run

  /** The commit of the candidate: another commit with the tree of the base. */
  function EmptyCommit(base: Commit, tag: int): Commit {
    Child(base, base.tree, tag)
  }

  /** A score that beats the best one by more than the tolerance. */
  function Better(rule: Rule, best: int): int {
    if rule.higher then best + rule.tolerance + 1 else best - rule.tolerance - 1
  }

  /** A planned experiment is started, or else a new one is planned first. */
  lemma Starts(rule: Rule, live: Live, s: Stores) returns (x: nat, writes: seq<Write>, t: Stores)
    requires Coherent(rule, s) && s.attempt.None?
    ensures Leads(rule, live, s, writes, t) && t == s.(ledger := t.ledger) && IsRunning(t, x)
    ensures x in s.ledger.experiments ==> s.ledger.experiments[x].Planned?
  {
    var u;
    x, writes, u := Plans(rule, live, s);
    QuietLedger(rule, u, SetStatus(u.ledger, x, Running));
    LeadsOn(rule, live, s, writes, u, Start(x));
    writes, t := writes + [Start(x)], Leaves(rule, live, u, Start(x));
  }

  lemma Plans(rule: Rule, live: Live, s: Stores) returns (x: nat, writes: seq<Write>, t: Stores)
    requires Coherent(rule, s) && s.attempt.None?
    ensures Leads(rule, live, s, writes, t) && t == s.(ledger := t.ledger)
    ensures x in t.ledger.experiments && t.ledger.experiments[x].Planned?
    ensures x in s.ledger.experiments ==> s.ledger.experiments[x].Planned?
  {
    if p :| p in s.ledger.experiments && s.ledger.experiments[p].Planned? {
      x, writes, t := p, [], s;
    } else {
      x := s.ledger.next;
      QuietLedger(rule, s, Leaves(rule, live, s, Plan).ledger);
      LeadsOn(rule, live, s, [], s, Plan);
      writes, t := [] + [Plan], Leaves(rule, live, s, Plan);
    }
  }

  /** The candidate is created and the attempt recorded. */
  lemma Opens(rule: Rule, live: Live, s: Stores, before: seq<Write>, u: Stores, x: nat, candidate: nat)
    returns (writes: seq<Write>, t: Stores)
    requires Leads(rule, live, s, before, u) && u.attempt.None? && IsRunning(u, x) && candidate !in u.worktrees
    ensures Leads(rule, live, s, writes, t) && t.attempt == Some(FirstRecord(u.run, u.metric, x, candidate, live))
    ensures t == u.(attempt := t.attempt, worktrees := t.worktrees) && InPhase(t, PhaseRunning)
  {
    LeadsOn(rule, live, s, before, u, CreateCandidate(candidate));
    var v := Leaves(rule, live, u, CreateCandidate(candidate));
    BeginCoherent(rule, v, FirstRecord(v.run, v.metric, x, candidate, live));
    LeadsOn(rule, live, s, before + [CreateCandidate(candidate)], v, RecordAttempt(x, candidate));
    writes := before + [CreateCandidate(candidate)] + [RecordAttempt(x, candidate)];
    t := Leaves(rule, live, v, RecordAttempt(x, candidate));
  }

  /** The worker commits without changing a file. */
  lemma Works(rule: Rule, live: Live, s: Stores, before: seq<Write>, u: Stores, a: Attempt, tag: int)
    returns (writes: seq<Write>, t: Stores)
    requires Leads(rule, live, s, before, u) && u.attempt == Some(a) && InPhase(u, PhaseRunning) && u.metric == a.before
    ensures Leads(rule, live, s, writes, t) && t.attempt == Some(a) && InPhase(t, PhaseRunning)
    ensures t.worktrees[a.candidate] == Worktree(EmptyCommit(a.base, tag), a.base.tree)
    ensures t == u.(worktrees := t.worktrees)
  {
    var w := Work(Worktree(EmptyCommit(a.base, tag), a.base.tree));
    LeadsOn(rule, live, s, before, u, w);
    writes, t := before + [w], Leaves(rule, live, u, w);
  }

  /** The repository counts as changed, and a better score is judged an improvement. */
  lemma Measures(rule: Rule, live: Live, s: Stores, before: seq<Write>, u: Stores, a: Attempt, tag: int)
    returns (writes: seq<Write>, t: Stores)
    requires Leads(rule, live, s, before, u) && u.attempt == Some(a) && InPhase(u, PhaseRunning) && u.metric == a.before
    requires u.worktrees[a.candidate] == Worktree(EmptyCommit(a.base, tag), a.base.tree)
    ensures Leads(rule, live, s, writes, t) && t.attempt == Some(a) && InPhase(t, PhaseRunning)
    ensures t.worktrees[a.candidate] == Worktree(EmptyCommit(a.base, tag), a.base.tree)
    ensures Recorded(rule, a, t.metric, true) && t.metric.latest == Better(rule, a.before.best)
    ensures t == u.(metric := t.metric)
  {
    var score := Better(rule, a.before.best);
    assert Judge(rule, u.worktrees[a.candidate], a, score).Improved?;
    MetricFree(rule, u, Leaves(rule, live, u, RecordImprovement(score)).metric);
    LeadsOn(rule, live, s, before, u, RecordImprovement(score));
    writes, t := before + [RecordImprovement(score)], Leaves(rule, live, u, RecordImprovement(score));
  }

  /** The candidate is normalized to one commit on the base. */
  lemma Normalizes(rule: Rule, live: Live, s: Stores, before: seq<Write>, u: Stores, a: Attempt, tag: int)
    returns (writes: seq<Write>, t: Stores)
    requires Leads(rule, live, s, before, u) && u.attempt == Some(a) && InPhase(u, PhaseRunning)
    requires u.worktrees[a.candidate] == Worktree(EmptyCommit(a.base, tag), a.base.tree) && Recorded(rule, a, u.metric, true)
    ensures Leads(rule, live, s, writes, t) && t == u
  {
    LeadsOn(rule, live, s, before, u, Normalize(tag));
    writes, t := before + [Normalize(tag)], Leaves(rule, live, u, Normalize(tag));
    assert t.worktrees == u.worktrees;
  }

  /** The promotion is recorded with no changed path. */
  lemma Pends(rule: Rule, live: Live, s: Stores, before: seq<Write>, u: Stores, a: Attempt, tag: int)
    returns (writes: seq<Write>, t: Stores)
    requires Leads(rule, live, s, before, u) && u.attempt == Some(a) && InPhase(u, PhaseRunning)
    requires u.worktrees[a.candidate] == Worktree(EmptyCommit(a.base, tag), a.base.tree) && Recorded(rule, a, u.metric, true)
    ensures Leads(rule, live, s, writes, t) && InPhase(t, PromotionPending)
    ensures t.attempt == Some(PendingRecord(a, u.metric, EmptyCommit(a.base, tag))) && t == u.(attempt := t.attempt)
    ensures t.attempt.value.promotion.value.paths == {}
  {
    AttemptCoherent(rule, u, PendingRecord(a, u.metric, EmptyCommit(a.base, tag)));
    LeadsOn(rule, live, s, before, u, RecordPending);
    writes, t := before + [RecordPending], Leaves(rule, live, u, RecordPending);
  }

  /** The candidate lists no changed path, so the promotion returns before the fast-forward, and the record
      becomes promoted with nothing delivered. */
  lemma Promotes(rule: Rule, live: Live, s: Stores, before: seq<Write>, u: Stores, b: Attempt)
    returns (writes: seq<Write>, t: Stores)
    requires Leads(rule, live, s, before, u) && u.attempt == Some(b) && InPhase(u, PromotionPending)
    requires b.promotion.Some? && b.promotion.value.paths == {} && u.worktrees[b.candidate].files == b.base.tree
    ensures Leads(rule, live, s, writes, t) && InPhase(t, Promoted)
    ensures t.attempt == Some(b.(phase := Promoted)) && t == u.(attempt := t.attempt)
  {
    AttemptCoherent(rule, u, b.(phase := Promoted));
    LeadsOn(rule, live, s, before, u, RecordPromoted);
    writes, t := before + [RecordPromoted], Leaves(rule, live, u, RecordPromoted);
  }

  /** The experiment is accepted and the candidate dropped. */
  lemma Accepts(rule: Rule, live: Live, s: Stores, before: seq<Write>, u: Stores, b: Attempt)
    returns (writes: seq<Write>, t: Stores)
    requires Leads(rule, live, s, before, u) && u.attempt == Some(b) && InPhase(u, Promoted)
    requires b.promotion.Some? && b.promotion.value.paths == {} && u.metric == b.promotion.value.after
    ensures Leads(rule, live, s, writes, t) && b.candidate !in t.worktrees
    ensures StatusOf(t.ledger.experiments, b) == Accepted(b.promotion.value.score, {})
    ensures t == u.(ledger := t.ledger, worktrees := t.worktrees) && b.experiment in t.ledger.experiments
    ensures u.run.iteration == b.iteration - 1
  {
    CompleteCoherent(rule, u, Accepted(b.promotion.value.score, {}));
    LeadsOn(rule, live, s, before, u, CompleteAccepted);
    var v := Leaves(rule, live, u, CompleteAccepted);
    LeadsOn(rule, live, s, before + [CompleteAccepted], v, Discard);
    writes, t := before + [CompleteAccepted] + [Discard], Leaves(rule, live, v, Discard);
  }

  /** The iteration is counted and the record cleared. */
  lemma Settles(rule: Rule, live: Live, s: Stores, before: seq<Write>, u: Stores, b: Attempt)
    returns (writes: seq<Write>, t: Stores)
    requires Leads(rule, live, s, before, u) && u.attempt == Some(b) && b.candidate !in u.worktrees
    requires b.promotion.Some? && u.metric == b.promotion.value.after && u.run.iteration == b.iteration - 1
    requires b.experiment in u.ledger.experiments && u.ledger.experiments[b.experiment].Accepted?
    ensures Leads(rule, live, s, writes, t) && t.attempt.None? && t == u.(run := t.run, attempt := None)
  {
    LeadsOn(rule, live, s, before, u, Count);
    var v := Leaves(rule, live, u, Count);
    ClearCoherent(rule, v);
    LeadsOn(rule, live, s, before + [Count], v, Clear);
    writes, t := before + [Count] + [Clear], Leaves(rule, live, v, Clear);
  }

  /** From every idle session, with the live checkout left alone: the writes of the loop accept, count and
      clear an improvement without changes while its commit is not in the live history.  After the write
      that makes the record promoted the recovery would find the commit not promoted. */
  lemma EmptyImprovementAccepted(rule: Rule, live: Live, s: Stores, candidate: nat, tag: int)
    returns (x: nat, half: seq<Write>, promoted: Stores, writes: seq<Write>, end: Stores)
    requires Coherent(rule, s) && s.attempt.None? && candidate !in s.worktrees
    ensures Leads(rule, live, s, half, promoted) && promoted.attempt.Some? && promoted.attempt.value.phase.Promoted?
    ensures promoted.attempt.value.head == Some(EmptyCommit(live.head, tag))
    ensures !AlreadyPromoted(EmptyCommit(live.head, tag), {}, live.head)
    ensures Leads(rule, live, s, writes, end) && end.attempt.None?
    ensures x in s.ledger.experiments ==> s.ledger.experiments[x].Planned?
    ensures x in end.ledger.experiments && end.ledger.experiments[x] == Accepted(Better(rule, s.metric.best), {})
    ensures x !in end.landed && end.landed == s.landed && end.moved == s.moved
    ensures !IsAncestor(EmptyCommit(live.head, tag), live.head)
  {
    var t;
    x, writes, t := Starts(rule, live, s);
    writes, t := Opens(rule, live, s, writes, t, x, candidate);
    var a := t.attempt.value;
    writes, t := Works(rule, live, s, writes, t, a, tag);
    writes, t := Measures(rule, live, s, writes, t, a, tag);
    writes, t := Normalizes(rule, live, s, writes, t, a, tag);
    writes, t := Pends(rule, live, s, writes, t, a, tag);
    half, promoted := Promotes(rule, live, s, writes, t, t.attempt.value);
    var b := promoted.attempt.value;
    writes, t := Accepts(rule, live, s, half, promoted, b);
    writes, end := Settles(rule, live, s, writes, t, b);
    EmptyCandidateNotContained(live.head, tag);
    IdleNotLanded(rule, s, x);
  }

  /** An experiment that is new or planned has no commit in the live history yet. */
  lemma IdleNotLanded(rule: Rule, s: Stores, x: nat)
    requires Coherent(rule, s) && s.attempt.None? && (x in s.ledger.experiments ==> s.ledger.experiments[x].Planned?)
    ensures x !in s.landed
  {
    assert x in s.landed ==> LandedFor(s.ledger.experiments, s.attempt, x, s.landed[x]);
  }
}
