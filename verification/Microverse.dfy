/**
 The Microverse promotion transaction: its values.  One experiment is accepted or dropped across five
 durable stores: the live branch, the metric file, the experiment ledger, the iteration counter and
 the candidate worktree, driven by a write-ahead attempt record.
 */
module Microverse {
  import opened Basics

  // ---------------------------------------------------------------- repositories

  type Tree = map<string, int>

  /** A commit determines its whole ancestry, as a commit hash does. */
  datatype Commit = Root(tree: Tree) | Child(parent: Commit, tree: Tree, tag: int)

  predicate IsAncestor(a: Commit, c: Commit) {
    a == c || (c.Child? && IsAncestor(a, c.parent))
  }

  predicate SameAt(a: Tree, b: Tree, path: string) {
    if path in a then path in b && a[path] == b[path] else path !in b
  }

  function ChangedPaths(a: Tree, b: Tree): set<string> {
    set p | p in a.Keys + b.Keys && !SameAt(a, b, p)
  }

  lemma {:induction false} AncestorTransitive(a: Commit, b: Commit, c: Commit)
    requires IsAncestor(a, b) && IsAncestor(b, c)
    ensures IsAncestor(a, c)
    decreases c
  {
    if b != c {
      AncestorTransitive(a, b, c.parent);
    }
  }

  function Depth(c: Commit): nat {
    if c.Root? then 0 else 1 + Depth(c.parent)
  }

  lemma {:induction false} AncestorNoLarger(a: Commit, c: Commit)
    requires IsAncestor(a, c)
    ensures Depth(a) <= Depth(c)
    decreases c
  {
    if a != c {
      AncestorNoLarger(a, c.parent);
    }
  }

  /** A candidate without changes is never seen in the live history while the branch stays at its base,
      so a promotion of it is accepted but not contained. */
  lemma EmptyCandidateNotContained(base: Commit, tag: int)
    ensures var c := Child(base, base.tree, tag);
            ChangedPaths(base.tree, c.tree) == {} && !AlreadyPromoted(c, {}, base)
  {
    var c := Child(base, base.tree, tag);
    if IsAncestor(c, base) {
      AncestorNoLarger(c, base);
    }
  }

  /** The live checkout: its branch head, its symbolic ref and its working-tree fingerprint. */
  datatype Live = Live(head: Commit, ref: Option<string>, fingerprint: int)

  /** An isolated candidate worktree: its head and the content of its files. */
  datatype Worktree = Worktree(head: Commit, files: Tree)

  /** The paths a worktree changes against `base`, committed or not. */
  function ListChanged(base: Commit, w: Worktree): set<string> {
    ChangedPaths(base.tree, w.head.tree) + ChangedPaths(w.head.tree, w.files)
  }

  /** The candidate commit is in the live history and the paths it changed still read as it left them. */
  predicate AlreadyPromoted(c: Commit, paths: set<string>, head: Commit) {
    head == c || (IsAncestor(c, head) && forall p :: p in paths ==> SameAt(c.tree, head.tree, p))
  }

  /** No path is changed exactly between equal trees, and a path that is not changed reads the same in both. */
  lemma ChangedPathsIff(a: Tree, b: Tree)
    ensures ChangedPaths(a, b) == {} <==> a == b
    ensures forall p :: p !in ChangedPaths(a, b) <==> (p in a <==> p in b) && (p in a && p in b ==> a[p] == b[p])
  {
    if ChangedPaths(a, b) == {} {
      forall p ensures p in a <==> p in b {
        assert p !in ChangedPaths(a, b);
      }
      forall p | p in a ensures a[p] == b[p] {
        assert p !in ChangedPaths(a, b);
      }
    }
  }

  /** A worktree changes nothing exactly when its head and its files have the tree of the base. */
  lemma NothingListedIff(base: Commit, w: Worktree)
    ensures ListChanged(base, w) == {} <==> w.head.tree == base.tree && w.files == base.tree
  {
    ChangedPathsIff(base.tree, w.head.tree);
    ChangedPathsIff(w.head.tree, w.files);
  }

  /** A delivered commit reads as promoted, and goes on to while later commits leave its paths as they are. */
  lemma PromotedStays(c: Commit, paths: set<string>, head: Commit, tree: Tree, tag: int)
    requires AlreadyPromoted(c, paths, head) && forall p :: p in paths ==> p !in ChangedPaths(head.tree, tree)
    ensures AlreadyPromoted(c, paths, Child(head, tree, tag)) && AlreadyPromoted(c, paths, c)
  {
    forall p | p in paths ensures SameAt(c.tree, tree, p) {
      assert SameAt(head.tree, tree, p) && SameAt(c.tree, head.tree, p);
    }
    assert IsAncestor(c, Child(head, tree, tag));
  }

  /** A commit outside the history, or one of whose paths was changed since, does not. */
  lemma NotPromoted(c: Commit, paths: set<string>, head: Commit, path: string)
    requires !IsAncestor(c, head) || (head != c && path in paths && path in ChangedPaths(c.tree, head.tree))
    ensures !AlreadyPromoted(c, paths, head)
  {
  }

  // ---------------------------------------------------------------- metric

  datatype Verdict = Baseline | Improved | Held | Regressed

  datatype MetricEntry = MetricEntry(iteration: nat, score: int, verdict: Verdict, head: Option<Commit>)

  datatype Metric = Metric(best: int, latest: int, stall: nat, history: seq<MetricEntry>)

  datatype Rule = Rule(higher: bool, tolerance: nat)

  function Classify(rule: Rule, score: int, best: int): Verdict {
    var delta := if rule.higher then score - best else best - score;
    if delta > rule.tolerance then Improved else if delta < 0 - rule.tolerance then Regressed else Held
  }

  /** `x` is better than `y` by more than the tolerance. */
  predicate Beats(rule: Rule, x: int, y: int) {
    if rule.higher then x > y + rule.tolerance else x + rule.tolerance < y
  }

  /** The verdicts that `score` may get against `best`: improved has to beat it, regressed is what it beats,
      and everything it does not beat may be held. */
  predicate Fair(rule: Rule, verdict: Verdict, score: int, best: int) {
    match verdict
    case Improved => Beats(rule, score, best)
    case Regressed => Beats(rule, best, score)
    case Held => !Beats(rule, best, score)
    case Baseline => false
  }

  lemma ClassifyIff(rule: Rule, score: int, best: int)
    ensures Classify(rule, score, best).Improved? <==> Beats(rule, score, best)
    ensures Classify(rule, score, best).Regressed? <==> Beats(rule, best, score)
    ensures Fair(rule, Classify(rule, score, best), score, best)
  {
  }

  function RecordMetric(m: Metric, e: MetricEntry): Metric {
    Metric(if e.verdict.Improved? then e.score else m.best, e.score,
           if e.verdict.Improved? then 0 else m.stall + 1, m.history + [e])
  }

  /** The metric state a history of measurements amounts to. */
  function MetricOf(h: seq<MetricEntry>): (m: Metric)
    requires h != []
    ensures m.history == h
  {
    var e := h[|h| - 1];
    if |h| == 1 then Metric(e.score, e.score, 0, h) else RecordMetric(MetricOf(h[..|h| - 1]), e)
  }

  /** Entries are numbered without gaps, and every verdict is fair against the best score before it. */
  predicate Sound(rule: Rule, h: seq<MetricEntry>) {
    && h != []
    && var e := h[|h| - 1];
       && e.iteration == |h| - 1
       && e.verdict.Baseline? == (|h| == 1)
       && (|h| > 1 ==> Sound(rule, h[..|h| - 1]) && Fair(rule, e.verdict, e.score, MetricOf(h[..|h| - 1]).best))
  }

  function Improvements(h: seq<MetricEntry>): nat {
    if h == [] then 0 else Improvements(h[..|h| - 1]) + if h[|h| - 1].verdict.Improved? then 1 else 0
  }

  /** `x` is at least as good as `y`. */
  predicate AsGood(rule: Rule, x: int, y: int) {
    if rule.higher then x >= y else x <= y
  }

  /** The best score of a sound history is at least as good as the baseline and every accepted score. */
  lemma {:induction false} BestIsBest(rule: Rule, h: seq<MetricEntry>, k: nat)
    requires Sound(rule, h) && k < |h|
    requires h[k].verdict.Improved? || h[k].verdict.Baseline?
    ensures AsGood(rule, MetricOf(h).best, h[k].score)
  {
    if k < |h| - 1 {
      BestIsBest(rule, h[..|h| - 1], k);
    }
  }

  /** Every improvement beats the baseline and each improvement before it by more than the tolerance. */
  lemma ImprovementsClimb(rule: Rule, h: seq<MetricEntry>, j: nat, k: nat)
    requires Sound(rule, h) && j < k < |h|
    requires (h[j].verdict.Improved? || h[j].verdict.Baseline?) && h[k].verdict.Improved?
    ensures Beats(rule, h[k].score, h[j].score)
  {
    SoundPrefix(rule, h, k + 1);
    var upto := h[..k + 1];
    assert upto[..|upto| - 1][j] == h[j] && upto[|upto| - 1] == h[k];
    BestIsBest(rule, upto[..|upto| - 1], j);
  }

  lemma {:induction false} SoundPrefix(rule: Rule, h: seq<MetricEntry>, k: nat)
    requires Sound(rule, h) && 0 < k <= |h|
    ensures Sound(rule, h[..k])
  {
    if k == |h| {
      assert h[..k] == h;
    } else {
      var init := h[..|h| - 1];
      assert init[..k] == h[..k];
      SoundPrefix(rule, init, k);
    }
  }

  // ---------------------------------------------------------------- ledger and transaction

  datatype Status = Planned | Running | Accepted(score: int, paths: set<string>) | Rejected(score: int) | Invalid

  predicate Terminal(s: Status) {
    s.Accepted? || s.Rejected?
  }

  type Experiments = map<nat, Status>

  function TerminalSet(e: Experiments): set<nat> {
    set x | x in e && Terminal(e[x])
  }

  function AcceptedSet(e: Experiments): set<nat> {
    set x | x in e && e[x].Accepted?
  }

  function RunningOnes(e: Experiments): set<nat> {
    set x | x in e && e[x].Running?
  }

  /** The accepted experiments with this score. */
  function AcceptedWith(e: Experiments, score: int): set<nat> {
    set x | x in e && e[x].Accepted? && e[x].score == score
  }

  /** How many improvements of the history have this score. */
  function ImprovedWith(h: seq<MetricEntry>, score: int): nat {
    if h == [] then 0
    else ImprovedWith(h[..|h| - 1], score) + if h[|h| - 1].verdict.Improved? && h[|h| - 1].score == score then 1 else 0
  }

  /** The scores of the accepted experiments are those of the improvements, each as often. */
  ghost predicate SameScores(e: Experiments, h: seq<MetricEntry>) {
    forall score {:trigger AcceptedWith(e, score)} :: |AcceptedWith(e, score)| == ImprovedWith(h, score)
  }

  datatype Ledger = Ledger(experiments: Experiments, next: nat, stall: nat, failures: nat)

  function SetStatus(l: Ledger, x: nat, s: Status): Ledger {
    l.(experiments := l.experiments[x := s])
  }

  function Complete(l: Ledger, x: nat, s: Status): Ledger {
    SetStatus(l, x, s).(stall := if s.Accepted? then 0 else l.stall + 1, failures := 0)
  }

  /** Running experiments become `s`, each one counting as a worker failure. */
  function Reconciled(l: Ledger, s: Status): Ledger {
    l.(experiments := map x | x in l.experiments :: if l.experiments[x].Running? then s else l.experiments[x],
       failures := l.failures + |set x | x in l.experiments && l.experiments[x].Running?|)
  }

  /** The same experiments as before, those that ran being `s` now and each counted as a failure, all others
      as they were. */
  predicate OnlyRunning(l: Ledger, m: Ledger, s: Status) {
    && m.experiments.Keys == l.experiments.Keys && m.next == l.next && m.stall == l.stall
    && (forall x :: x in l.experiments ==> m.experiments[x] == if l.experiments[x].Running? then s else l.experiments[x])
    && m.failures == l.failures + |RunningOnes(l.experiments)|
  }

  /** Recovery ends running experiments only: they are planned again, or accepted. */
  predicate Resumes(l: Ledger, m: Ledger) {
    && m.experiments.Keys == l.experiments.Keys && m.next == l.next
    && forall x :: x in l.experiments && m.experiments[x] != l.experiments[x] ==>
         l.experiments[x].Running? && (m.experiments[x].Planned? || m.experiments[x].Accepted?)
  }

  lemma ReconciledOnlyRunning(l: Ledger, s: Status)
    ensures OnlyRunning(l, Reconciled(l, s), s)
    ensures s.Planned? ==> Resumes(l, Reconciled(l, s))
  {
    assert RunningOnes(l.experiments) == set x | x in l.experiments && l.experiments[x].Running?;
  }

  predicate NoneRunning(l: Ledger) {
    forall x :: x in l.experiments ==> !l.experiments[x].Running?
  }

  /** Everything in the ledger that does not concern experiment `x`. */
  function Rest(l: Ledger, x: nat): Experiments {
    l.experiments - {x}
  }

  /** What no step undoes: an experiment stays in the ledger, and stays accepted, rejected or given up. */
  predicate Lasting(l: Ledger, m: Ledger) {
    && l.next <= m.next
    && forall x :: x in l.experiments ==>
         x in m.experiments && (Terminal(l.experiments[x]) || l.experiments[x].Invalid? ==> m.experiments[x] == l.experiments[x])
  }

  /** The experiments given up since `l`. */
  function GivenUp(l: Ledger, m: Ledger): set<nat> {
    set x | x in m.experiments && m.experiments[x].Invalid? && !(x in l.experiments && l.experiments[x].Invalid?)
  }

  /** Those, and the ones that run. */
  function Spent(l: Ledger, m: Ledger): set<nat> {
    GivenUp(l, m) + set x | x in m.experiments && m.experiments[x].Running?
  }

  /** A pass that touches one experiment, which was not given up before, spends at most that one. */
  lemma SpentByOne(l: Ledger, m: Ledger, n: Ledger, x: nat)
    requires Rest(n, x) == Rest(m, x) && NoneRunning(m)
    ensures Spent(l, n) <= Spent(l, m) + {x} && |Spent(l, n)| <= |Spent(l, m)| + 1
  {
    forall y | y in Spent(l, n) && y != x ensures y in Spent(l, m) {
      assert y in Rest(n, x) && Rest(n, x)[y] == n.experiments[y];
      assert y in Rest(m, x) && Rest(m, x)[y] == m.experiments[y];
    }
    SmallerSet(Spent(l, n), Spent(l, m) + {x});
  }

  lemma SmallerSet(a: set<nat>, b: set<nat>)
    requires a <= b
    ensures |a| <= |b|
  {
    assert b == a + (b - a);
  }

  /** Giving up what runs spends nothing more. */
  lemma SpentByEnd(l: Ledger, m: Ledger, n: Ledger)
    requires n == m || OnlyRunning(m, n, Invalid)
    requires Lasting(l, m)
    ensures Lasting(l, n) && |GivenUp(l, n)| <= |Spent(l, m)|
  {
    SmallerSet(GivenUp(l, n), Spent(l, m));
  }

  /** Recovery gives up nothing, so what was spent since it was spent since the start. */
  lemma SpentSince(start: Ledger, entered: Ledger, m: Ledger)
    requires Resumes(start, entered) && Lasting(entered, m)
    ensures Lasting(start, m) && GivenUp(start, entered) == {}
    ensures |Spent(start, m)| <= |Spent(entered, m)|
  {
    SmallerSet(Spent(start, m), Spent(entered, m));
  }

  datatype RunState = RunState(iteration: nat, stall: nat, failures: nat)

  datatype Phase = PhaseRunning | PromotionPending | Promoted | Quarantined

  datatype Promotion = Promotion(score: int, after: Metric, paths: set<string>)

  /** The durable attempt record. */
  datatype Attempt = Attempt(
    experiment: nat, iteration: nat, before: Metric, candidate: nat,
    base: Commit, ref: Option<string>, fingerprint: int,
    phase: Phase, head: Option<Commit>, promotion: Option<Promotion>)
  {
    predicate Promoting() {
      phase.PromotionPending? || phase.Promoted?
    }
  }

  /** The durable stores other than the live checkout, with two facts about the past:
      the commit seen in the live history for an experiment, and for which experiments
      the runtime itself moved the live branch. */
  datatype Stores = Stores(
    metric: Metric, ledger: Ledger, run: RunState, attempt: Option<Attempt>,
    worktrees: map<nat, Worktree>, landed: map<nat, Commit>, moved: set<nat>)

  // ---------------------------------------------------------------- what the stores agree on

  /** Metric, ledger and counter tell the same story of `n` finished iterations. */
  ghost predicate Settled(rule: Rule, m: Metric, l: Ledger, n: nat) {
    && Sound(rule, m.history) && m == MetricOf(m.history)
    && |m.history| == n + 1
    && |TerminalSet(l.experiments)| == n
    && |AcceptedSet(l.experiments)| == Improvements(m.history)
    && SameScores(l.experiments, m.history)
    && m.stall == l.stall
  }

  /** `m` is what recording the measurement of attempt `a` makes of the metric before it. */
  predicate Recorded(rule: Rule, a: Attempt, m: Metric, improved: bool) {
    && m.history != []
    && var e := m.history[|m.history| - 1];
       && m == RecordMetric(a.before, e)
       && e.iteration == a.iteration && !e.verdict.Baseline?
       && e.verdict.Improved? == improved
       && Fair(rule, e.verdict, e.score, a.before.best)
  }

  /** The write-ahead part of a promotion describes one commit on top of the base. */
  predicate PromotionReady(rule: Rule, a: Attempt) {
    && a.head.Some? && a.head.value.Child? && a.head.value.parent == a.base
    && a.promotion.Some?
    && Recorded(rule, a, a.promotion.value.after, true)
    && a.promotion.value.score == a.promotion.value.after.latest
    && a.promotion.value.paths == ChangedPaths(a.base.tree, a.head.value.tree)
  }

  /** The candidate commit was seen in the live history, or changes nothing. */
  predicate Delivered(a: Attempt, landed: map<nat, Commit>) {
    a.promotion.Some? && (a.experiment in landed || a.promotion.value.paths == {})
  }

  /** What the attempt record promises about the other stores. */
  ghost predicate AttemptFits(rule: Rule, a: Attempt, s: Stores) {
    && a.experiment in s.ledger.experiments
    && 1 <= a.iteration
    && (if a.phase.PhaseRunning? then a.head.None? && a.promotion.None?
        else if a.phase.Quarantined? then a.head.Some? ==> PromotionReady(rule, a)
        else PromotionReady(rule, a))
    && (a.experiment in s.landed ==> a.head == Some(s.landed[a.experiment]))
    && (a.Promoting() && a.candidate in s.worktrees ==>
          s.worktrees[a.candidate] == Worktree(a.head.value, a.head.value.tree))
    && (a.phase.Promoted? ==> Delivered(a, s.landed))
    && var status := s.ledger.experiments[a.experiment];
       if Terminal(status) then
         && a.iteration - 1 <= s.run.iteration <= a.iteration
         && (s.run.iteration == a.iteration ==> s.run.stall == s.ledger.stall)
         && (if status.Accepted? then
               && a.head.Some? && PromotionReady(rule, a) && Delivered(a, s.landed)
               && status == Accepted(a.promotion.value.score, a.promotion.value.paths)
               && Settled(rule, a.promotion.value.after, s.ledger, a.iteration)
             else
               && a.head.None? && !a.Promoting()
               && Recorded(rule, a, s.metric, false) && s.metric.latest == status.score
               && Settled(rule, s.metric, s.ledger, a.iteration))
       else
         && s.run.iteration == a.iteration - 1
         && s.run.stall == s.ledger.stall
         && Settled(rule, a.before, s.ledger, a.iteration - 1)
         && (a.Promoting() ==> status.Running?)
         && (status.Invalid? ==> s.metric == a.before)
  }

  /** A commit counted for `x` belongs to an accepted experiment, with the paths the ledger shows,
      or to the promotion under way. */
  predicate LandedFor(e: Experiments, at: Option<Attempt>, x: nat, c: Commit) {
    && x in e && c.Child?
    && if e[x].Accepted? then
         e[x].paths == ChangedPaths(c.parent.tree, c.tree)
       else
         at.Some? && at.value.experiment == x && at.value.head == Some(c)
  }

  predicate AcceptedFor(status: Status, x: nat, landed: map<nat, Commit>) {
    status.Accepted? ==> (x in landed || status.paths == {})
  }

  predicate MovedFor(e: Experiments, at: Option<Attempt>, x: nat) {
    && x in e
    && if e[x].Accepted? then
         e[x].paths != {}
       else
         at.Some? && at.value.experiment == x && at.value.promotion.Some? && at.value.promotion.value.paths != {}
  }

  /** Every accepted experiment with changes was seen in the live history, and only the promotion under
      way can have moved the live branch without being accepted yet. */
  predicate Credited(e: Experiments, at: Option<Attempt>, landed: map<nat, Commit>, moved: set<nat>) {
    && (forall x {:trigger LandedFor(e, at, x, landed[x])} :: x in landed ==> LandedFor(e, at, x, landed[x]))
    && (forall x {:trigger AcceptedFor(e[x], x, landed)} :: x in e ==> AcceptedFor(e[x], x, landed))
    && (forall x {:trigger MovedFor(e, at, x)} :: x in moved ==> MovedFor(e, at, x))
    && moved <= landed.Keys
  }

  predicate Numbered(l: Ledger) {
    forall x :: x in l.experiments ==> x < l.next
  }

  /** The invariant of the durable stores at every instant. */
  ghost predicate Coherent(rule: Rule, s: Stores) {
    && (match s.attempt
        case None => Settled(rule, s.metric, s.ledger, s.run.iteration) && s.run.stall == s.ledger.stall
        case Some(a) => AttemptFits(rule, a, s))
    && Credited(s.ledger.experiments, s.attempt, s.landed, s.moved)
    && Numbered(s.ledger)
  }

  /** Every commit counted so far is in the history of `head`. */
  predicate Contained(landed: map<nat, Commit>, head: Commit) {
    forall x {:trigger landed[x]} :: x in landed ==> IsAncestor(landed[x], head)
  }

  lemma ContainedLater(landed: map<nat, Commit>, head: Commit, later: Commit)
    requires Contained(landed, head) && IsAncestor(head, later)
    ensures Contained(landed, later)
  {
    forall x | x in landed ensures IsAncestor(landed[x], later) {
      AncestorTransitive(landed[x], head, later);
    }
  }

  // ---------------------------------------------------------------- changes of one store

  /** Changes that finish no experiment and undo no finished one. */
  predicate SameOutcomes(e: Experiments, f: Experiments) {
    && e.Keys <= f.Keys
    && (forall x {:trigger f[x]} :: x in f && Terminal(f[x]) ==> x in e && f[x] == e[x])
    && (forall x {:trigger e[x]} :: x in e && Terminal(e[x]) ==> f[x] == e[x])
  }

  lemma SameOutcomesSets(e: Experiments, f: Experiments)
    requires SameOutcomes(e, f)
    ensures TerminalSet(e) == TerminalSet(f) && AcceptedSet(e) == AcceptedSet(f)
    ensures forall score {:trigger AcceptedWith(f, score)} :: AcceptedWith(f, score) == AcceptedWith(e, score)
  {
    forall score, x ensures x in AcceptedWith(e, score) <==> x in AcceptedWith(f, score) {
      if x in AcceptedWith(e, score) { assert Terminal(e[x]); }
      if x in AcceptedWith(f, score) { assert Terminal(f[x]); }
    }
    forall x ensures x in TerminalSet(e) <==> x in TerminalSet(f) {
      if x in TerminalSet(e) { assert Terminal(e[x]); }
      if x in TerminalSet(f) { assert Terminal(f[x]); }
    }
    forall x ensures x in AcceptedSet(e) <==> x in AcceptedSet(f) {
      if x in AcceptedSet(e) { assert Terminal(e[x]); }
      if x in AcceptedSet(f) { assert Terminal(f[x]); }
    }
  }

  lemma CreditedSame(e: Experiments, f: Experiments, at: Option<Attempt>, landed: map<nat, Commit>, moved: set<nat>)
    requires SameOutcomes(e, f) && Credited(e, at, landed, moved)
    ensures Credited(f, at, landed, moved)
  {
    forall x | x in landed ensures LandedFor(f, at, x, landed[x]) {
      assert LandedFor(e, at, x, landed[x]);
    }
    forall x | x in f ensures AcceptedFor(f[x], x, landed) {
      if f[x].Accepted? { assert AcceptedFor(e[x], x, landed); }
    }
    forall x | x in moved ensures MovedFor(f, at, x) {
      assert MovedFor(e, at, x);
    }
  }

  /** A ledger write that finishes nothing keeps the invariant. */
  lemma QuietLedger(rule: Rule, s: Stores, l: Ledger)
    requires Coherent(rule, s)
    requires SameOutcomes(s.ledger.experiments, l.experiments) && l.stall == s.ledger.stall && Numbered(l)
    requires s.attempt.Some? ==>
               var x := s.attempt.value.experiment;
               && (s.attempt.value.Promoting() && l.experiments[x] != s.ledger.experiments[x] ==> l.experiments[x].Running?)
               && (l.experiments[x].Invalid? ==> s.ledger.experiments[x].Invalid? || s.metric == s.attempt.value.before)
    ensures Coherent(rule, s.(ledger := l))
  {
    SameOutcomesSets(s.ledger.experiments, l.experiments);
    CreditedSame(s.ledger.experiments, l.experiments, s.attempt, s.landed, s.moved);
    if s.attempt.Some? {
      var x := s.attempt.value.experiment;
      assert Terminal(s.ledger.experiments[x]) || Terminal(l.experiments[x]) ==> s.ledger.experiments[x] == l.experiments[x];
    }
  }

  /** Worker failure counts are no part of the invariant. */
  lemma FailureCounts(rule: Rule, s: Stores, n: nat, k: nat)
    requires Coherent(rule, s)
    ensures Coherent(rule, s.(ledger := s.ledger.(failures := n), run := s.run.(failures := k)))
  {
    QuietLedger(rule, s, s.ledger.(failures := n));
  }

  /** While the experiment of the attempt runs, the metric file is free to change. */
  lemma MetricFree(rule: Rule, s: Stores, m: Metric)
    requires Coherent(rule, s) && s.attempt.Some?
    requires s.ledger.experiments[s.attempt.value.experiment].Running?
    ensures Coherent(rule, s.(metric := m))
  {
  }

  lemma ReconciledQuiet(l: Ledger, s: Status)
    requires s.Planned? || s.Invalid?
    ensures SameOutcomes(l.experiments, Reconciled(l, s).experiments)
    ensures Numbered(l) ==> Numbered(Reconciled(l, s))
  {
  }

  /** Finishing the experiment of an attempt settles the recorded measurement. */
  lemma CompleteSettles(rule: Rule, a: Attempt, l: Ledger, m: Metric, s: Status)
    requires 1 <= a.iteration && Settled(rule, a.before, l, a.iteration - 1)
    requires Terminal(s) && Recorded(rule, a, m, s.Accepted?) && (s.Accepted? ==> s.score == m.latest)
    requires a.experiment in l.experiments && !Terminal(l.experiments[a.experiment])
    ensures Settled(rule, m, Complete(l, a.experiment, s), a.iteration)
  {
    var x := a.experiment;
    var e, f := l.experiments, Complete(l, x, s).experiments;
    assert m.history[..|m.history| - 1] == a.before.history;
    CompleteCounts(e, x, s);
    CompleteScores(e, x, s, m.history);
  }

  lemma CompleteCounts(e: Experiments, x: nat, s: Status)
    requires x in e && !Terminal(e[x]) && Terminal(s)
    ensures |TerminalSet(e[x := s])| == |TerminalSet(e)| + 1
    ensures |AcceptedSet(e[x := s])| == |AcceptedSet(e)| + if s.Accepted? then 1 else 0
  {
    var f := e[x := s];
    assert TerminalSet(f) == TerminalSet(e) + {x} && x !in TerminalSet(e) && x !in AcceptedSet(e);
    assert AcceptedSet(f) == if s.Accepted? then AcceptedSet(e) + {x} else AcceptedSet(e);
  }

  lemma CompleteScores(e: Experiments, x: nat, s: Status, h: seq<MetricEntry>)
    requires x in e && !Terminal(e[x]) && Terminal(s) && h != []
    requires SameScores(e, h[..|h| - 1])
    requires h[|h| - 1].verdict.Improved? == s.Accepted? && (s.Accepted? ==> s.score == h[|h| - 1].score)
    ensures SameScores(e[x := s], h)
  {
    var f := e[x := s];
    forall score ensures |AcceptedWith(f, score)| == ImprovedWith(h, score) {
      assert x !in AcceptedWith(e, score);
      if s.Accepted? && s.score == score {
        assert AcceptedWith(f, score) == AcceptedWith(e, score) + {x};
      } else {
        assert AcceptedWith(f, score) == AcceptedWith(e, score);
      }
    }
  }

  lemma CompleteCoherent(rule: Rule, s: Stores, status: Status)
    requires Coherent(rule, s) && s.attempt.Some?
    requires Terminal(status)
    requires var a := s.attempt.value;
             && !Terminal(s.ledger.experiments[a.experiment])
             && (if status.Accepted? then
                   && a.Promoting() && Delivered(a, s.landed)
                   && status == Accepted(a.promotion.value.score, a.promotion.value.paths)
                 else a.phase.PhaseRunning? && Recorded(rule, a, s.metric, false) && s.metric.latest == status.score)
    ensures Coherent(rule, s.(ledger := Complete(s.ledger, s.attempt.value.experiment, status)))
  {
    var a := s.attempt.value;
    var e, f := s.ledger.experiments, Complete(s.ledger, a.experiment, status).experiments;
    CompleteSettles(rule, a, s.ledger, if status.Accepted? then a.promotion.value.after else s.metric, status);
    forall x | x in s.landed ensures LandedFor(f, s.attempt, x, s.landed[x]) {
      assert LandedFor(e, s.attempt, x, s.landed[x]);
    }
    forall x | x in f ensures AcceptedFor(f[x], x, s.landed) {
      if x != a.experiment { assert AcceptedFor(e[x], x, s.landed); }
    }
    forall x | x in s.moved ensures MovedFor(f, s.attempt, x) {
      assert MovedFor(e, s.attempt, x);
    }
  }

  /** An attempt may be cleared once its outcome is in every store and its candidate is gone. */
  predicate Closable(s: Stores) {
    && s.attempt.Some?
    && var a := s.attempt.value;
       && a.experiment in s.ledger.experiments
       && a.candidate !in s.worktrees
       && match s.ledger.experiments[a.experiment]
          case Accepted(_, _) => a.promotion.Some? && s.metric == a.promotion.value.after && s.run == Counted(a, s.ledger)
          case Rejected(_) => s.run == Counted(a, s.ledger)
          case _ => a.head.None? && s.metric == a.before
  }

  /** The run state once the iteration of the attempt is counted. */
  function Counted(a: Attempt, l: Ledger): RunState {
    RunState(a.iteration, l.stall, l.failures)
  }

  lemma ClearCoherent(rule: Rule, s: Stores)
    requires Coherent(rule, s) && Closable(s)
    ensures Coherent(rule, s.(attempt := None))
  {
    var e := s.ledger.experiments;
    forall x | x in s.landed ensures LandedFor(e, None, x, s.landed[x]) {
      assert LandedFor(e, s.attempt, x, s.landed[x]);
    }
    forall x | x in s.moved ensures MovedFor(e, None, x) {
      assert MovedFor(e, s.attempt, x);
      assert LandedFor(e, s.attempt, x, s.landed[x]);
    }
  }

  /** Seeing the candidate commit of a promotion in the live history. */
  function Land(s: Stores, a: Attempt, moves: bool): Stores
    requires a.head.Some?
  {
    s.(landed := s.landed[a.experiment := a.head.value], moved := s.moved + if moves then {a.experiment} else {})
  }

  lemma LandCoherent(rule: Rule, s: Stores, a: Attempt, moves: bool)
    requires Coherent(rule, s) && s.attempt == Some(a) && a.Promoting()
    requires moves ==> a.promotion.Some? && a.promotion.value.paths != {}
    ensures Coherent(rule, Land(s, a, moves))
  {
    var e := s.ledger.experiments;
    var t := Land(s, a, moves);
    forall x | x in t.landed ensures LandedFor(e, s.attempt, x, t.landed[x]) {
      if x != a.experiment { assert LandedFor(e, s.attempt, x, s.landed[x]); }
    }
    forall x | x in e ensures AcceptedFor(e[x], x, t.landed) {
      assert AcceptedFor(e[x], x, s.landed);
    }
    forall x | x in t.moved ensures MovedFor(e, s.attempt, x) {
      if x in s.moved { assert MovedFor(e, s.attempt, x); }
    }
  }

  /** A change of the phase or of the promotion part of the attempt record. */
  lemma AttemptCoherent(rule: Rule, s: Stores, b: Attempt)
    requires Coherent(rule, s) && s.attempt.Some?
    requires b.experiment == s.attempt.value.experiment
    requires s.attempt.value.head.Some? ==> b.head == s.attempt.value.head && b.promotion == s.attempt.value.promotion
    requires AttemptFits(rule, b, s.(attempt := Some(b)))
    ensures Coherent(rule, s.(attempt := Some(b)))
  {
    var e := s.ledger.experiments;
    forall x | x in s.landed ensures LandedFor(e, Some(b), x, s.landed[x]) {
      assert LandedFor(e, s.attempt, x, s.landed[x]);
    }
    forall x | x in s.moved ensures MovedFor(e, Some(b), x) {
      assert MovedFor(e, s.attempt, x);
      assert LandedFor(e, s.attempt, x, s.landed[x]);
    }
  }

  /** Writing the first attempt record over settled stores. */
  lemma BeginCoherent(rule: Rule, s: Stores, a: Attempt)
    requires Coherent(rule, s) && s.attempt.None?
    requires a.experiment in s.ledger.experiments && !Terminal(s.ledger.experiments[a.experiment])
    requires !s.ledger.experiments[a.experiment].Invalid?
    requires a.phase.PhaseRunning? && a.head.None? && a.promotion.None?
    requires a.before == s.metric && a.iteration == s.run.iteration + 1
    ensures Coherent(rule, s.(attempt := Some(a)))
  {
    var e := s.ledger.experiments;
    forall x | x in s.landed ensures x != a.experiment && LandedFor(e, Some(a), x, s.landed[x]) {
      assert LandedFor(e, s.attempt, x, s.landed[x]);
    }
    forall x | x in s.moved ensures MovedFor(e, Some(a), x) {
      assert MovedFor(e, s.attempt, x);
    }
  }

  // ---------------------------------------------------------------- what the invariant means

  /** The counter is the number of accepted and rejected experiments; while an attempt is being settled
      it may be one behind, never ahead. */
  lemma CountedOnce(rule: Rule, s: Stores)
    requires Coherent(rule, s)
    ensures s.attempt.None? ==> s.run.iteration == |TerminalSet(s.ledger.experiments)|
    ensures s.run.iteration <= |TerminalSet(s.ledger.experiments)| <= s.run.iteration + 1
    ensures |TerminalSet(s.ledger.experiments)| == s.run.iteration + 1 ==>
              s.attempt.Some? && s.attempt.value.iteration == s.run.iteration + 1
              && Terminal(s.ledger.experiments[s.attempt.value.experiment])
  {
  }

  /** An accepted experiment with changes has its commit in the live history, one that changes nothing
      never moved the branch. */
  lemma AcceptedIsContained(rule: Rule, s: Stores, head: Commit, x: nat)
    requires Coherent(rule, s) && Contained(s.landed, head)
    requires x in s.ledger.experiments && s.ledger.experiments[x].Accepted?
    ensures var paths := s.ledger.experiments[x].paths;
            if paths == {} then
              x !in s.moved
            else
              && x in s.landed && IsAncestor(s.landed[x], head) && s.landed[x].Child?
              && paths == ChangedPaths(s.landed[x].parent.tree, s.landed[x].tree)
  {
    assert AcceptedFor(s.ledger.experiments[x], x, s.landed);
    if x in s.moved {
      assert MovedFor(s.ledger.experiments, s.attempt, x);
    }
    if x in s.landed {
      assert LandedFor(s.ledger.experiments, s.attempt, x, s.landed[x]);
    }
  }

  /** The runtime moves the live branch only for experiments that are accepted, or whose durable
      promotion record names the very commit. */
  lemma MovedIsRecorded(rule: Rule, s: Stores, x: nat)
    requires Coherent(rule, s) && x in s.moved
    ensures x in s.ledger.experiments && x in s.landed
    ensures s.ledger.experiments[x].Accepted?
            || (&& s.attempt.Some? && s.attempt.value.experiment == x && !s.attempt.value.phase.PhaseRunning?
                && s.attempt.value.head == Some(s.landed[x]) && s.attempt.value.promotion.Some?)
  {
    assert MovedFor(s.ledger.experiments, s.attempt, x);
    assert LandedFor(s.ledger.experiments, s.attempt, x, s.landed[x]);
  }

  /** An improvement that is counted is in the history. */
  lemma {:induction false} ImprovedAt(h: seq<MetricEntry>, score: int) returns (k: nat)
    requires ImprovedWith(h, score) > 0
    ensures k < |h| && h[k].verdict.Improved? && h[k].score == score
  {
    var n := |h| - 1;
    if h[n].verdict.Improved? && h[n].score == score {
      k := n;
    } else {
      k := ImprovedAt(h[..n], score);
    }
  }

  /** With no attempt under way, the accepted experiments have the scores of the improvements in the
      metric history, each as often, and the best score is at least as good as every accepted one. */
  lemma BestOfAccepted(rule: Rule, s: Stores, x: nat)
    requires Coherent(rule, s) && s.attempt.None?
    requires x in s.ledger.experiments && s.ledger.experiments[x].Accepted?
    ensures AsGood(rule, s.metric.best, s.ledger.experiments[x].score)
    ensures SameScores(s.ledger.experiments, s.metric.history)
  {
    var score := s.ledger.experiments[x].score;
    assert x in AcceptedWith(s.ledger.experiments, score);
    var k := ImprovedAt(s.metric.history, score);
    BestIsBest(rule, s.metric.history, k);
  }
}
