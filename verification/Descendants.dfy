/**
 Descendant search and promotion of the monitored process broker.  A breadth-first search over the
 parent table yields a snapshot; an identity seen twice is promoted, and a shutdown converges on two
 equal snapshots that are wholly promoted.
 */
module Descendants {
  import opened Basics

  datatype Identity = Identity(pid: nat, pgid: nat, start: int, fingerprint: int)

  datatype Row = Row(pid: nat, parent: nat)

  datatype Candidate = Candidate(identity: Identity, observations: nat)

  datatype Discovery = Snapshot(identities: seq<Identity>) | Transient | Integrity

  datatype Liveness = Matched | Reused | NotRunning | Unknown

  // ---------------------------------------------------------------- reachability

  /** The pids `n + 1` parent links below `root`. */
  ghost function Layer(table: seq<Row>, root: nat, n: nat): set<nat> {
    if n == 0 then set r | r in table && r.parent == root :: r.pid
    else set r | r in table && r.parent in Layer(table, root, n - 1) :: r.pid
  }

  /** `pid` is reached from `root` over one or more parent links. */
  ghost predicate Descends(table: seq<Row>, root: nat, pid: nat) {
    exists n: nat :: pid in Layer(table, root, n)
  }

  ghost predicate Closed(table: seq<Row>, root: nat, pids: set<nat>) {
    forall r :: r in table && (r.parent == root || r.parent in pids) ==> r.pid in pids
  }

  lemma ChildDescends(table: seq<Row>, root: nat, r: Row)
    requires r in table && (r.parent == root || Descends(table, root, r.parent))
    ensures Descends(table, root, r.pid)
  {
    if r.parent == root {
      assert r.pid in Layer(table, root, 0);
    } else {
      var n: nat :| r.parent in Layer(table, root, n);
      assert r.pid in Layer(table, root, n + 1);
    }
  }

  /** A set closed under children holds everything that descends from the root. */
  lemma {:induction false} ClosedHoldsLayer(table: seq<Row>, root: nat, pids: set<nat>, n: nat)
    requires Closed(table, root, pids)
    ensures Layer(table, root, n) <= pids
  {
    if n > 0 {
      ClosedHoldsLayer(table, root, pids, n - 1);
    }
  }

  /** The descendants are the least closed set. */
  lemma DescendantsAreLeast(table: seq<Row>, root: nat, pids: set<nat>, pid: nat)
    requires Closed(table, root, pids) && Descends(table, root, pid)
    ensures pid in pids
  {
    var n: nat :| pid in Layer(table, root, n);
    ClosedHoldsLayer(table, root, pids, n);
  }

  /** The children of a pid in table order. */
  function Children(table: seq<Row>, parent: nat): (c: seq<nat>)
    ensures forall p :: p in c <==> Row(p, parent) in table
  {
    if table == [] then []
    else (if table[0].parent == parent then [table[0].pid] else []) + Children(table[1..], parent)
  }

  // ---------------------------------------------------------------- breadth-first search

  function AllPids(table: seq<Row>): set<nat> {
    set r | r in table :: r.pid
  }

  /** Everything seen or pending descends from the root, and every child of a seen pid is one of them. */
  ghost predicate Frontier(table: seq<Row>, root: nat, seen: set<nat>, pending: seq<nat>) {
    && (forall p :: p in seen || p in pending ==> p in AllPids(table) && Descends(table, root, p))
    && (forall r :: r in table && (r.parent == root || r.parent in seen) ==> r.pid in seen || r.pid in pending)
  }

  lemma FrontierStart(table: seq<Row>, root: nat)
    ensures Frontier(table, root, {}, Children(table, root))
  {
    forall p | p in Children(table, root) ensures p in AllPids(table) && Descends(table, root, p) {
      ChildDescends(table, root, Row(p, root));
    }
    forall r | r in table && r.parent == root ensures r.pid in Children(table, root) {
      assert r == Row(r.pid, root);
    }
  }

  lemma FrontierSkip(table: seq<Row>, root: nat, seen: set<nat>, pending: seq<nat>)
    requires Frontier(table, root, seen, pending) && pending != [] && pending[0] in seen
    ensures Frontier(table, root, seen, pending[1..])
  {
    assert pending == [pending[0]] + pending[1..];
  }

  lemma FrontierVisit(table: seq<Row>, root: nat, seen: set<nat>, pending: seq<nat>)
    requires Frontier(table, root, seen, pending) && pending != [] && pending[0] !in seen
    ensures Frontier(table, root, seen + {pending[0]}, pending[1..] + Children(table, pending[0]))
    ensures |AllPids(table) - (seen + {pending[0]})| < |AllPids(table) - seen|
  {
    var pid := pending[0];
    assert pending == [pid] + pending[1..];
    forall c | c in Children(table, pid) ensures c in AllPids(table) && Descends(table, root, c) {
      ChildDescends(table, root, Row(c, pid));
    }
    forall r | r in table && r.parent == pid ensures r.pid in Children(table, pid) {
      assert r == Row(r.pid, pid);
    }
    assert AllPids(table) - seen == AllPids(table) - (seen + {pid}) + {pid};
  }

  lemma FrontierDone(table: seq<Row>, root: nat, seen: set<nat>)
    requires Frontier(table, root, seen, [])
    ensures forall pid :: pid in seen <==> Descends(table, root, pid)
  {
    forall pid | Descends(table, root, pid) ensures pid in seen {
      DescendantsAreLeast(table, root, seen, pid);
    }
  }

  // ---------------------------------------------------------------- order

  predicate Ascending(s: seq<Identity>) {
    s == [] || ((forall y :: y in s[1..] ==> s[0].pid < y.pid) && Ascending(s[1..]))
  }

  function Insert(x: Identity, s: seq<Identity>): (t: seq<Identity>)
    requires Ascending(s) && (forall y :: y in s ==> y.pid != x.pid)
    ensures Ascending(t) && forall y :: y in t <==> y == x || y in s
  {
    if s == [] then [x]
    else if x.pid < s[0].pid then
      assert ([x] + s)[1..] == s && s == [s[0]] + s[1..];
      [x] + s
    else
      var rest := Insert(x, s[1..]);
      assert ([s[0]] + rest)[1..] == rest;
      assert s == [s[0]] + s[1..];
      [s[0]] + rest
  }

  lemma InsertSet(x: Identity, s: seq<Identity>)
    requires Ascending(s) && (forall y :: y in s ==> y.pid != x.pid)
    ensures ToSet(Insert(x, s)) == ToSet(s) + {x}
  {
  }

  function Pids(s: seq<Identity>): set<nat> {
    set x | x in s :: x.pid
  }

  /** Two ascending lists with the same members are the same list. */
  lemma {:induction false} AscendingUnique(s: seq<Identity>, t: seq<Identity>)
    requires Ascending(s) && Ascending(t) && (forall x :: x in s <==> x in t)
    ensures s == t
  {
    assert (s != [] ==> s[0] in t) && (t != [] ==> t[0] in s);
    if s != [] {
      assert s[0] == t[0];
      assert s == [s[0]] + s[1..] && t == [t[0]] + t[1..];
      assert s[0] !in s[1..] && t[0] !in t[1..];
      forall x ensures x in s[1..] <==> x in t[1..] {
        assert x in s <==> x in t;
      }
      AscendingUnique(s[1..], t[1..]);
    }
  }

  // ---------------------------------------------------------------- the broker

  /** One discovery as it happened: the table it read and what came of it. */
  datatype Observation = Observation(table: seq<Row>, result: Discovery)

  /** A snapshot lists exactly the descendants of the target in its table. */
  ghost predicate Exact(o: Observation, root: nat) {
    o.result.Snapshot? ==>
      Ascending(o.result.identities) && forall pid :: pid in Pids(o.result.identities) <==> Descends(o.table, root, pid)
  }

  lemma {:induction false} LayerSame(table: seq<Row>, other: seq<Row>, root: nat, n: nat)
    requires forall r :: r in table <==> r in other
    ensures Layer(table, root, n) == Layer(other, root, n)
  {
    if n > 0 {
      LayerSame(table, other, root, n - 1);
    }
  }

  /** A snapshot depends on the rows and on the host's answers, not on the order of the rows. */
  lemma SnapshotDetermined(o: Observation, q: Observation, root: nat, capture: map<nat, Identity>)
    requires forall r :: r in o.table <==> r in q.table
    requires o.result.Snapshot? && q.result.Snapshot? && Exact(o, root) && Exact(q, root)
    requires forall i :: i in o.result.identities ==> i.pid in capture && capture[i.pid] == i
    requires forall i :: i in q.result.identities ==> i.pid in capture && capture[i.pid] == i
    ensures o.result == q.result
  {
    var s, t := o.result.identities, q.result.identities;
    forall pid ensures pid in Pids(s) <==> pid in Pids(t) {
      if pid in Pids(s) {
        var n: nat :| pid in Layer(o.table, root, n);
        LayerSame(o.table, q.table, root, n);
      }
      if pid in Pids(t) {
        var n: nat :| pid in Layer(q.table, root, n);
        LayerSame(o.table, q.table, root, n);
      }
    }
    forall x ensures x in s <==> x in t {
      if x in s { assert x.pid in Pids(t); }
      if x in t { assert x.pid in Pids(s); }
    }
    AscendingUnique(s, t);
  }

  /** Promoted and candidate pids never overlap, and a candidate has been seen exactly once. */
  predicate Sound(promoted: map<nat, Identity>, candidates: map<nat, Candidate>) {
    && promoted.Keys !! candidates.Keys
    && (forall p :: p in promoted ==> promoted[p].pid == p)
    && (forall p :: p in candidates ==> candidates[p].identity.pid == p && candidates[p].observations == 1)
  }

  /** No promoted identity was dropped or replaced. */
  predicate KeepsAll(before: map<nat, Identity>, after: map<nat, Identity>) {
    forall p :: p in before ==> p in after && after[p] == before[p]
  }

  /** The identity is recorded, promoted or not, under its pid. */
  predicate Recorded(promoted: map<nat, Identity>, candidates: map<nat, Candidate>, i: Identity) {
    || (i.pid in promoted && promoted[i.pid] == i)
    || (i.pid in candidates && candidates[i.pid].identity == i)
  }

  ghost predicate Accounted(promoted: map<nat, Identity>, candidates: map<nat, Candidate>, sighted: set<Identity>, gone: set<Identity>) {
    forall i :: i in sighted ==> i in gone || Recorded(promoted, candidates, i)
  }

  /** What one sighting that conflicts with nothing does: a new pid becomes a candidate, a candidate is promoted. */
  predicate Sighted(p: map<nat, Identity>, c: map<nat, Candidate>, i: Identity, q: map<nat, Identity>, d: map<nat, Candidate>) {
    if i.pid in p then q == p && d == c && p[i.pid] == i
    else if i.pid in c then q == p[i.pid := i] && d == c - {i.pid} && c[i.pid].identity == i
    else q == p && d == c[i.pid := Candidate(i, 1)]
  }

  /** What has become of a pid: unseen it is as it was, a second sighting promotes it, a first one makes
      it a candidate. */
  predicate Stands(was: map<nat, Identity>, were: map<nat, Candidate>, p: map<nat, Identity>, c: map<nat, Candidate>,
                   pid: nat, seen: bool)
  {
    if !seen then
      (pid in p <==> pid in was) && (pid in c <==> pid in were) && (pid in c ==> c[pid] == were[pid])
    else if pid in was || pid in were then
      pid in p && (pid !in was ==> p[pid] == were[pid].identity)
    else
      pid in c && pid !in p
  }

  /** Where a search stands that began with `was` and `were` and has seen `snapshot`. */
  ghost predicate Progress(was: map<nat, Identity>, were: map<nat, Candidate>,
                           p: map<nat, Identity>, c: map<nat, Candidate>, snapshot: seq<Identity>)
  {
    && Sound(p, c) && KeepsAll(was, p)
    && (forall i :: i in snapshot ==> Recorded(p, c, i))
    && (forall x: nat {:trigger Stands(was, were, p, c, x, x in Pids(snapshot))} :: Stands(was, were, p, c, x, x in Pids(snapshot)))
  }

  /** Whatever is promoted newly was a candidate with the same identity before. */
  lemma OnlyCandidatesPromoted(was: map<nat, Identity>, were: map<nat, Candidate>,
                               p: map<nat, Identity>, c: map<nat, Candidate>, snapshot: seq<Identity>)
    requires Progress(was, were, p, c, snapshot)
    ensures forall x :: x in p && x !in was ==> x in were && p[x] == were[x].identity
  {
    forall x | x in p && x !in was ensures x in were && p[x] == were[x].identity {
      assert Stands(was, were, p, c, x, x in Pids(snapshot));
    }
  }

  /** The host answers about the pid, but not as it is recorded. */
  predicate Disputed(promoted: map<nat, Identity>, candidates: map<nat, Candidate>, capture: map<nat, Identity>, pid: nat) {
    && pid in capture
    && ((pid in promoted && promoted[pid] != capture[pid]) || (pid in candidates && candidates[pid].identity != capture[pid]))
  }

  lemma ProgressSighted(was: map<nat, Identity>, were: map<nat, Candidate>,
                        p: map<nat, Identity>, c: map<nat, Candidate>, snapshot: seq<Identity>, i: Identity,
                        q: map<nat, Identity>, d: map<nat, Candidate>)
    requires Progress(was, were, p, c, snapshot) && Sighted(p, c, i, q, d)
    requires Ascending(snapshot) && i.pid !in Pids(snapshot)
    ensures Progress(was, were, q, d, Insert(i, snapshot))
    ensures Pids(Insert(i, snapshot)) == Pids(snapshot) + {i.pid}
  {
    var t := Insert(i, snapshot);
    forall x ensures x in Pids(t) <==> x in Pids(snapshot) || x == i.pid {
      if x in Pids(snapshot) {
        var y :| y in snapshot && y.pid == x;
        assert y in t;
      }
      if x == i.pid { assert i in t; }
    }
    forall j | j in t ensures Recorded(q, d, j) {
      if j != i {
        assert j in snapshot && j.pid in Pids(snapshot);
        assert Recorded(p, c, j);
      }
    }
    forall x: nat ensures Stands(was, were, q, d, x, x in Pids(t)) {
      assert Stands(was, were, p, c, x, x in Pids(snapshot));
    }
  }

  /** What the host answers about the identity of a pid; without an answer nothing is known. */
  function Answer(host: map<nat, Liveness>, pid: nat): Liveness {
    if pid in host then host[pid] else Unknown
  }

  /** What becomes of a candidate: inside the tree it stays one, outside it stays only if its pid was reused;
      it is forgotten when it does not run, and promoted when it does or may. */
  predicate SealedAs(was: map<nat, Identity>, were: map<nat, Candidate>, tree: set<nat>, host: map<nat, Liveness>,
                     p: map<nat, Identity>, c: map<nat, Candidate>, pid: nat)
  {
    if pid !in were then pid !in c && (pid in p <==> pid in was) && (pid in p ==> p[pid] == was[pid])
    else if pid in tree then pid in c && c[pid] == were[pid] && pid !in p
    else
      match Answer(host, pid)
      case NotRunning => pid !in c && pid !in p
      case Reused => pid in c && c[pid] == were[pid] && pid !in p
      case _ => pid !in c && pid in p && p[pid] == were[pid].identity
  }

  /** While orphans are sealed: a pid left to do is as it was, any other is done. */
  predicate SealedSoFar(was: map<nat, Identity>, were: map<nat, Candidate>, tree: set<nat>, host: map<nat, Liveness>,
                        p: map<nat, Identity>, c: map<nat, Candidate>, todo: set<nat>, pid: nat)
  {
    if pid in todo then pid in were && pid in c && c[pid] == were[pid] && pid !in p
    else SealedAs(was, were, tree, host, p, c, pid)
  }

  ghost predicate Sealing(was: map<nat, Identity>, were: map<nat, Candidate>, tree: set<nat>, host: map<nat, Liveness>,
                          p: map<nat, Identity>, c: map<nat, Candidate>, todo: set<nat>)
  {
    forall x: nat {:trigger SealedSoFar(was, were, tree, host, p, c, todo, x)} :: SealedSoFar(was, were, tree, host, p, c, todo, x)
  }

  lemma SealingStarts(p: map<nat, Identity>, c: map<nat, Candidate>, tree: set<nat>, host: map<nat, Liveness>)
    requires Sound(p, c)
    ensures Sealing(p, c, tree, host, p, c, c.Keys - tree)
  {
  }

  /** One orphan is kept, dropped or promoted. */
  lemma SealOne(was: map<nat, Identity>, were: map<nat, Candidate>, tree: set<nat>, host: map<nat, Liveness>,
                p: map<nat, Identity>, c: map<nat, Candidate>, todo: set<nat>, pid: nat)
    requires Sealing(was, were, tree, host, p, c, todo) && pid in todo && pid !in tree
    ensures pid in were && pid in c && c[pid] == were[pid]
    ensures match Answer(host, pid)
            case NotRunning => Sealing(was, were, tree, host, p, c - {pid}, todo - {pid})
            case Reused => Sealing(was, were, tree, host, p, c, todo - {pid})
            case _ => Sealing(was, were, tree, host, p[pid := were[pid].identity], c - {pid}, todo - {pid})
  {
    assert SealedSoFar(was, were, tree, host, p, c, todo, pid);
    var a := Answer(host, pid);
    var q := if a.NotRunning? || a.Reused? then p else p[pid := were[pid].identity];
    var d := if a.Reused? then c else c - {pid};
    forall x: nat ensures SealedSoFar(was, were, tree, host, q, d, todo - {pid}, x) {
      assert SealedSoFar(was, were, tree, host, p, c, todo, x);
    }
  }

  lemma SealingDone(was: map<nat, Identity>, were: map<nat, Candidate>, tree: set<nat>, host: map<nat, Liveness>,
                    p: map<nat, Identity>, c: map<nat, Candidate>)
    requires Sound(was, were) && Sealing(was, were, tree, host, p, c, {})
    ensures forall x: nat :: SealedAs(was, were, tree, host, p, c, x)
    ensures Sound(p, c) && KeepsAll(was, p)
  {
    forall x: nat ensures SealedAs(was, were, tree, host, p, c, x) {
      assert SealedSoFar(was, were, tree, host, p, c, {}, x);
    }
    forall x | x in p ensures x !in c && p[x].pid == x {
      assert SealedAs(was, were, tree, host, p, c, x);
    }
    forall x | x in c ensures c[x].identity.pid == x && c[x].observations == 1 {
      assert SealedAs(was, were, tree, host, p, c, x);
    }
    forall x | x in was ensures x in p && p[x] == was[x] {
      assert SealedAs(was, were, tree, host, p, c, x);
    }
  }

  /** Those the host reported as not running. */
  function Dead(were: map<nat, Candidate>, tree: set<nat>, host: map<nat, Liveness>): set<Identity> {
    set x | x in were && x !in tree && Answer(host, x).NotRunning? :: were[x].identity
  }

  /** Sealing keeps everybody on record but those. */
  lemma SealingAccounts(was: map<nat, Identity>, were: map<nat, Candidate>, tree: set<nat>, host: map<nat, Liveness>,
                        p: map<nat, Identity>, c: map<nat, Candidate>, sighted: set<Identity>, gone: set<Identity>)
    requires Sound(was, were) && Accounted(was, were, sighted, gone)
    requires forall x: nat :: SealedAs(was, were, tree, host, p, c, x)
    ensures Accounted(p, c, sighted, gone + Dead(were, tree, host))
  {
    forall i | i in sighted && i !in gone + Dead(were, tree, host) ensures Recorded(p, c, i) {
      assert Recorded(was, were, i);
      assert SealedAs(was, were, tree, host, p, c, i.pid);
    }
  }

  /** Where the search of a table stands. */
  ghost predicate Searching(table: seq<Row>, root: nat, capture: map<nat, Identity>,
                            was: map<nat, Identity>, were: map<nat, Candidate>,
                            p: map<nat, Identity>, c: map<nat, Candidate>,
                            snapshot: seq<Identity>, seen: set<nat>, pending: seq<nat>)
  {
    && Frontier(table, root, seen, pending)
    && Progress(was, were, p, c, snapshot)
    && Ascending(snapshot) && Pids(snapshot) == seen
    && forall i :: i in snapshot ==> i.pid in capture && capture[i.pid] == i
  }

  lemma SearchStarts(table: seq<Row>, root: nat, capture: map<nat, Identity>, p: map<nat, Identity>, c: map<nat, Candidate>)
    requires Sound(p, c)
    ensures Searching(table, root, capture, p, c, p, c, [], {}, Children(table, root))
  {
    FrontierStart(table, root);
  }

  lemma SearchSkips(table: seq<Row>, root: nat, capture: map<nat, Identity>,
                    was: map<nat, Identity>, were: map<nat, Candidate>, p: map<nat, Identity>, c: map<nat, Candidate>,
                    snapshot: seq<Identity>, seen: set<nat>, pending: seq<nat>)
    requires Searching(table, root, capture, was, were, p, c, snapshot, seen, pending)
    requires pending != [] && pending[0] in seen
    ensures Searching(table, root, capture, was, were, p, c, snapshot, seen, pending[1..])
  {
    FrontierSkip(table, root, seen, pending);
  }

  /** What is known when a pid is about to be sighted for the first time in this search. */
  lemma SearchMeets(table: seq<Row>, root: nat, capture: map<nat, Identity>,
                    was: map<nat, Identity>, were: map<nat, Candidate>, p: map<nat, Identity>, c: map<nat, Candidate>,
                    snapshot: seq<Identity>, seen: set<nat>, pending: seq<nat>)
    requires Searching(table, root, capture, was, were, p, c, snapshot, seen, pending)
    requires pending != [] && pending[0] !in seen
    ensures Descends(table, root, pending[0])
    ensures pending[0] in capture && capture[pending[0]].pid == pending[0]
            && (pending[0] in p || pending[0] in c) && !Recorded(p, c, capture[pending[0]]) ==>
              Disputed(was, were, capture, pending[0])
    ensures KeepsAll(was, p) && forall x :: x in p && x !in was ==> x in were && p[x] == were[x].identity
  {
    OnlyCandidatesPromoted(was, were, p, c, snapshot);
    assert Stands(was, were, p, c, pending[0], pending[0] in Pids(snapshot));
  }

  lemma SearchVisits(table: seq<Row>, root: nat, capture: map<nat, Identity>,
                     was: map<nat, Identity>, were: map<nat, Candidate>, p: map<nat, Identity>, c: map<nat, Candidate>,
                     snapshot: seq<Identity>, seen: set<nat>, pending: seq<nat>,
                     q: map<nat, Identity>, d: map<nat, Candidate>)
    requires Searching(table, root, capture, was, were, p, c, snapshot, seen, pending)
    requires pending != [] && pending[0] !in seen && pending[0] in capture && capture[pending[0]].pid == pending[0]
    requires Sighted(p, c, capture[pending[0]], q, d)
    ensures var pid := pending[0];
            && Searching(table, root, capture, was, were, q, d, Insert(capture[pid], snapshot), seen + {pid},
                         pending[1..] + Children(table, pid))
            && |AllPids(table) - (seen + {pid})| < |AllPids(table) - seen|
  {
    FrontierVisit(table, root, seen, pending);
    ProgressSighted(was, were, p, c, snapshot, capture[pending[0]], q, d);
  }

  /** What the host answers during one observation: the table, identities by pid, liveness by pid, and the
      pids it refuses to stop. */
  datatype Host = Host(table: seq<Row>, capture: map<nat, Identity>, liveness: map<nat, Liveness>, refused: set<nat>)

  /** A process whose pid was reused, or that is there and cannot be stopped. */
  predicate Unstoppable(h: Host, pid: nat) {
    match Answer(h.liveness, pid)
    case Reused => true
    case Matched => pid in h.refused
    case _ => false
  }

  /** How a search ends.  Nothing promoted is dropped or replaced, and only former candidates are promoted,
      with the same identity.  A snapshot is exact, made of the host's answers, and comes exactly when every
      descendant was answered and none disputed; it is the last sighting of the pids it lists. */
  ghost predicate Concluded(table: seq<Row>, root: nat, capture: map<nat, Identity>,
                            was: map<nat, Identity>, were: map<nat, Candidate>,
                            p: map<nat, Identity>, c: map<nat, Candidate>, d: Discovery)
  {
    && KeepsAll(was, p) && Exact(Observation(table, d), root)
    && (forall x :: x in p && x !in was ==> x in were && p[x] == were[x].identity)
    && match d
       case Transient => exists x :: Descends(table, root, x) && x !in capture
       case Integrity => exists x :: Descends(table, root, x) && Disputed(was, were, capture, x)
       case Snapshot(identities) =>
         && Progress(was, were, p, c, identities)
         && (forall i :: i in identities ==> i.pid in capture && capture[i.pid] == i)
         && !exists x :: Descends(table, root, x) && (x !in capture || Disputed(was, were, capture, x))
  }

  lemma SearchStops(table: seq<Row>, root: nat, capture: map<nat, Identity>,
                    was: map<nat, Identity>, were: map<nat, Candidate>, p: map<nat, Identity>, c: map<nat, Candidate>,
                    snapshot: seq<Identity>, seen: set<nat>, pending: seq<nat>)
    requires Searching(table, root, capture, was, were, p, c, snapshot, seen, pending)
    requires pending != [] && pending[0] !in seen
    ensures pending[0] !in capture ==> Concluded(table, root, capture, was, were, p, c, Transient)
    ensures Disputed(was, were, capture, pending[0]) ==> Concluded(table, root, capture, was, were, p, c, Integrity)
  {
    SearchMeets(table, root, capture, was, were, p, c, snapshot, seen, pending);
  }

  lemma SearchDone(table: seq<Row>, root: nat, capture: map<nat, Identity>,
                   was: map<nat, Identity>, were: map<nat, Candidate>, p: map<nat, Identity>, c: map<nat, Candidate>,
                   snapshot: seq<Identity>, seen: set<nat>)
    requires Searching(table, root, capture, was, were, p, c, snapshot, seen, []) && was.Keys !! were.Keys
    ensures Concluded(table, root, capture, was, were, p, c, Snapshot(snapshot))
  {
    FrontierDone(table, root, seen);
    OnlyCandidatesPromoted(was, were, p, c, snapshot);
    Undisputed(was, were, p, c, snapshot, capture);
  }

  /** What was seen agrees with what was recorded before. */
  lemma Undisputed(was: map<nat, Identity>, were: map<nat, Candidate>,
                   p: map<nat, Identity>, c: map<nat, Candidate>, snapshot: seq<Identity>, capture: map<nat, Identity>)
    requires Progress(was, were, p, c, snapshot) && was.Keys !! were.Keys
    requires forall i :: i in snapshot ==> i.pid in capture && capture[i.pid] == i
    ensures forall pid :: pid in Pids(snapshot) ==> pid in capture && !Disputed(was, were, capture, pid)
  {
    forall pid | pid in Pids(snapshot) ensures pid in capture && !Disputed(was, were, capture, pid) {
      var i :| i in snapshot && i.pid == pid;
      assert Recorded(p, c, i);
      assert Stands(was, were, p, c, pid, pid in Pids(snapshot));
    }
  }

  /** A member that cannot be stopped, or a candidate outside the snapshot whose pid was reused. */
  predicate Opposed(root: nat, snapshot: seq<Identity>, were: map<nat, Candidate>, h: Host) {
    || Unstoppable(h, root) || (exists i :: i in snapshot && Unstoppable(h, i.pid))
    || exists x :: x in were && x !in Pids(snapshot) && Answer(h.liveness, x).Reused?
  }

  /** A search leaves the candidates it did not sight as they were. */
  lemma OrphansUntouched(h: Host, root: nat, was: map<nat, Identity>, were: map<nat, Candidate>,
                         p: map<nat, Identity>, c: map<nat, Candidate>, snapshot: seq<Identity>)
    requires Concluded(h.table, root, h.capture, was, were, p, c, Snapshot(snapshot))
    ensures forall x :: x !in Pids(snapshot) ==> (x in c <==> x in were)
  {
    forall x: nat | x !in Pids(snapshot) ensures x in c <==> x in were {
      assert Stands(was, were, p, c, x, x in Pids(snapshot));
    }
  }

  class Broker {
    const target: Identity
    var promoted: map<nat, Identity>
    var candidates: map<nat, Candidate>
    ghost var log: seq<Observation>
    /** Every identity sighted so far, and those of them the host reported as not running after they had
        left the tree. */
    ghost var sighted: set<Identity>
    ghost var gone: set<Identity>

    constructor (target: Identity)
      ensures Valid() && this.target == target && promoted == map[] && log == [] && sighted == {} && gone == {}
    {
      this.target := target;
      promoted, candidates, log, sighted, gone := map[], map[], [], {}, {};
    }

    /** Whoever was sighted is on record, unless the host reported it gone. */
    ghost predicate Valid()
      reads this
    {
      Sound(promoted, candidates) && Accounted(promoted, candidates, sighted, gone)
    }

    /** One sighting of a descendant: known, conflicting, new, or seen for the second time. */
    method Sight(i: Identity) returns (conflict: bool)
      requires Valid()
      modifies this`promoted, this`candidates, this`sighted
      ensures Valid()
      ensures sighted == if conflict then old(sighted) else old(sighted) + {i}
      ensures conflict <==> (i.pid in old(promoted) || i.pid in old(candidates)) && !Recorded(old(promoted), old(candidates), i)
      ensures if conflict then promoted == old(promoted) && candidates == old(candidates)
              else Sighted(old(promoted), old(candidates), i, promoted, candidates)
    {
      if i.pid in promoted {
        sighted := if promoted[i.pid] == i then sighted + {i} else sighted;
        return promoted[i.pid] != i;
      }
      if i.pid !in candidates {
        candidates, sighted := candidates[i.pid := Candidate(i, 1)], sighted + {i};
        return false;
      }
      var prior := candidates[i.pid];
      if prior.identity != i {
        return true;
      }
      sighted := sighted + {i};
      prior := prior.(observations := prior.observations + 1);
      candidates := candidates[i.pid := prior];
      if prior.observations >= 2 {
        promoted := promoted[i.pid := i];
        candidates := candidates - {i.pid};
      }
      return false;
    }

    /** Sights the first pending pid, unless that ends the search. */
    method Visit(table: seq<Row>, capture: map<nat, Identity>, ghost was: map<nat, Identity>, ghost were: map<nat, Candidate>,
                 snapshot: seq<Identity>, seen: set<nat>, pending: seq<nat>)
      returns (stop: Option<Discovery>)
      requires Valid() && Searching(table, target.pid, capture, was, were, promoted, candidates, snapshot, seen, pending)
      requires pending != [] && pending[0] !in seen && forall p :: p in capture ==> capture[p].pid == p
      modifies this`promoted, this`candidates, this`sighted
      ensures Valid() && old(sighted) <= sighted
      ensures stop.Some? ==> !stop.value.Snapshot? && Concluded(table, target.pid, capture, was, were, promoted, candidates, stop.value)
      ensures stop.None? ==>
                && pending[0] in capture && capture[pending[0]].pid == pending[0]
                && sighted == old(sighted) + {capture[pending[0]]}
                && ToSet(Insert(capture[pending[0]], snapshot)) == ToSet(snapshot) + {capture[pending[0]]}
                && Searching(table, target.pid, capture, was, were, promoted, candidates, Insert(capture[pending[0]], snapshot),
                             seen + {pending[0]}, pending[1..] + Children(table, pending[0]))
                && |AllPids(table) - (seen + {pending[0]})| < |AllPids(table) - seen|
    {
      SearchMeets(table, target.pid, capture, was, were, promoted, candidates, snapshot, seen, pending);
      SearchStops(table, target.pid, capture, was, were, promoted, candidates, snapshot, seen, pending);
      if pending[0] !in capture {
        return Some(Transient);
      }
      InsertSet(capture[pending[0]], snapshot);
      var conflict := Sight(capture[pending[0]]);
      if conflict {
        return Some(Integrity);
      }
      SearchVisits(table, target.pid, capture, was, were, old(promoted), old(candidates), snapshot, seen, pending, promoted, candidates);
      return None;
    }

    /** Searches the parent table breadth first.  `capture` is what the host answers about a pid. */
    method Discover(table: seq<Row>, capture: map<nat, Identity>) returns (d: Discovery)
      requires Valid() && forall p :: p in capture ==> capture[p].pid == p
      modifies this
      ensures Valid() && gone == old(gone) && old(sighted) <= sighted
      ensures Concluded(table, target.pid, capture, old(promoted), old(candidates), promoted, candidates, d)
      ensures d.Snapshot? ==> sighted == old(sighted) + ToSet(d.identities)
      ensures log == old(log) + [Observation(table, d)]
    {
      d := Search(table, capture);
      log := log + [Observation(table, d)];
    }

    method Search(table: seq<Row>, capture: map<nat, Identity>) returns (d: Discovery)
      requires Valid() && forall p :: p in capture ==> capture[p].pid == p
      modifies this`promoted, this`candidates, this`sighted
      ensures Valid() && old(sighted) <= sighted
      ensures Concluded(table, target.pid, capture, old(promoted), old(candidates), promoted, candidates, d)
      ensures d.Snapshot? ==> sighted == old(sighted) + ToSet(d.identities)
    {
      var pending := Children(table, target.pid);
      var seen: set<nat> := {};
      var snapshot: seq<Identity> := [];
      ghost var was, were := promoted, candidates;
      SearchStarts(table, target.pid, capture, was, were);
      while pending != []
        invariant Valid() && sighted == old(sighted) + ToSet(snapshot)
        invariant Searching(table, target.pid, capture, was, were, promoted, candidates, snapshot, seen, pending)
        decreases |AllPids(table) - seen|, |pending|
      {
        var pid := pending[0];
        if pid in seen {
          SearchSkips(table, target.pid, capture, was, were, promoted, candidates, snapshot, seen, pending);
          pending := pending[1..];
          continue;
        }
        var stop := Visit(table, capture, was, were, snapshot, seen, pending);
        if stop.Some? {
          return stop.value;
        }
        pending := pending[1..] + Children(table, pid);
        snapshot := Insert(capture[pid], snapshot);
        seen := seen + {pid};
      }
      SearchDone(table, target.pid, capture, was, were, promoted, candidates, snapshot, seen);
      d := Snapshot(snapshot);
    }

    // -------------------------------------------------------------- shutdown

    /** Stops the target and every member of the snapshot; a reused pid or a refused signal is a conflict. */
    method Freeze(snapshot: seq<Identity>, h: Host) returns (conflict: bool)
      ensures conflict <==> Unstoppable(h, target.pid) || exists i :: i in snapshot && Unstoppable(h, i.pid)
    {
      conflict := false;
      var tree := [target] + snapshot;
      for k := 0 to |tree|
        invariant conflict <==> exists i :: i in tree[..k] && Unstoppable(h, i.pid)
      {
        assert tree[..k + 1] == tree[..k] + [tree[k]];
        var liveness := Answer(h.liveness, tree[k].pid);
        if liveness.Reused? || (liveness.Matched? && tree[k].pid in h.refused) {
          conflict := true;
        }
      }
      assert tree[..|tree|] == tree;
    }

    /** Candidates that left the tree are dropped when they are gone and promoted when they live on.  `host`
        is what the host answers about their identities. */
    method SealOrphans(snapshot: seq<Identity>, host: map<nat, Liveness>) returns (conflict: bool)
      requires Valid()
      modifies this`promoted, this`candidates, this`gone
      ensures Valid() && KeepsAll(old(promoted), promoted)
      ensures forall x: nat :: SealedAs(old(promoted), old(candidates), Pids(snapshot), host, promoted, candidates, x)
      ensures conflict <==> exists x :: x in old(candidates) && x !in Pids(snapshot) && Answer(host, x).Reused?
      ensures gone == old(gone) + Dead(old(candidates), Pids(snapshot), host)
    {
      conflict := false;
      ghost var tree := Pids(snapshot);
      var todo := candidates.Keys - Pids(snapshot);
      SealingStarts(promoted, candidates, tree, host);
      while todo != {}
        invariant todo <= old(candidates).Keys - tree && gone == old(gone)
        invariant Sealing(old(promoted), old(candidates), tree, host, promoted, candidates, todo)
        invariant conflict <==> exists x :: x in old(candidates) && x !in tree && x !in todo && Answer(host, x).Reused?
        decreases |todo|
      {
        var pid :| pid in todo;
        SealOne(old(promoted), old(candidates), tree, host, promoted, candidates, todo, pid);
        todo := todo - {pid};
        match Answer(host, pid) {
          case Reused => conflict := true;
          case NotRunning => candidates := candidates - {pid};
          case _ => promoted, candidates := promoted[pid := candidates[pid].identity], candidates - {pid};
        }
      }
      SealingDone(old(promoted), old(candidates), tree, host, promoted, candidates);
      SealingAccounts(old(promoted), old(candidates), tree, host, promoted, candidates, sighted, gone);
      gone := gone + Dead(old(candidates), tree, host);
    }

    /** The last two observations agree on a snapshot that is wholly promoted, and nothing is undecided. */
    ghost predicate Converged()
      reads this
    {
      && candidates == map[] && |log| >= 2
      && var last, before := log[|log| - 1], log[|log| - 2];
         && last.result.Snapshot? && before.result == last.result
         && Exact(last, target.pid) && Exact(before, target.pid)
         && (forall i :: i in last.result.identities ==> i.pid in promoted && promoted[i.pid] == i)
         && forall i :: i in sighted ==> i in gone || (i.pid in promoted && promoted[i.pid] == i)
    }

    /** A host, with every pid answered under itself. */
    method AnyHost() returns (h: Host)
      ensures forall p :: p in h.capture ==> h.capture[p].pid == p
    {
      var any: Host := *;
      h := any.(capture := map p | p in any.capture && any.capture[p].pid == p :: any.capture[p]);
    }

    /** The previous snapshot is the result of the last observation. */
    ghost predicate Remembered(previous: Option<seq<Identity>>)
      reads this
    {
      previous.Some? ==>
        log != [] && log[|log| - 1].result == Snapshot(previous.value) && Exact(log[|log| - 1], target.pid)
    }

    /** Freezes the tree and seals the candidates outside it. */
    method Seize(snapshot: seq<Identity>, h: Host) returns (conflict: bool)
      requires Valid()
      modifies this`promoted, this`candidates, this`gone
      ensures Valid() && KeepsAll(old(promoted), promoted)
      ensures conflict <==> Opposed(target.pid, snapshot, old(candidates), h)
    {
      var refused := Freeze(snapshot, h);
      var reused := SealOrphans(snapshot, h.liveness);
      conflict := refused || reused;
    }

    /** One discovery: agreement, a conflict, or another snapshot to compare with. */
    method Observe(previous: Option<seq<Identity>>, h: Host) returns (stable: bool, conflict: bool, next: Option<seq<Identity>>)
      requires Valid() && Remembered(previous) && forall p :: p in h.capture ==> h.capture[p].pid == p
      modifies this
      ensures Valid() && KeepsAll(old(promoted), promoted) && old(sighted) <= sighted
      ensures exists d :: log == old(log) + [Observation(h.table, d)]
                && (d.Snapshot? ==> ToSet(d.identities) <= sighted)
                && next == (if d.Snapshot? then Some(d.identities) else None)
                && (conflict <==> d.Integrity? || (d.Snapshot? && Opposed(target.pid, d.identities, old(candidates), h)))
      ensures Remembered(next)
      ensures stable ==> Converged()
      ensures stable <==> !conflict && next.Some? && next == previous && candidates == map[]
                          && forall i :: i in next.value ==> i.pid in promoted && promoted[i.pid] == i
    {
      stable, conflict, next := false, false, None;
      ghost var were := candidates;
      var d := Discover(h.table, h.capture);
      match d {
        case Integrity => conflict := true;
        case Transient =>
        case Snapshot(snapshot) =>
          OrphansUntouched(h, target.pid, old(promoted), were, promoted, candidates, snapshot);
          conflict := Seize(snapshot, h);
          var whole := forall i :: i in snapshot ==> i.pid in promoted && promoted[i.pid] == i;
          stable := !conflict && previous == Some(snapshot) && candidates == map[] && whole;
          next := Some(snapshot);
      }
    }

    /** Repeats discovery until two snapshots in a row agree or a conflict is found, or the broker stops trying
        after `passes`.  An epoch that ends without agreement forgets the snapshot before. */
    method Converge(passes: nat) returns (stable: bool, conflict: bool)
      requires Valid()
      modifies this
      ensures Valid() && KeepsAll(old(promoted), promoted) && old(log) <= log && old(sighted) <= sighted
      ensures forall k :: |old(log)| <= k < |log| && log[k].result.Snapshot? ==> ToSet(log[k].result.identities) <= sighted
      ensures stable ==> Converged() && !conflict
      ensures forall k :: |old(log)| <= k < |log| && log[k].result.Integrity? ==> conflict && k == |log| - 1
      ensures !stable && !conflict ==> |log| == |old(log)| + passes
    {
      stable, conflict := false, false;
      var previous: Option<seq<Identity>> := None;
      for k := 0 to passes
        invariant Valid() && KeepsAll(old(promoted), promoted) && old(log) <= log && old(sighted) <= sighted
        invariant forall k :: |old(log)| <= k < |log| && log[k].result.Snapshot? ==> ToSet(log[k].result.identities) <= sighted
        invariant forall k :: |old(log)| <= k < |log| ==> !log[k].result.Integrity?
        invariant !stable && !conflict && |log| == |old(log)| + k
        invariant Remembered(previous)
      {
        var h := AnyHost();
        stable, conflict, previous := Observe(previous, h);
        if stable || conflict { return; }
        if * { previous := None; }
      }
    }
  }
}
