/**
 The adoption watchdog: boot reconciliation, reservation, dispatch and restart, over a process that
 may die before any durable write and start again any number of times.  Clocks, domain evidence,
 the launch record, acknowledgements and the success of a strategy are arbitrary at every read.
 */
module AdoptionWatch {
  import opened Basics
  import opened WatchStrategies
  import opened MaterialLedger

  datatype WatchError = LedgerFailed(ledger: LedgerError) | StrategyFailed(strategy: Error)

  predicate Usable(cfg: Config) {
    Distinct(cfg.catalogue) && 0 < |cfg.catalogue| <= cfg.bound
  }

  // ---------------------------------------------------------------- reservations per evidence

  predicate Reserved(cfg: Config, known: set<Digest>, evidence: Digest, i: int)
    requires 0 <= i < |cfg.catalogue|
  {
    MaterialHash(cfg.catalogue[i], evidence) in known
  }

  /** Exactly the first `n` strategies of the catalogue are reserved for `evidence`. */
  predicate FirstReserved(cfg: Config, known: set<Digest>, evidence: Digest, n: int) {
    0 <= n <= |cfg.catalogue| && forall i :: 0 <= i < |cfg.catalogue| ==> (Reserved(cfg, known, evidence, i) <==> i < n)
  }

  predicate DownClosed(cfg: Config, known: set<Digest>, evidence: Digest) {
    forall i, j :: 0 <= i < j < |cfg.catalogue| && Reserved(cfg, known, evidence, j) ==> Reserved(cfg, known, evidence, i)
  }

  /** The reservations of every evidence form an initial segment of the catalogue. */
  ghost predicate Segmented(cfg: Config, known: set<Digest>) {
    forall evidence :: DownClosed(cfg, known, evidence)
  }

  /** The first unreserved strategy at or after `from`; the catalogue length when there is none. */
  function FirstMissing(cfg: Config, used: set<Digest>, evidence: Digest, from: nat): (n: nat)
    requires from <= |cfg.catalogue|
    ensures from <= n <= |cfg.catalogue|
    ensures forall i :: from <= i < n ==> Reserved(cfg, used, evidence, i)
    ensures n < |cfg.catalogue| ==> !Reserved(cfg, used, evidence, n)
    decreases |cfg.catalogue| - from
  {
    if from == |cfg.catalogue| || !Reserved(cfg, used, evidence, from) then from
    else FirstMissing(cfg, used, evidence, from + 1)
  }

  /** A strategy after the first missing one is reserved. */
  predicate Gap(cfg: Config, used: set<Digest>, evidence: Digest) {
    var first := FirstMissing(cfg, used, evidence, 0);
    exists j | first < j < |cfg.catalogue| :: Reserved(cfg, used, evidence, j)
  }

  function CursorFor(cfg: Config, used: set<Digest>, evidence: Digest): int {
    if Gap(cfg, used, evidence) then |cfg.catalogue| else FirstMissing(cfg, used, evidence, 0)
  }

  function MaterialsFor(cfg: Config, used: set<Digest>, evidence: Digest, upto: nat): seq<Digest>
    requires upto <= |cfg.catalogue|
  {
    if upto == 0 then []
    else
      MaterialsFor(cfg, used, evidence, upto - 1)
      + (if Reserved(cfg, used, evidence, upto - 1) then [MaterialHash(cfg.catalogue[upto - 1], evidence)] else [])
  }

  /** The material of one of the first `upto` strategies on this evidence. */
  predicate OfCatalogue(cfg: Config, evidence: Digest, upto: nat, m: Digest)
    requires upto <= |cfg.catalogue|
  {
    exists i | 0 <= i < upto :: m == MaterialOf(cfg.catalogue[i], evidence, ConstraintsOf(cfg.catalogue[i]))
  }

  lemma {:induction false} MaterialsForShape(cfg: Config, used: set<Digest>, evidence: Digest, upto: nat)
    requires Distinct(cfg.catalogue) && upto <= |cfg.catalogue|
    ensures Distinct(MaterialsFor(cfg, used, evidence, upto))
    ensures forall m :: m in MaterialsFor(cfg, used, evidence, upto) <==> m in used && OfCatalogue(cfg, evidence, upto, m)
  {
    if upto > 0 {
      MaterialsForShape(cfg, used, evidence, upto - 1);
      DistinctSnoc(MaterialsFor(cfg, used, evidence, upto - 1), MaterialHash(cfg.catalogue[upto - 1], evidence));
    }
  }

  /** Over an initial segment the gap branch is dead and the cursor is the first unreserved strategy. */
  lemma SegmentCursor(cfg: Config, used: set<Digest>, evidence: Digest)
    requires DownClosed(cfg, used, evidence)
    ensures !Gap(cfg, used, evidence)
    ensures FirstReserved(cfg, used, evidence, CursorFor(cfg, used, evidence))
  {
    var first := FirstMissing(cfg, used, evidence, 0);
    forall j | first < j < |cfg.catalogue| ensures !Reserved(cfg, used, evidence, j) {
      assert !Reserved(cfg, used, evidence, first);
    }
  }

  function StateMaterials(s: State): set<Digest> {
    ToSet(s.base.body.used) + (set e <- s.history :: e.body.attempt.material)
    + (if s.active.Some? then {s.active.value.material} else {})
  }

  /** A state that can no longer reserve anything. */
  predicate Spent(cfg: Config, s: State) {
    StateLaunched(s) || s.cursor >= |cfg.catalogue|
  }

  /** The cursor of a state that is not spent points at the first strategy not yet reserved, or just reserved. */
  predicate Slotted(cfg: Config, known: set<Digest>, s: State) {
    Spent(cfg, s) ||
    (FirstReserved(cfg, known, s.base.body.evidence, s.cursor) && s.active.None?)
    || FirstReserved(cfg, known, s.base.body.evidence, s.cursor + 1)
  }

  predicate StateFits(cfg: Config, known: set<Digest>, s: State) {
    Valid(cfg, s) && StateMaterials(s) <= known && Slotted(cfg, known, s)
  }

  /** What the watchdog holds in memory between two turns of its loop. */
  datatype Memory = Memory(state: State, refs: seq<State>, action: Option<Digest>)

  predicate RefsFit(known: set<Digest>, refs: seq<State>) {
    forall s <- refs :: StateMaterials(s) <= known
  }

  /** How the last published state may lag behind the one in memory without losing track of a slot. */
  predicate Lags(cfg: Config, published: State, m: Memory) {
    || Spent(cfg, published)
    || published == m.state
    || (if published.base.body.evidence != m.state.base.body.evidence then m.action.None?
        else Spent(cfg, m.state) || (published.cursor == m.state.cursor && published.active.None?))
  }

  predicate CleanFiles(cfg: Config, files: Markers, manifest: Manifest) {
    && FilesValid(cfg, files)
    && (manifest.Absent? || (Readable(cfg, manifest) && manifest.entries.Keys <= files.Keys
                             && forall k <- manifest.entries :: manifest.entries[k] == files[k]))
  }

  ghost predicate AuthorityFits(cfg: Config, files: Markers, a: Authority) {
    && StateFits(cfg, files.Keys, a.state)
    && Distinct(MaterialsOf(a.expected)) && (forall m <- a.expected :: m.material in files && files[m.material] == m)
  }

  /** What holds at every crash point of every process. */
  ghost predicate Inv(cfg: Config, dir: SessionDir)
    reads dir
  {
    && !dir.stray && CleanFiles(cfg, dir.files, dir.manifest)
    && Segmented(cfg, dir.files.Keys)
    && Distinct(dir.dispatched) && ToSet(dir.dispatched) <= dir.files.Keys
    && (dir.authority.Some? ==> AuthorityFits(cfg, dir.files, dir.authority.value))
    && (dir.status.Some? ==> dir.authority.Some? && RefsFit(dir.files.Keys, dir.status.value.refs))
  }

  ghost predicate MemoryFits(cfg: Config, dir: SessionDir, m: Memory)
    reads dir
  {
    && StateFits(cfg, dir.files.Keys, m.state)
    && RefsFit(dir.files.Keys, m.refs)
    && (dir.authority.Some? ==> Lags(cfg, dir.authority.value.state, m))
  }

  // ---------------------------------------------------------------- the ledger in crash-only runs

  lemma CleanMerge(cfg: Config, files: Markers, manifest: Manifest)
    requires CleanFiles(cfg, files, manifest)
    ensures Merge(files, Entries(cfg, manifest)) == files && !Conflicting(files, Entries(cfg, manifest))
    ensures Entries(cfg, manifest).Keys <= files.Keys
    ensures CleanFiles(cfg, files, Present(files, true))
  {
  }

  /** The manifest once it holds all marker files. */
  function Whole(files: Markers, manifest: Manifest): Manifest {
    if files == map[] && manifest.Absent? then Absent else Present(files, true)
  }

  /** Without tampering, reconciliation never fails and never changes a marker file. */
  method CleanReconcile(cfg: Config, dir: SessionDir) returns (r: Ended<Ledger, LedgerError>)
    requires Inv(cfg, dir)
    modifies dir`files, dir`manifest
    ensures Inv(cfg, dir) && !r.Threw? && dir.files == old(dir.files)
    ensures r.Returned? ==> r.value.markers == dir.files && !r.value.integrityConflict
    ensures r.Returned? ==> dir.manifest == Whole(dir.files, old(dir.manifest)) && (r.value.repaired <==> dir.manifest != old(dir.manifest))
    ensures dir.calm ==> !r.Crashed?
  {
    CleanMerge(cfg, dir.files, dir.manifest);
    ghost var files := dir.files;
    r := Reconcile(cfg, dir);
    assert dir.files == files;
  }

  /** Every material the watchdog may not use again. */
  method UsedMaterials(cfg: Config, dir: SessionDir, refs: seq<State>) returns (r: Ended<set<Digest>, WatchError>)
    requires Inv(cfg, dir) && RefsFit(dir.files.Keys, refs)
    modifies dir`files, dir`manifest
    ensures Inv(cfg, dir) && !r.Threw? && dir.files == old(dir.files)
    ensures r.Returned? ==> r.value == dir.files.Keys
    ensures dir.calm ==> !r.Crashed?
  {
    var ledger := CleanReconcile(cfg, dir);
    if ledger.Crashed? {
      return Crashed;
    }
    var used := ledger.value.markers.Keys;
    var i := 0;
    while i < |refs|
      invariant 0 <= i <= |refs|
      invariant used == dir.files.Keys
    {
      used := used + ToSet(refs[i].base.body.used) + (set e <- refs[i].history :: e.body.attempt.material);
      assert StateMaterials(refs[i]) <= dir.files.Keys;
      i := i + 1;
    }
    return Returned(used);
  }

  /** Authority first, then status: a status never exists without an authority. */
  method Persist(cfg: Config, dir: SessionDir, m: Memory) returns (crashed: bool)
    requires Usable(cfg) && Inv(cfg, dir) && StateFits(cfg, dir.files.Keys, m.state) && RefsFit(dir.files.Keys, m.refs)
    modifies dir`files, dir`manifest, dir`authority, dir`status
    ensures Inv(cfg, dir) && dir.files == old(dir.files)
    ensures !crashed ==> dir.authority.Some? && dir.authority.value.state == m.state && dir.authority.value.action == m.action
    ensures !crashed ==> dir.status == Some(Status(m.state, m.refs, m.action))
    ensures dir.authority == old(dir.authority) || (dir.authority.Some? && dir.authority.value.state == m.state)
    ensures dir.calm ==> !crashed
  {
    crashed := PublishAuthority(cfg, dir, m);
    if crashed {
      return;
    }
    if * {
      if !dir.calm { return true; }
    }
    dir.status := Some(Status(m.state, m.refs, m.action));
  }

  method PublishAuthority(cfg: Config, dir: SessionDir, m: Memory) returns (crashed: bool)
    requires Usable(cfg) && Inv(cfg, dir) && StateFits(cfg, dir.files.Keys, m.state)
    modifies dir`files, dir`manifest, dir`authority
    ensures Inv(cfg, dir) && dir.files == old(dir.files)
    ensures !crashed ==> dir.authority.Some? && dir.authority.value.state == m.state && dir.authority.value.action == m.action
    ensures !crashed ==> ToSet(MaterialsOf(dir.authority.value.expected)) == dir.files.Keys
    ensures crashed ==> dir.authority == old(dir.authority)
    ensures dir.calm ==> !crashed
  {
    var ledger := CleanReconcile(cfg, dir);
    if ledger.Crashed? {
      return true;
    }
    var expected := ListedReservations(cfg, dir, ledger.value.markers);
    if * {
      if !dir.calm { return true; }
    }
    SetAuthority(cfg, dir, Authority(m.state, expected, m.action));
    return false;
  }

  /** Every reservation, each once. */
  method ListedReservations(cfg: Config, dir: SessionDir, markers: Markers) returns (expected: seq<Marker>)
    requires markers == dir.files && FilesValid(cfg, dir.files)
    ensures Distinct(MaterialsOf(expected)) && ToSet(MaterialsOf(expected)) == dir.files.Keys
    ensures forall m <- expected :: m.material in dir.files && dir.files[m.material] == m
  {
    assert forall k <- markers :: FiledUnder(cfg, k, markers[k]);
    expected := Listed(markers);
  }

  /** The write of an authority that fits the files. */
  method SetAuthority(cfg: Config, dir: SessionDir, a: Authority)
    requires Inv(cfg, dir) && AuthorityFits(cfg, dir.files, a)
    modifies dir`authority
    ensures Inv(cfg, dir) && dir.authority == Some(a)
  {
    dir.authority := Some(a);
  }

  // ---------------------------------------------------------------- reserving one more strategy

  /** The slot of a state that can begin an attempt. */
  lemma ReserveOne(cfg: Config, known: set<Digest>, s: State, material: Digest)
    requires Distinct(cfg.catalogue) && Valid(cfg, s) && !Spent(cfg, s) && Slotted(cfg, known, s)
    requires material == MaterialHash(cfg.catalogue[s.cursor], s.base.body.evidence) && material !in known
    requires Segmented(cfg, known)
    ensures FirstReserved(cfg, known, s.base.body.evidence, s.cursor)
    ensures FirstReserved(cfg, known + {material}, s.base.body.evidence, s.cursor + 1)
    ensures Segmented(cfg, known + {material})
  {
    var at := s.base.body.evidence;
    assert !Reserved(cfg, known, at, s.cursor);
    forall evidence, i | 0 <= i < |cfg.catalogue|
      ensures Reserved(cfg, known + {material}, evidence, i)
         <==> Reserved(cfg, known, evidence, i) || (evidence == at && i == s.cursor)
    {
    }
    forall evidence ensures DownClosed(cfg, known + {material}, evidence) {
      assert DownClosed(cfg, known, evidence);
    }
  }

  /** A published state that lags as allowed still fits after the reservation. */
  lemma PublishedStillFits(cfg: Config, known: set<Digest>, published: State, m: Memory, material: Digest)
    requires Distinct(cfg.catalogue) && Segmented(cfg, known)
    requires StateFits(cfg, known, m.state) && !Spent(cfg, m.state) && m.state.active.None?
    requires StateFits(cfg, known, published) && Lags(cfg, published, m)
    requires material == MaterialHash(cfg.catalogue[m.state.cursor], m.state.base.body.evidence) && material !in known
    ensures StateFits(cfg, known + {material}, published)
  {
    ReserveOne(cfg, known, m.state, material);
    if !Spent(cfg, published) && published.base.body.evidence != m.state.base.body.evidence {
      forall i | 0 <= i < |cfg.catalogue|
        ensures Reserved(cfg, known + {material}, published.base.body.evidence, i)
           <==> Reserved(cfg, known, published.base.body.evidence, i)
      {
      }
    }
  }

  lemma CleanAfterAdd(cfg: Config, files: Markers, manifest: Manifest, marker: Marker)
    requires CleanFiles(cfg, files, manifest) && ValidMarker(cfg, marker) && marker.material !in files
    ensures CleanFiles(cfg, files, Present(files, true))
    ensures CleanFiles(cfg, files[marker.material := marker], manifest)
    ensures CleanFiles(cfg, files[marker.material := marker], Present(files, true))
    ensures CleanFiles(cfg, files[marker.material := marker], Present(files[marker.material := marker], true))
  {
  }

  lemma CleanLeaves(cfg: Config, files: Markers, manifest: Manifest, marker: Marker, files': Markers, manifest': Manifest)
    requires CleanFiles(cfg, files, manifest) && ValidMarker(cfg, marker) && marker.material !in files
    requires RecordLeaves(cfg, files, manifest, marker, files', manifest')
    ensures CleanFiles(cfg, files', manifest')
    ensures files' == files || files' == files[marker.material := marker]
  {
    CleanMerge(cfg, files, manifest);
    if files' != files[marker.material := marker] {
      assert files' == files;
    }
    CleanAfterAdd(cfg, files, manifest, marker);
  }

  /** Without tampering, recording a new attempt either adds its marker or, crashing, adds nothing. */
  method CleanRecord(cfg: Config, dir: SessionDir, attempt: Attempt) returns (crashed: bool)
    requires !dir.stray && CleanFiles(cfg, dir.files, dir.manifest)
    requires ValidMarker(cfg, MarkerFor(attempt)) && attempt.material !in dir.files
    modifies dir`files, dir`manifest
    ensures CleanFiles(cfg, dir.files, dir.manifest)
    ensures dir.files == old(dir.files)[attempt.material := MarkerFor(attempt)] || (crashed && dir.files == old(dir.files))
    ensures dir.calm ==> !crashed
  {
    CleanMerge(cfg, dir.files, dir.manifest);
    assert !dir.Broken(cfg);
    var r := Record(cfg, dir, attempt);
    CleanLeaves(cfg, old(dir.files), old(dir.manifest), MarkerFor(attempt), dir.files, dir.manifest);
    return r.Crashed?;
  }

  lemma AuthorityFitsMore(cfg: Config, files: Markers, a: Authority, marker: Marker)
    requires AuthorityFits(cfg, files, a) && marker.material !in files
    requires StateFits(cfg, files.Keys + {marker.material}, a.state)
    ensures AuthorityFits(cfg, files[marker.material := marker], a)
  {
    assert files[marker.material := marker].Keys == files.Keys + {marker.material};
  }

  /** The durable reservation that precedes every dispatch. */
  method Reserve(cfg: Config, dir: SessionDir, m: Memory, attempt: Attempt) returns (crashed: bool)
    requires Usable(cfg) && Inv(cfg, dir) && MemoryFits(cfg, dir, m) && !Spent(cfg, m.state) && m.state.active.None?
    requires attempt == AttemptAt(cfg, m.state, attempt.startedAt) && attempt.material !in dir.files
    modifies dir`files, dir`manifest
    ensures Inv(cfg, dir)
    ensures old(dir.files).Keys <= dir.files.Keys
    ensures !crashed ==> dir.files.Keys == old(dir.files).Keys + {attempt.material} && AttemptOf(dir.files[attempt.material]) == attempt
    ensures !crashed ==> FirstReserved(cfg, dir.files.Keys, m.state.base.body.evidence, m.state.cursor + 1)
    ensures dir.calm ==> !crashed
  {
    ghost var files := dir.files;
    ReserveOne(cfg, files.Keys, m.state, attempt.material);
    if dir.authority.Some? {
      PublishedStillFits(cfg, files.Keys, dir.authority.value.state, m, attempt.material);
      AuthorityFitsMore(cfg, files, dir.authority.value, MarkerFor(attempt));
    }
    crashed := CleanRecord(cfg, dir, attempt);
    assert dir.files == files || dir.files.Keys == files.Keys + {attempt.material};
  }

  // ---------------------------------------------------------------- one attempt

  lemma FinishFits(cfg: Config, known: set<Digest>, s: State, outcome: Outcome, signature: Option<string>, finishedAt: int)
    requires Usable(cfg) && StateFits(cfg, known, s) && s.active.Some?
    requires FirstReserved(cfg, known, s.base.body.evidence, s.cursor + 1)
    ensures var f := Finished(cfg, s, outcome, signature, finishedAt);
            f.Ok? && StateFits(cfg, known, f.value) && f.value.active.None?
            && StateLaunched(f.value) == outcome.Launched? && f.value.base == s.base && Shows(f.value, s.active.value)
  {
    ValidShape(cfg, s);
    FinishValidIff(cfg, s, outcome, signature, finishedAt);
    FinishWithRoom(cfg, s, outcome, signature, finishedAt);
    var f := Finished(cfg, s, outcome, signature, finishedAt).value;
    var e := NextEntry(s, outcome, signature, finishedAt);
    assert f.history == s.history + [e];
    assert StateMaterials(f) <= StateMaterials(s);
  }

  lemma BeginFits(cfg: Config, known: set<Digest>, s: State, evidence: Digest, startedAt: int, prior: set<Digest>)
    requires Distinct(cfg.catalogue) && StateFits(cfg, known, s) && s.active.None?
    requires Begin(cfg, s, evidence, startedAt, prior).Ok?
    requires FirstReserved(cfg, known, s.base.body.evidence, s.cursor + 1)
    ensures var b := Begin(cfg, s, evidence, startedAt, prior).value;
            && StateFits(cfg, known, b) && b.active == Some(AttemptAt(cfg, s, startedAt))
            && b.base == s.base && b.cursor == s.cursor
  {
    BeginKeepsValid(cfg, s, evidence, startedAt, prior);
    assert Reserved(cfg, known, s.base.body.evidence, s.cursor);
  }

  /** The published state is `s` with one entry more for its active attempt, with this outcome; a launch comes
      without a signature, a failure with one. */
  ghost predicate Concluded(cfg: Config, s: State, t: State, outcome: Outcome)
    requires s.active.Some?
  {
    exists signature: Option<string>, finishedAt ::
      Appended(cfg, s, t, outcome, signature, finishedAt) && (signature.None? <==> outcome.Launched?)
  }

  /** The attempt is under way in the state, or is the last one of its history. */
  predicate Shows(s: State, a: Attempt) {
    s.active == Some(a) || (s.history != [] && s.history[|s.history| - 1].body.attempt == a)
  }

  /** Execute the published attempt and publish its outcome; `None` is a launch. */
  method Dispatch(cfg: Config, dir: SessionDir, m: Memory) returns (r: Ended<Option<Memory>, WatchError>)
    requires Usable(cfg) && Inv(cfg, dir) && StateFits(cfg, dir.files.Keys, m.state) && RefsFit(dir.files.Keys, m.refs)
    requires m.state.active.Some? && FirstReserved(cfg, dir.files.Keys, m.state.base.body.evidence, m.state.cursor + 1)
    requires m.state.active.value.material !in dir.dispatched
    requires dir.authority.Some? && dir.authority.value.state == m.state
    modifies dir`files, dir`manifest, dir`authority, dir`status, dir`dispatched
    ensures Inv(cfg, dir) && dir.files == old(dir.files) && !r.Threw?
    ensures dir.dispatched == old(dir.dispatched) + [m.state.active.value.material]
    ensures dir.authority.Some? && Shows(dir.authority.value.state, m.state.active.value)
    ensures r.Returned? && r.value.Some? ==> MemoryFits(cfg, dir, r.value.value)
    ensures r.Returned? ==> 
              dir.authority.Some? && Concluded(cfg, m.state, dir.authority.value.state, if r.value.None? then Launched else Failed)
    ensures r.Returned? && r.value.Some? ==> r.value.value == m.(state := dir.authority.value.state)
    ensures dir.calm ==> !r.Crashed?
  {
    DistinctSnoc(dir.dispatched, m.state.active.value.material);
    dir.dispatched := dir.dispatched + [m.state.active.value.material];
    if * {
      if !dir.calm { return Crashed; }
    }
    var launched: bool, finishedAt: int, signature: string := *, *, *;
    var outcome, reason := if launched then Launched else Failed, if launched then None else Some(signature);
    FinishFits(cfg, dir.files.Keys, m.state, outcome, reason, finishedAt);
    var f := Finish(cfg, m.state, outcome, reason, finishedAt);
    var next := m.(state := f.value);
    assert Concluded(cfg, m.state, next.state, outcome);
    var crashed := Persist(cfg, dir, next);
    if crashed {
      return Crashed;
    }
    return Returned(if launched then None else Some(next));
  }

  /** The material of the strategy at the cursor. */
  function NextMaterial(cfg: Config, s: State): Digest
    requires 0 <= s.cursor < |cfg.catalogue|
  {
    MaterialOf(cfg.catalogue[s.cursor], s.base.body.evidence, ConstraintsOf(cfg.catalogue[s.cursor]))
  }

  /**
   Reserve, publish, execute, publish the outcome.  The material that is executed was not reserved
   before this call and is reserved durably before it runs.  `Some` is the memory to go on with,
   `None` a launch.
   */
  method AttemptStrategy(cfg: Config, dir: SessionDir, m: Memory, evidence: Digest, startedAt: int) returns (r: Ended<Option<Memory>, WatchError>)
    requires Usable(cfg) && Inv(cfg, dir) && MemoryFits(cfg, dir, m) && !Spent(cfg, m.state)
    modifies dir`files, dir`manifest, dir`authority, dir`status, dir`dispatched
    ensures Inv(cfg, dir) && old(dir.files).Keys <= dir.files.Keys
    ensures dir.dispatched == old(dir.dispatched)
         || (NextMaterial(cfg, m.state) !in old(dir.files) && dir.dispatched == old(dir.dispatched) + [NextMaterial(cfg, m.state)])
    ensures r.Returned? ==> |dir.dispatched| == |old(dir.dispatched)| + 1
    ensures r.Threw? ==> dir.files == old(dir.files) && dir.dispatched == old(dir.dispatched)
    ensures dir.dispatched != old(dir.dispatched) ==>
              dir.authority.Some? && Shows(dir.authority.value.state, AttemptAt(cfg, m.state, startedAt))
    ensures dir.calm && evidence == m.state.base.body.evidence && m.state.active.None? && NextMaterial(cfg, m.state) !in old(dir.files) ==>
              r.Returned?
    ensures r.Returned? && r.value.Some? ==> MemoryFits(cfg, dir, r.value.value)
    ensures dir.calm ==> !r.Crashed?
  {
    var used := UsedMaterials(cfg, dir, m.refs);
    if used.Crashed? {
      return Crashed;
    }
    var begun := Begin(cfg, m.state, evidence, startedAt, used.value);
    if begun.Err? {
      return Threw(StrategyFailed(begun.error));
    }
    var attempt := begun.value.active.value;
    BeginKeepsValid(cfg, m.state, evidence, startedAt, used.value);
    var crashed := Reserve(cfg, dir, m, attempt);
    if crashed {
      return Crashed;
    }
    BeginFits(cfg, dir.files.Keys, m.state, evidence, startedAt, used.value);
    var s := begun.value;
    crashed := Persist(cfg, dir, m.(state := s));
    if crashed {
      return Crashed;
    }
    r := Dispatch(cfg, dir, m.(state := s));
  }

  // ---------------------------------------------------------------- opening states

  /** A state opened at the first unreserved strategy, or with the catalogue given up, fits. */
  lemma OpenStateFits(cfg: Config, known: set<Digest>, epoch: int, seed: Digest, evidence: Digest, cursor: int, used: seq<Digest>)
    requires Usable(cfg) && epoch >= 1 && Distinct(used) && ToSet(used) <= known
    requires cursor == |cfg.catalogue| || FirstReserved(cfg, known, evidence, cursor)
    ensures StateFits(cfg, known, Open(epoch, cursor, seed, evidence, used))
  {
    OpenValidIff(cfg, epoch, cursor, seed, evidence, used);
    assert StateMaterials(Open(epoch, cursor, seed, evidence, used)) == ToSet(used);
  }

  /** A state opened at the computed cursor with the computed materials fits. */
  lemma OpenFits(cfg: Config, known: set<Digest>, epoch: int, seed: Digest, evidence: Digest, cursor: int)
    requires Usable(cfg) && Segmented(cfg, known) && epoch >= 1
    requires cursor == CursorFor(cfg, known, evidence) || cursor == |cfg.catalogue|
    ensures StateFits(cfg, known, Open(epoch, cursor, seed, evidence, MaterialsFor(cfg, known, evidence, |cfg.catalogue|)))
    ensures StateFits(cfg, known, Open(epoch, cursor, seed, evidence, [])) || cursor != |cfg.catalogue|
  {
    MaterialsForShape(cfg, known, evidence, |cfg.catalogue|);
    SegmentCursor(cfg, known, evidence);
    OpenStateFits(cfg, known, epoch, seed, evidence, cursor, MaterialsFor(cfg, known, evidence, |cfg.catalogue|));
    if cursor == |cfg.catalogue| {
      OpenStateFits(cfg, known, epoch, seed, evidence, cursor, []);
    }
  }

  /** The cursor and materials a new epoch starts with. */
  method UsedFor(cfg: Config, dir: SessionDir, refs: seq<State>, evidence: Digest)
    returns (r: Ended<(int, seq<Digest>), WatchError>)
    requires Usable(cfg) && Inv(cfg, dir) && RefsFit(dir.files.Keys, refs)
    modifies dir`files, dir`manifest
    ensures Inv(cfg, dir) && !r.Threw? && dir.files == old(dir.files)
    ensures r.Returned? ==> !Gap(cfg, dir.files.Keys, evidence) && FirstReserved(cfg, dir.files.Keys, evidence, r.value.0)
    ensures r.Returned? ==> r.value == (CursorFor(cfg, dir.files.Keys, evidence),
                                        MaterialsFor(cfg, dir.files.Keys, evidence, |cfg.catalogue|))
    ensures r.Returned? ==> Distinct(r.value.1) && forall m :: m in r.value.1 <==> m in dir.files && OfCatalogue(cfg, evidence, |cfg.catalogue|, m)
    ensures dir.calm ==> !r.Crashed?
  {
    var used := UsedMaterials(cfg, dir, refs);
    if used.Crashed? {
      return Crashed;
    }
    SegmentCursor(cfg, used.value, evidence);
    MaterialsForShape(cfg, used.value, evidence, |cfg.catalogue|);
    return Returned((CursorFor(cfg, used.value, evidence), MaterialsFor(cfg, used.value, evidence, |cfg.catalogue|)));
  }

  // ---------------------------------------------------------------- boot

  lemma {:induction false} PutNothingNew(files: Markers, s: seq<Marker>)
    requires forall m <- s :: m.material in files && files[m.material] == m
    ensures Put(files, s) == files
  {
    if s != [] {
      PutNothingNew(files, s[..|s| - 1]);
    }
  }

  method CleanRestore(cfg: Config, dir: SessionDir, expected: seq<Marker>) returns (r: Ended<bool, WatchError>)
    requires Inv(cfg, dir) && Distinct(MaterialsOf(expected))
    requires forall m <- expected :: m.material in dir.files && dir.files[m.material] == m
    modifies dir`files, dir`manifest
    ensures Inv(cfg, dir) && !r.Threw? && dir.files == old(dir.files)
    ensures r.Returned? ==> dir.manifest == Whole(dir.files, old(dir.manifest)) && (r.value <==> dir.manifest != old(dir.manifest))
    ensures dir.calm ==> !r.Crashed?
  {
    CleanRestoreLeaves(cfg, dir.files, dir.manifest, expected);
    CleanMerge(cfg, dir.files, dir.manifest);
    assert Put(dir.files, expected) == dir.files by {
      PutNothingNew(dir.files, expected);
    }
    forall m | m in expected ensures ValidMarker(cfg, m) {
      assert FiledUnder(cfg, m.material, dir.files[m.material]);
    }
    var l := Restore(cfg, dir, expected);
    return if l.Returned? then Returned(l.value.repaired) else Crashed;
  }

  /** Wherever a restoration of what is there stops, nothing has changed but the manifest. */
  lemma CleanRestoreLeaves(cfg: Config, files: Markers, manifest: Manifest, expected: seq<Marker>)
    requires CleanFiles(cfg, files, manifest) && forall m <- expected :: m.material in files && files[m.material] == m
    ensures forall files', manifest' :: RestoreLeaves(cfg, files, manifest, expected, files', manifest') ==>
              files' == files && CleanFiles(cfg, files', manifest')
  {
    CleanMerge(cfg, files, manifest);
    forall files', manifest' | RestoreLeaves(cfg, files, manifest, expected, files', manifest')
      ensures files' == files && CleanFiles(cfg, files', manifest')
    {
      var n :| 0 <= n <= |expected| && ReconcileLeaves(cfg, Put(files, expected[..n]), manifest, files', manifest');
      PutNothingNew(files, expected[..n]);
    }
  }

  /** The ledger as the authority and its own halves have it; the value says whether anything had to be repaired. */
  method RestoreLedger(cfg: Config, dir: SessionDir) returns (r: Ended<bool, WatchError>)
    requires Usable(cfg) && Inv(cfg, dir)
    modifies dir`files, dir`manifest
    ensures Inv(cfg, dir) && dir.files == old(dir.files) && !r.Threw?
    ensures r.Returned? ==> (r.value <==> dir.manifest != old(dir.manifest))
    ensures dir.calm ==> !r.Crashed?
  {
    var repaired := false;
    if dir.authority.Some? {
      var restored := CleanRestore(cfg, dir, dir.authority.value.expected);
      if restored.Crashed? {
        return Crashed;
      }
      repaired := restored.value;
    }
    var ledger := CleanReconcile(cfg, dir);
    if ledger.Crashed? {
      return Crashed;
    }
    return Returned(repaired || ledger.value.repaired);
  }

  /**
   What a fresh process does before its loop: restore the ledger from the authority, pick or rebuild
   the strategy state, and close an attempt that the previous process left behind.
   */
  method Boot(cfg: Config, dir: SessionDir, session: string, statusInvalid: bool, conflict: bool, trusted: bool, evidence: Digest)
    returns (r: Ended<Memory, WatchError>)
    requires Usable(cfg) && Inv(cfg, dir)
    modifies dir`files, dir`manifest, dir`authority, dir`status
    ensures Inv(cfg, dir) && dir.files == old(dir.files)
    ensures r.Returned? ==> MemoryFits(cfg, dir, r.value)
    ensures r.Returned? && statusInvalid ==> r.value.refs == []
    ensures r.Returned? && conflict ==>
              r.value.state.cursor == |cfg.catalogue| && r.value.state.base.body.evidence == evidence && r.value.action.None?
    ensures r.Returned? && !conflict && old(dir.authority).Some? ==>
              var s := old(dir.authority).value.state;
              r.value.state == s || OneInterrupted(s, r.value.state)
    ensures dir.calm ==> !r.Crashed?
  {
    var restored := RestoreLedger(cfg, dir);
    if restored.Crashed? {
      return Crashed;
    }
    r := BootFrom(cfg, dir, session, (dir.status.Some? && statusInvalid) || restored.value, conflict, trusted, evidence);
  }

  /** Goes on with a restored ledger: a status that is not `broken` is believed; on a `conflict` the catalogue is
      given up for the evidence that is there; `trusted` says that the action of the authority counts. */
  method BootFrom(cfg: Config, dir: SessionDir, session: string, broken: bool, conflict: bool, trusted: bool, evidence: Digest)
    returns (r: Ended<Memory, WatchError>)
    requires Usable(cfg) && Inv(cfg, dir)
    modifies dir`files, dir`manifest, dir`authority, dir`status
    ensures Inv(cfg, dir) && dir.files == old(dir.files)
    ensures r.Returned? ==> MemoryFits(cfg, dir, r.value)
    ensures dir.calm ==> !r.Crashed?
    ensures r.Returned? ==> r.value.refs == if broken || conflict || old(dir.status).None? then [] else old(dir.status).value.refs
    ensures r.Returned? && (broken || conflict) ==>
              dir.status == Some(Status(r.value.state, r.value.refs, r.value.action))
              && dir.authority.Some? && dir.authority.value.state == r.value.state
    ensures r.Returned? && conflict ==>
              r.value.state.cursor == |cfg.catalogue| && r.value.state.history == [] && r.value.state.base.body.evidence == evidence
              && r.value.action.None?
    ensures r.Returned? && !conflict && old(dir.authority).Some? ==>
              var s := old(dir.authority).value.state;
              r.value.state == s || (!broken && OneInterrupted(s, r.value.state))
  {
    var invalid := broken || conflict;
    var chosen := ChooseState(cfg, dir, session, if invalid then None else dir.status, dir.files, trusted, evidence);
    if chosen.Crashed? {
      return Crashed;
    }
    if chosen.Threw? {
      return Threw(chosen.error);
    }
    var m := chosen.value;
    if conflict {
      var rebuilt := RebuildConflicting(cfg, dir, m, evidence);
      if rebuilt.Crashed? {
        return Crashed;
      }
      m := rebuilt.value;
    }
    if invalid {
      var crashed := Persist(cfg, dir, m);
      return if crashed then Crashed else Returned(m);
    }
    r := CloseLeftover(cfg, dir, m);
  }

  /** Control files that contradict the establishment of the watch: the catalogue counts as exhausted. */
  method RebuildConflicting(cfg: Config, dir: SessionDir, m: Memory, evidence: Digest) returns (r: Ended<Memory, WatchError>)
    requires Usable(cfg) && Inv(cfg, dir) && MemoryFits(cfg, dir, m)
    modifies dir`files, dir`manifest
    ensures Inv(cfg, dir) && dir.files == old(dir.files) && !r.Threw?
    ensures r.Returned? ==> StateFits(cfg, dir.files.Keys, r.value.state) && Spent(cfg, r.value.state) && r.value.refs == m.refs
    ensures r.Returned? ==>
              r.value.state.cursor == |cfg.catalogue| && r.value.state.history == [] && r.value.state.base.body.evidence == evidence
              && r.value.state.epoch == m.state.epoch && r.value.action.None?
    ensures r.Returned? ==> MemoryFits(cfg, dir, r.value)
    ensures dir.calm ==> !r.Crashed?
  {
    var used := UsedFor(cfg, dir, m.refs, evidence);
    if used.Crashed? {
      return Crashed;
    }
    OpenFits(cfg, dir.files.Keys, m.state.epoch, m.state.seed, evidence, |cfg.catalogue|);
    var rebuilt := CreateLedgerRecovery(cfg, evidence, m.state.epoch, m.state.seed, |cfg.catalogue|, used.value.1);
    r := Returned(Memory(rebuilt.value, m.refs, None));
  }

  /** The authority wins over the status, and either over a state rebuilt from the ledger. */
  method ChooseState(cfg: Config, dir: SessionDir, session: string, prior: Option<Status>, markers: Markers, trusted: bool, evidence: Digest)
    returns (r: Ended<Memory, WatchError>)
    requires Usable(cfg) && Inv(cfg, dir) && markers == dir.files && (prior == None || prior == dir.status)
    modifies dir`files, dir`manifest
    ensures Inv(cfg, dir) && dir.files == old(dir.files)
    ensures r.Returned? ==> MemoryFits(cfg, dir, r.value)
    ensures r.Returned? && dir.authority.Some? ==> r.value.state == dir.authority.value.state
    ensures r.Returned? && dir.authority.None? ==> r.value.state.history == [] && r.value.state.active.None?
    ensures r.Returned? && dir.authority.None? ==>
              if markers == map[] then r.value.state.epoch == 1 && r.value.state.base.body.evidence == evidence
              else exists k :: k in markers && r.value.state.epoch == markers[k].epoch && r.value.state.seed == markers[k].seed
                               && r.value.state.base.body.evidence == markers[k].evidence
    ensures r.Returned? ==>
              r.value.action == if dir.authority.Some? && trusted && dir.authority.value.action.Some? then dir.authority.value.action
                                else if prior.Some? then prior.value.action else None
    ensures r.Returned? ==> r.value.refs == if prior.Some? then prior.value.refs else []
    ensures dir.calm ==> !r.Crashed?
  {
    var refs := if prior.Some? then prior.value.refs else [];
    var action := if prior.Some? then prior.value.action else None;
    if dir.authority.Some? {
      action := if trusted && dir.authority.value.action.Some? then dir.authority.value.action else action;
      return Returned(Memory(dir.authority.value.state, refs, action));
    }
    if markers == map[] {
      var used := UsedFor(cfg, dir, refs, evidence);
      if used.Crashed? {
        return Crashed;
      }
      var created := Create(cfg, session, evidence, used.value.0, used.value.1);
      OpenFits(cfg, dir.files.Keys, 1, SeedOf(session, evidence, 1, FirstEpoch), evidence, used.value.0);
      return Returned(Memory(created.value, refs, action));
    }
    var latest :| latest in markers.Values;
    var used := UsedFor(cfg, dir, refs, latest.evidence);
    if used.Crashed? {
      return Crashed;
    }
    var k :| k in markers && markers[k] == latest;
    assert FiledUnder(cfg, k, markers[k]);
    OpenFits(cfg, dir.files.Keys, latest.epoch, latest.seed, latest.evidence, used.value.0);
    var created := CreateLedgerRecovery(cfg, latest.evidence, latest.epoch, latest.seed, used.value.0, used.value.1);
    return Returned(Memory(created.value, refs, action));
  }

  /** One entry more, for an attempt that ended as interrupted, and nothing else of the memory changed. */
  predicate ClosedAsInterrupted(start: Memory, end: Memory) {
    end == start.(state := end.state) && OneInterrupted(start.state, end.state)
  }

  predicate OneInterrupted(s: State, t: State) {
    && |t.history| == |s.history| + 1
    && t.history[..|s.history|] == s.history && t.active.None?
    && var e := t.history[|s.history|].body;
       && e.outcome.Interrupted? && e.signature == Some("watcher-restarted-with-active-strategy")
       && (s.active.Some? ==> e.attempt == s.active.value)
  }

  /** A reservation or an attempt left behind by the previous process is closed as interrupted. */
  method CloseLeftover(cfg: Config, dir: SessionDir, start: Memory) returns (r: Ended<Memory, WatchError>)
    requires Usable(cfg) && Inv(cfg, dir) && MemoryFits(cfg, dir, start)
    modifies dir`files, dir`manifest, dir`authority, dir`status
    ensures Inv(cfg, dir) && dir.files == old(dir.files)
    ensures r.Returned? ==> MemoryFits(cfg, dir, r.value) && r.value.state.active.None?
    ensures r.Returned? && !Spent(cfg, r.value.state) ==>
              FirstReserved(cfg, dir.files.Keys, r.value.state.base.body.evidence, r.value.state.cursor)
    ensures r.Returned? ==> r.value == start || ClosedAsInterrupted(start, r.value)
    ensures dir.calm ==> !r.Crashed?
  {
    var reopened := ReopenReserved(cfg, dir, start.state);
    match reopened {
      case Crashed => return Crashed;
      case Threw(e) => return Threw(e);
      case Returned(s) =>
        if s.active.None? {
          return Returned(start);
        }
        r := CloseActive(cfg, dir, start, s);
    }
  }

  /** The strategy at the cursor is under way again since the time of its reservation. */
  predicate Reopened(cfg: Config, files: Markers, s: State, t: State)
    requires 0 <= s.cursor < |cfg.catalogue|
  {
    && NextMaterial(cfg, s) in files && t.active.Some? && t.history == s.history && t.base == s.base
    && var a := t.active.value;
       && a.material == NextMaterial(cfg, s) && a.strategy == cfg.catalogue[s.cursor]
       && a.startedAt == files[NextMaterial(cfg, s)].startedAt
  }

  /** Begins again what was reserved but not published. */
  method ReopenReserved(cfg: Config, dir: SessionDir, s: State) returns (r: Ended<State, WatchError>)
    requires Usable(cfg) && Inv(cfg, dir) && StateFits(cfg, dir.files.Keys, s)
    modifies dir`files, dir`manifest
    ensures Inv(cfg, dir) && dir.files == old(dir.files)
    ensures r.Returned? ==> StateFits(cfg, dir.files.Keys, r.value)
    ensures r.Returned? ==> r.value == s || (s.active.None? && !Spent(cfg, s) && Reopened(cfg, dir.files, s, r.value))
    ensures r.Returned? && r.value.active.None? && !Spent(cfg, s) ==>
              FirstReserved(cfg, dir.files.Keys, s.base.body.evidence, s.cursor)
    ensures dir.calm ==> !r.Crashed?
  {
    if s.active.Some? || Spent(cfg, s) {
      return Returned(s);
    }
    var ledger := CleanReconcile(cfg, dir);
    if ledger.Crashed? {
      return Crashed;
    }
    var material := MaterialHash(cfg.catalogue[s.cursor], s.base.body.evidence);
    assert material in ledger.value.markers <==> Reserved(cfg, dir.files.Keys, s.base.body.evidence, s.cursor);
    if material !in ledger.value.markers {
      return Returned(s);
    }
    var reserved := ledger.value.markers[material];
    var begun := Begin(cfg, s, reserved.evidence, reserved.startedAt, {});
    if begun.Err? {
      return Threw(StrategyFailed(begun.error));
    }
    BeginFits(cfg, dir.files.Keys, s, reserved.evidence, reserved.startedAt, {});
    r := Returned(begun.value);
  }

  lemma InterruptFits(cfg: Config, known: set<Digest>, s: State, signature: Option<string>, now: int)
    requires Usable(cfg) && StateFits(cfg, known, s) && s.active.Some?
    ensures var f := Finished(cfg, s, Interrupted, signature, now);
            && f.Ok? && StateFits(cfg, known, f.value) && f.value.active.None? && !StateLaunched(f.value)
            && f.value.history == s.history + [NextEntry(s, Interrupted, signature, now)]
            && f.value.base == s.base && FirstReserved(cfg, known, s.base.body.evidence, f.value.cursor)
  {
    ActiveReserved(cfg, known, s);
    ValidShape(cfg, s);
    FinishFits(cfg, known, s, Interrupted, signature, now);
    FinishWithRoom(cfg, s, Interrupted, signature, now);
    FinishValidIff(cfg, s, Interrupted, signature, now);
  }

  method CloseActive(cfg: Config, dir: SessionDir, start: Memory, s: State) returns (r: Ended<Memory, WatchError>)
    requires Usable(cfg) && Inv(cfg, dir) && StateFits(cfg, dir.files.Keys, s) && RefsFit(dir.files.Keys, start.refs)
    requires s.active.Some? && s.history == start.state.history && (start.state.active.Some? ==> s == start.state)
    modifies dir`files, dir`manifest, dir`authority, dir`status
    ensures Inv(cfg, dir) && dir.files == old(dir.files)
    ensures r.Returned? ==> MemoryFits(cfg, dir, r.value) && r.value.state.active.None?
    ensures r.Returned? ==> FirstReserved(cfg, dir.files.Keys, r.value.state.base.body.evidence, r.value.state.cursor)
    ensures r.Returned? ==> ClosedAsInterrupted(start, r.value)
    ensures dir.calm ==> !r.Crashed?
  {
    var now: int := *;
    InterruptFits(cfg, dir.files.Keys, s, Some("watcher-restarted-with-active-strategy"), now);
    var f := Finish(cfg, s, Interrupted, Some("watcher-restarted-with-active-strategy"), now);
    var m := start.(state := f.value);
    var crashed := Persist(cfg, dir, m);
    return if crashed then Crashed else Returned(m);
  }

  /** The attempt under way is always the last reservation of its evidence. */
  lemma ActiveReserved(cfg: Config, known: set<Digest>, s: State)
    requires StateFits(cfg, known, s) && s.active.Some?
    ensures !Spent(cfg, s) && FirstReserved(cfg, known, s.base.body.evidence, s.cursor + 1)
  {
    ValidShape(cfg, s);
    ReplayShape(cfg, Start(s.base), s.history);
  }

  // ---------------------------------------------------------------- the loop

  function LastSixteen(refs: seq<State>): seq<State> {
    if |refs| <= 16 then refs else refs[|refs| - 16..]
  }

  lemma RefsFitMore(known: set<Digest>, refs: seq<State>, s: State)
    requires RefsFit(known, refs) && StateMaterials(s) <= known
    ensures RefsFit(known, LastSixteen(refs + [s]))
  {
    forall x | x in LastSixteen(refs + [s]) ensures StateMaterials(x) <= known {
      assert x in refs || x == s;
    }
  }

  /** A launch without its launch record opens a new epoch for the current evidence. */
  method RecoverLaunched(cfg: Config, dir: SessionDir, session: string, m: Memory, evidence: Digest) returns (r: Ended<Option<Memory>, WatchError>)
    requires Usable(cfg) && Inv(cfg, dir) && MemoryFits(cfg, dir, m) && StateLaunched(m.state)
    modifies dir`files, dir`manifest, dir`authority, dir`status
    ensures Inv(cfg, dir) && dir.files == old(dir.files) && !r.Threw?
    ensures r.Returned? ==> r.value.Some? && MemoryFits(cfg, dir, r.value.value)
    ensures r.Returned? ==>
              var n := r.value.value;
              && n.state.epoch == m.state.epoch + 1 && n.state.history == [] && n.state.active.None? && n.state.base.body.evidence == evidence
              && n.refs == LastSixteen(m.refs + [m.state]) && n.action == m.action
    ensures dir.calm ==> !r.Crashed?
  {
    var refs := LastSixteen(m.refs + [m.state]);
    RefsFitMore(dir.files.Keys, m.refs, m.state);
    var used := UsedFor(cfg, dir, refs, evidence);
    if used.Crashed? {
      return Crashed;
    }
    var created := CreateTerminalRecovery(session, evidence, m.state, used.value.0, used.value.1);
    OpenFits(cfg, dir.files.Keys, m.state.epoch + 1, created.value.seed, evidence, used.value.0);
    var next := Memory(created.value, refs, m.action);
    var crashed := Persist(cfg, dir, next);
    return if crashed then Crashed else Returned(Some(next));
  }

  /** A new epoch on evidence that differs from what the acknowledged request was made for. */
  predicate StartedOver(m: Memory, n: Memory) {
    && m.action.Some? && n.state.base.body.evidence != m.action.value && n.action.None?
    && n.state.epoch == m.state.epoch + 1 && n.state.history == [] && n.state.active.None?
    && n.refs == LastSixteen(m.refs + [m.state])
  }

  /** The catalogue is exhausted: ask for a replacement, or start over on new acknowledged evidence.  A `sealed`
      request is made anew. */
  method Exhausted(cfg: Config, dir: SessionDir, session: string, m: Memory, evidence: Digest, acknowledged: bool, sealed: bool)
    returns (r: Ended<Option<Memory>, WatchError>)
    requires Usable(cfg) && Inv(cfg, dir) && MemoryFits(cfg, dir, m)
    requires m.state.cursor == |cfg.catalogue| && !StateLaunched(m.state)
    modifies dir`files, dir`manifest, dir`authority, dir`status
    ensures Inv(cfg, dir) && dir.files == old(dir.files)
    ensures r.Returned? ==> r.value.Some? && MemoryFits(cfg, dir, r.value.value)
    ensures r.Returned? ==>
              if m.action.Some? && acknowledged && evidence != m.action.value then
                StartedOver(m, r.value.value) && r.value.value.state.base.body.evidence == evidence
              else
                r.value.value == m.(action := if m.action.None? || sealed then Some(m.state.base.body.evidence) else m.action)
                && dir.status == Some(Status(m.state, m.refs, r.value.value.action))
    ensures dir.calm ==> !r.Crashed?
  {
    if m.action.Some? && acknowledged && evidence != m.action.value {
      r := StartOver(cfg, dir, session, m, evidence);
      return;
    }
    var next := if m.action.None? || sealed then m.(action := Some(m.state.base.body.evidence)) else m;
    if * {
      var early := PublishAuthority(cfg, dir, next);
      if early {
        return Crashed;
      }
    }
    var crashed := Persist(cfg, dir, next);
    return if crashed then Crashed else Returned(Some(next));
  }

  method StartOver(cfg: Config, dir: SessionDir, session: string, m: Memory, evidence: Digest)
    returns (r: Ended<Option<Memory>, WatchError>)
    requires Usable(cfg) && Inv(cfg, dir) && MemoryFits(cfg, dir, m)
    requires m.state.cursor == |cfg.catalogue| && !StateLaunched(m.state)
    requires m.action.Some? && evidence != m.action.value
    modifies dir`files, dir`manifest
    ensures Inv(cfg, dir) && dir.files == old(dir.files)
    ensures r.Returned? ==> r.value.Some? && MemoryFits(cfg, dir, r.value.value) && StartedOver(m, r.value.value)
                            && r.value.value.state.base.body.evidence == evidence
    ensures dir.calm ==> !r.Crashed?
  {
    var refs := LastSixteen(m.refs + [m.state]);
    RefsFitMore(dir.files.Keys, m.refs, m.state);
    var used := UsedFor(cfg, dir, refs, evidence);
    if used.Crashed? {
      return Crashed;
    }
    var created := CreateEvidenceRecovery(cfg, session, evidence, m.state, m.action.value, used.value.0, used.value.1);
    if created.Err? {
      return Threw(StrategyFailed(created.error));
    }
    EvidenceOpens(cfg, dir.files.Keys, session, evidence, m.state, m.action.value, used.value.0, used.value.1);
    var n := Memory(created.value, refs, None);
    if dir.authority.Some? {
      StartedOverLags(cfg, dir.authority.value.state, m, n);
    }
    return Returned(Some(n));
  }

  /** The epoch on new evidence, at the computed cursor with the computed materials. */
  lemma EvidenceOpens(cfg: Config, known: set<Digest>, session: string, evidence: Digest, prior: State, receipt: Digest, cursor: int, used: seq<Digest>)
    requires Usable(cfg) && Segmented(cfg, known) && Valid(cfg, prior)
    requires cursor == CursorFor(cfg, known, evidence) && used == MaterialsFor(cfg, known, evidence, |cfg.catalogue|)
    requires CreateEvidenceRecovery(cfg, session, evidence, prior, receipt, cursor, used).Ok?
    ensures var t := CreateEvidenceRecovery(cfg, session, evidence, prior, receipt, cursor, used).value;
            && StateFits(cfg, known, t) && t.epoch == prior.epoch + 1 && t.history == [] && t.active.None?
            && t.base.body.evidence == evidence && evidence != prior.base.body.evidence
  {
    var t := CreateEvidenceRecovery(cfg, session, evidence, prior, receipt, cursor, used).value;
    OpenFits(cfg, known, prior.epoch + 1, t.seed, evidence, cursor);
  }

  lemma StartedOverLags(cfg: Config, published: State, m: Memory, n: Memory)
    requires Lags(cfg, published, m) && m.state.cursor == |cfg.catalogue| && m.state.base.body.evidence != n.state.base.body.evidence
    requires StartedOver(m, n)
    ensures Lags(cfg, published, n)
  {
  }

  /** The catalogue counts as exhausted for the evidence it was begun with. */
  predicate GivenUp(cfg: Config, m: Memory, n: Memory) {
    && m.state.cursor < |cfg.catalogue| && n.state.cursor == |cfg.catalogue|
    && n.state.base.body.evidence == m.state.base.body.evidence && n.state.epoch == m.state.epoch
    && n.state.active.None? && n == m.(state := n.state)
  }

  /** Evidence that changed under an unfinished catalogue gives the catalogue up, in memory only. */
  method NoticeEvidence(cfg: Config, dir: SessionDir, m: Memory, observed: Digest) returns (r: Ended<Memory, WatchError>)
    requires Usable(cfg) && Inv(cfg, dir) && MemoryFits(cfg, dir, m) && !StateLaunched(m.state)
    modifies dir`files, dir`manifest
    ensures Inv(cfg, dir) && dir.files == old(dir.files) && !r.Threw?
    ensures r.Returned? ==> MemoryFits(cfg, dir, r.value) && !StateLaunched(r.value.state)
    ensures r.Returned? ==>
              if m.state.cursor >= |cfg.catalogue| || observed == m.state.base.body.evidence then r.value == m else GivenUp(cfg, m, r.value)
    ensures dir.calm ==> !r.Crashed?
  {
    if m.state.cursor >= |cfg.catalogue| || observed == m.state.base.body.evidence {
      return Returned(m);
    }
    var preserved := m.state.base.body.evidence;
    var used := UsedFor(cfg, dir, m.refs, preserved);
    if used.Crashed? {
      return Crashed;
    }
    OpenFits(cfg, dir.files.Keys, m.state.epoch, m.state.seed, preserved, |cfg.catalogue|);
    var rebuilt := CreateLedgerRecovery(cfg, preserved, m.state.epoch, m.state.seed, |cfg.catalogue|, used.value.1);
    return Returned(m.(state := rebuilt.value));
  }

  /** What one turn finds outside: whether the watch is over, the evidence of the domain when the turn looks and
      when it begins an attempt, whether a request was acknowledged or sealed, whether it has to wait, the time. */
  datatype Observed = Observed(over: bool, evidence: Digest, later: Digest, acknowledged: bool, sealed: bool, wait: bool, now: int)

  /** One turn of the loop; `None` ends the watch. */
  method Turn(cfg: Config, dir: SessionDir, session: string, m: Memory, o: Observed) returns (r: Ended<Option<Memory>, WatchError>)
    requires Usable(cfg) && Inv(cfg, dir) && MemoryFits(cfg, dir, m)
    modifies dir`files, dir`manifest, dir`authority, dir`status, dir`dispatched
    ensures Inv(cfg, dir) && old(dir.files).Keys <= dir.files.Keys
    ensures dir.dispatched == old(dir.dispatched)
         || (&& Attempts(cfg, m, o) && NextMaterial(cfg, m.state) !in old(dir.files)
             && dir.dispatched == old(dir.dispatched) + [NextMaterial(cfg, m.state)])
    ensures r.Returned? && r.value.Some? ==> MemoryFits(cfg, dir, r.value.value)
    ensures dir.calm ==> !r.Crashed?
    ensures r.Returned? && o.over ==> r.value.None? && dir.status == Some(Status(m.state, m.refs, m.action))
    ensures r.Returned? && !o.over && !Attempts(cfg, m, o) ==> r.value.Some?
    ensures r.Returned? && !o.over && StateLaunched(m.state) ==> r.value.value.state.epoch == m.state.epoch + 1
    ensures dir.calm && Attempts(cfg, m, o) && o.later == o.evidence && m.state.active.None? && NextMaterial(cfg, m.state) !in old(dir.files) ==>
              r.Returned? && dir.dispatched == old(dir.dispatched) + [NextMaterial(cfg, m.state)]
  {
    if o.over {
      var crashed := Persist(cfg, dir, m);
      return if crashed then Crashed else Returned(None);
    }
    if StateLaunched(m.state) {
      r := RecoverLaunched(cfg, dir, session, m, o.evidence);
      return;
    }
    var noticed := NoticeEvidence(cfg, dir, m, o.evidence);
    if noticed.Crashed? {
      return Crashed;
    }
    var current := noticed.value;
    if current.state.cursor == |cfg.catalogue| {
      r := Exhausted(cfg, dir, session, current, o.evidence, o.acknowledged, o.sealed);
      return;
    }
    if o.wait {
      return Returned(Some(current));
    }
    r := AttemptStrategy(cfg, dir, current, o.later, o.now);
  }

  /** The turn comes to an attempt: nothing was launched, the catalogue is not used up, the evidence is the
      recorded one, and there is nothing to wait for. */
  predicate Attempts(cfg: Config, m: Memory, o: Observed) {
    !o.over && !o.wait && !Spent(cfg, m.state) && o.evidence == m.state.base.body.evidence
  }

  /** One process: boot, then the loop until it ends, throws, or is killed after `life` turns. */
  method Watch(cfg: Config, dir: SessionDir, session: string, life: nat) returns (r: Ended<(), WatchError>)
    requires Usable(cfg) && Inv(cfg, dir)
    modifies dir
    ensures Inv(cfg, dir) && old(dir.files).Keys <= dir.files.Keys && old(dir.dispatched) <= dir.dispatched
  {
    var statusInvalid: bool, conflict: bool, trusted: bool, evidence: Digest := *, *, *, *;
    var booted := Boot(cfg, dir, session, statusInvalid, conflict, trusted, evidence);
    if booted.Crashed? {
      return Crashed;
    }
    if booted.Threw? {
      return Threw(booted.error);
    }
    var m, turns := booted.value, life;
    while turns > 0
      invariant Inv(cfg, dir) && MemoryFits(cfg, dir, m)
      invariant old(dir.files).Keys <= dir.files.Keys && old(dir.dispatched) <= dir.dispatched
    {
      var o: Observed := *;
      var t := Turn(cfg, dir, session, m, o);
      match t {
        case Crashed => return Crashed;
        case Threw(e) => return Threw(e);
        case Returned(None) => return Returned(());
        case Returned(Some(next)) => m := next;
      }
      turns := turns - 1;
    }
    return Crashed;
  }

  /**
   Any number of watchdog processes, each dying wherever it likes: no material is ever executed
   twice, every executed material is durably reserved, and for every evidence the reserved
   strategies are an initial segment of the catalogue.
   */
  method Lifetimes(cfg: Config, session: string, lives: seq<nat>) returns (dir: SessionDir)
    requires Usable(cfg)
    ensures fresh(dir)
    ensures Distinct(dir.dispatched)
    ensures forall material <- dir.dispatched :: material in dir.files
    ensures forall evidence :: FirstReserved(cfg, dir.files.Keys, evidence, CursorFor(cfg, dir.files.Keys, evidence))
    ensures dir.authority.Some? ==> Valid(cfg, dir.authority.value.state)
  {
    dir := new SessionDir();
    var i := 0;
    while i < |lives|
      invariant 0 <= i <= |lives|
      invariant fresh(dir) && Inv(cfg, dir)
    {
      dir.calm := *;
      var r := Watch(cfg, dir, session, lives[i]);
      i := i + 1;
    }
    forall evidence ensures FirstReserved(cfg, dir.files.Keys, evidence, CursorFor(cfg, dir.files.Keys, evidence)) {
      assert DownClosed(cfg, dir.files.Keys, evidence);
      SegmentCursor(cfg, dir.files.Keys, evidence);
    }
    forall material | material in dir.dispatched ensures material in dir.files {
      assert material in ToSet(dir.dispatched);
    }
  }
}
