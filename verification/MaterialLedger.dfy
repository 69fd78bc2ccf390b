/**
 The material reservation ledger of the adoption watchdog: one marker file per reserved material
 plus a manifest of all of them, each half able to restore the other.  Every durable write may be
 the last thing the process does, so every method below may stop, `Crashed`, before any write.
 */
module MaterialLedger {
  import opened Basics
  import opened WatchStrategies

  datatype Marker = Marker(
    epoch: int, seed: Digest, material: Digest, strategy: string,
    evidence: Digest, constraints: Digest, startedAt: int, content: Digest)

  function ContentOf(m: Marker): Digest {
    MarkerOf(m.epoch, m.seed, m.material, m.strategy, m.evidence, m.constraints, m.startedAt)
  }

  function MarkerFor(a: Attempt): Marker {
    var m := Marker(a.epoch, a.seed, a.material, a.strategy, a.evidence, a.constraints, a.startedAt, Zero);
    m.(content := ContentOf(m))
  }

  /** The attempt a marker was made for. */
  function AttemptOf(m: Marker): Attempt {
    Attempt(m.epoch, m.strategy, m.seed, m.evidence, m.constraints, m.material, m.startedAt)
  }

  /** A marker tells its whole attempt, and markers with equal content tell the same one. */
  lemma MarkerTells(cfg: Config, a: Attempt, m: Marker)
    requires ValidMarker(cfg, m)
    ensures AttemptOf(MarkerFor(a)) == a && (m.content == MarkerFor(a).content <==> AttemptOf(m) == a)
    ensures ValidMarker(cfg, MarkerFor(a)) <==>
              a.epoch >= 1 && a.strategy in cfg.catalogue
              && a.material == MaterialOf(a.strategy, a.evidence, ConstraintsOf(a.strategy))
  {
  }

  predicate ValidMarker(cfg: Config, m: Marker) {
    && m.epoch >= 1
    && m.strategy in cfg.catalogue
    && m.material == MaterialHash(m.strategy, m.evidence)
    && m.content == ContentOf(m)
  }

  type Markers = map<Digest, Marker>

  /** `intact` says that the count, root and content digests of the file agree with its entries. */
  datatype Manifest = Absent | Present(entries: Markers, intact: bool)

  datatype Ledger = Ledger(markers: Markers, repaired: bool, integrityConflict: bool)

  datatype LedgerError = InvalidFile | InvalidMarker | ManifestConflict | InvalidAuthority | MarkerCollision

  predicate ReconcileError(e: LedgerError) {
    e.InvalidFile? || e.InvalidMarker? || e.ManifestConflict?
  }

  /** How a procedure that writes durable files may end. */
  datatype Ended<+T, +E> = Returned(value: T) | Threw(error: E) | Crashed

  /** `m` is a marker that may be filed under `k`. */
  predicate FiledUnder(cfg: Config, k: Digest, m: Marker) {
    m.material == k && ValidMarker(cfg, m)
  }

  predicate FilesValid(cfg: Config, files: Markers) {
    forall k {:trigger FiledUnder(cfg, k, files[k])} :: k in files ==> FiledUnder(cfg, k, files[k])
  }

  predicate Readable(cfg: Config, m: Manifest) {
    m.Present? && m.intact && FilesValid(cfg, m.entries)
  }

  /** What the manifest contributes: nothing unless it can be trusted. */
  function Entries(cfg: Config, m: Manifest): Markers {
    if Readable(cfg, m) then m.entries else map[]
  }

  /** Every material one of the two halves remembers. */
  function KnownIn(cfg: Config, files: Markers, manifest: Manifest): set<Digest> {
    files.Keys + Entries(cfg, manifest).Keys
  }

  /** The two halves disagree about the content of a common marker. */
  predicate Conflicting(files: Markers, entries: Markers) {
    exists k <- entries :: k in files && files[k].content != entries[k].content
  }

  /** The higher-authority snapshot: the strategy state with every reservation known when it was written. */
  datatype Authority = Authority(state: State, expected: seq<Marker>, action: Option<Digest>)

  /** The status file; `refs` are the archived states it refers to. */
  datatype Status = Status(state: State, refs: seq<State>, action: Option<Digest>)

  /** The durable files of one session directory that the watchdog owns. */
  class SessionDir {
    var authority: Option<Authority>
    var status: Option<Status>
    ghost var dispatched: seq<Digest>   // materials executed so far, over all processes
    var files: Markers
    var stray: bool          // a file with an unexpected name sits among the markers
    var manifest: Manifest
    /** The process is left in peace: no write cuts it short.  No invariant depends on it; it serves to say
        what is achieved then. */
    var calm: bool

    constructor ()
      ensures files == map[] && !stray && manifest == Absent
      ensures authority == None && status == None && dispatched == []
    {
      files, stray, manifest := map[], false, Absent;
      authority, status, dispatched, calm := None, None, [], false;
    }

    ghost function Known(cfg: Config): set<Digest>
      reads this
    {
      KnownIn(cfg, files, manifest)
    }

    ghost predicate Broken(cfg: Config)
      reads this
    {
      stray || !FilesValid(cfg, files) || Conflicting(files, Entries(cfg, manifest))
    }
  }

  /** `after` keeps every file of `before` and adds only entries of the manifest. */
  ghost predicate FilledFrom(before: Markers, entries: Markers, after: Markers) {
    && before.Keys <= after.Keys <= before.Keys + entries.Keys
    && forall k <- after :: after[k] == if k in before then before[k] else entries[k]
  }

  /** Equal content digests mean equal markers. */
  ghost predicate Coherent(files: Markers, entries: Markers) {
    forall k <- entries :: k in files && files[k].content == entries[k].content ==> files[k] == entries[k]
  }

  lemma ValidHalvesCoherent(cfg: Config, files: Markers, entries: Markers)
    requires FilesValid(cfg, files) && FilesValid(cfg, entries)
    ensures Coherent(files, entries)
  {
    forall k | k in entries && k in files && files[k].content == entries[k].content ensures files[k] == entries[k] {
      assert FiledUnder(cfg, k, files[k]) && FiledUnder(cfg, k, entries[k]);
    }
  }

  method WriteManifest(dir: SessionDir, markers: Markers) returns (crashed: bool)
    modifies dir`manifest
    ensures crashed ==> dir.manifest == old(dir.manifest)
    ensures !crashed ==> dir.manifest == Present(markers, true)
    ensures dir.calm ==> !crashed
  {
    if * {
      if !dir.calm { return true; }
    }
    dir.manifest := Present(markers, true);
    return false;
  }

  /** What the files hold once nothing of the manifest is missing. */
  function Merge(files: Markers, entries: Markers): Markers {
    entries + files
  }

  /** Writes a marker file for every manifest entry that has none, in any order. */
  method FillFiles(dir: SessionDir, entries: Markers) returns (r: Ended<bool, LedgerError>)
    requires Coherent(dir.files, entries)
    modifies dir`files
    ensures FilledFrom(old(dir.files), entries, dir.files)
    ensures r.Threw? ==> r.error.ManifestConflict? && Conflicting(old(dir.files), entries)
    ensures r.Returned? ==>
              && !Conflicting(old(dir.files), entries)
              && dir.files == Merge(old(dir.files), entries)
              && entries.Keys <= dir.files.Keys && (forall k <- entries :: dir.files[k] == entries[k])
              && r.value == (dir.files != old(dir.files))
    ensures dir.calm ==> !r.Crashed?
  {
    ghost var before := dir.files;
    var files := dir.files;
    var added := false;
    var todo := entries.Keys;
    while todo != {}
      invariant todo <= entries.Keys
      invariant dir.files == files && dir.calm == old(dir.calm)
      invariant FilledFrom(before, entries, files)
      invariant forall k <- entries :: k in todo || (k in files && files[k] == entries[k])
      invariant added == (files != before)
      decreases todo
    {
      var k :| k in todo;
      if k in files {
        if files[k].content != entries[k].content {
          return Threw(ManifestConflict);
        }
        assert files[k] == entries[k];
      } else {
        if * {
          if !dir.calm { return Crashed; }
        }
        files := files[k := entries[k]];
        dir.files := files;
        added := true;
      }
      todo := todo - {k};
    }
    assert files == Merge(before, entries);
    return Returned(added);
  }

  /** Every pair of halves that reconciliation may leave behind, crashed or not. */
  ghost predicate ReconcileLeaves(cfg: Config, files: Markers, manifest: Manifest, files': Markers, manifest': Manifest) {
    var entries := Entries(cfg, manifest);
    && FilledFrom(files, entries, files')
    && (manifest' == manifest || (files' == Merge(files, entries) && manifest' == Present(files', true)))
  }

  /** Nothing is forgotten and nothing is made up, wherever reconciliation stops. */
  lemma ReconcileForgetsNothing(cfg: Config, files: Markers, manifest: Manifest, files': Markers, manifest': Manifest)
    requires ReconcileLeaves(cfg, files, manifest, files', manifest')
    ensures KnownIn(cfg, files', manifest') == KnownIn(cfg, files, manifest)
  {
    var entries, entries' := Entries(cfg, manifest), Entries(cfg, manifest');
    if manifest' != manifest {
      assert files'.Keys == files.Keys + entries.Keys;
      assert entries'.Keys <= files'.Keys;
    }
  }

  /**
   Rebuilds either half from the other.  On return both halves hold the union of what they held
   before; it fails exactly when a half is unreadable in a way that hides markers or the halves
   contradict each other.
   */
  method Reconcile(cfg: Config, dir: SessionDir) returns (r: Ended<Ledger, LedgerError>)
    modifies dir`files, dir`manifest
    ensures ReconcileLeaves(cfg, old(dir.files), old(dir.manifest), dir.files, dir.manifest)
    ensures r.Threw? ==> old(dir.Broken(cfg)) && dir.manifest == old(dir.manifest) && ReconcileError(r.error)
    ensures r == Threw(InvalidFile) <==> old(dir.stray)
    ensures r == Threw(InvalidMarker) <==> !old(dir.stray) && !FilesValid(cfg, old(dir.files))
    ensures r == Threw(ManifestConflict) ==> Conflicting(old(dir.files), Entries(cfg, old(dir.manifest)))
    ensures r.Returned? ==>
              && !old(dir.Broken(cfg))
              && dir.files == Merge(old(dir.files), Entries(cfg, old(dir.manifest)))
              && dir.manifest == (if dir.files == map[] && old(dir.manifest).Absent? then Absent else Present(dir.files, true))
              && r.value.markers == dir.files
              && r.value.integrityConflict == (old(dir.manifest).Present? && !Readable(cfg, old(dir.manifest)))
              && (r.value.repaired <==> dir.files != old(dir.files) || dir.manifest != old(dir.manifest))
    ensures dir.calm ==> !r.Crashed? && (r.Returned? <==> !old(dir.Broken(cfg)))
  {
    if dir.stray {
      return Threw(InvalidFile);
    }
    if !FilesValid(cfg, dir.files) {
      return Threw(InvalidMarker);
    }
    var files, manifest := dir.files, dir.manifest;
    var readable := Readable(cfg, manifest);
    var conflict := manifest.Present? && !readable;
    var repaired := conflict;
    if readable {
      ValidHalvesCoherent(cfg, files, manifest.entries);
      var filled := FillFiles(dir, manifest.entries);
      if filled.Threw? {
        return Threw(filled.error);
      }
      if filled.Crashed? {
        return Crashed;
      }
      repaired := filled.value;
    }
    assert dir.files == Merge(files, Entries(cfg, manifest));
    if !readable || manifest.entries != dir.files {
      if dir.files != map[] || manifest.Present? {
        var crashed := WriteManifest(dir, dir.files);
        if crashed {
          return Crashed;
        }
        repaired := true;
      }
    }
    return Returned(Ledger(dir.files, repaired, conflict));
  }

  function MaterialsOf(s: seq<Marker>): seq<Digest> {
    seq(|s|, i requires 0 <= i < |s| => s[i].material)
  }

  /** The markers of a ledger in some order, each exactly once. */
  method Listed(markers: Markers) returns (s: seq<Marker>)
    requires forall k <- markers :: markers[k].material == k
    ensures Distinct(MaterialsOf(s)) && ToSet(MaterialsOf(s)) == markers.Keys
    ensures forall m <- s :: m.material in markers && markers[m.material] == m
  {
    s := [];
    var todo := markers.Keys;
    while todo != {}
      invariant todo <= markers.Keys
      invariant Distinct(MaterialsOf(s)) && ToSet(MaterialsOf(s)) == markers.Keys - todo
      invariant forall m <- s :: m.material in markers && markers[m.material] == m
      decreases todo
    {
      var k :| k in todo;
      DistinctSnoc(MaterialsOf(s), k);
      assert MaterialsOf(s + [markers[k]]) == MaterialsOf(s) + [k];
      s := s + [markers[k]];
      todo := todo - {k};
    }
  }

  /** The marker files after those of `s` have been written over them in order. */
  function Put(files: Markers, s: seq<Marker>): Markers {
    if s == [] then files
    else var m := s[|s| - 1]; Put(files, s[..|s| - 1])[m.material := m]
  }

  lemma {:induction false} PutKeys(files: Markers, s: seq<Marker>)
    ensures Put(files, s).Keys == files.Keys + ToSet(MaterialsOf(s))
  {
    if s != [] {
      var front, last := s[..|s| - 1], s[|s| - 1];
      PutKeys(files, front);
      assert MaterialsOf(s) == MaterialsOf(front) + [last.material];
    }
  }

  lemma {:induction false} PutHolds(files: Markers, s: seq<Marker>)
    requires Distinct(MaterialsOf(s))
    ensures forall m <- s :: m.material in Put(files, s) && Put(files, s)[m.material] == m
  {
    if s != [] {
      var front, last := s[..|s| - 1], s[|s| - 1];
      assert MaterialsOf(s) == MaterialsOf(front) + [last.material];
      DistinctSnoc(MaterialsOf(front), last.material);
      PutHolds(files, front);
      forall i | 0 <= i < |front| ensures front[i].material != last.material {
        assert MaterialsOf(front)[i] == front[i].material;
      }
      assert forall m <- s :: m in front || m == last;
    }
  }

  /** The marker is among the files as it is. */
  predicate InPlace(files: Markers, m: Marker) {
    m.material in files && files[m.material] == m
  }

  method WriteFiles(cfg: Config, dir: SessionDir, expected: seq<Marker>) returns (r: Ended<bool, LedgerError>)
    requires forall m <- expected :: ValidMarker(cfg, m)
    modifies dir`files
    ensures !r.Threw?
    ensures r.Crashed? ==> exists n :: 0 <= n <= |expected| && dir.files == Put(old(dir.files), expected[..n])
    ensures r.Returned? ==> dir.files == Put(old(dir.files), expected)
    ensures r.Returned? ==> (r.value <==> exists m <- expected :: !InPlace(old(dir.files), m))
    ensures dir.calm ==> !r.Crashed?
  {
    ghost var before := dir.files;
    var files := dir.files;
    var repaired := false;
    var i := 0;
    while i < |expected|
      invariant 0 <= i <= |expected|
      invariant dir.files == files == Put(before, expected[..i])
      invariant repaired || files == before
      invariant repaired <==> exists m <- expected[..i] :: !InPlace(before, m)
    {
      var m := expected[i];
      assert expected[..i + 1] == expected[..i] + [m];
      assert forall x :: x in expected[..i + 1] <==> x in expected[..i] || x == m;
      assert ValidMarker(cfg, m);
      if m.material !in files || files[m.material].material != m.material
         || !ValidMarker(cfg, files[m.material]) || files[m.material].content != m.content {
        if * {
          if !dir.calm { return Crashed; }
        }
        assert repaired || !InPlace(before, m);
        files := files[m.material := m];
        dir.files := files;
        repaired := true;
      } else {
        assert files[m.material] == m;
        assert repaired || InPlace(before, m);
        assert files[m.material := m] == files;
      }
      i := i + 1;
    }
    assert expected[..i] == expected;
    return Returned(repaired);
  }

  ghost predicate RestoreLeaves(cfg: Config, files: Markers, manifest: Manifest, expected: seq<Marker>, files': Markers, manifest': Manifest) {
    exists n :: 0 <= n <= |expected| && ReconcileLeaves(cfg, Put(files, expected[..n]), manifest, files', manifest')
  }

  /** Restoring adds at most the expected materials and forgets none. */
  lemma RestoreForgetsNothing(cfg: Config, files: Markers, manifest: Manifest, expected: seq<Marker>, files': Markers, manifest': Manifest)
    requires RestoreLeaves(cfg, files, manifest, expected, files', manifest')
    ensures KnownIn(cfg, files, manifest) <= KnownIn(cfg, files', manifest')
            <= KnownIn(cfg, files, manifest) + ToSet(MaterialsOf(expected))
  {
    var n :| 0 <= n <= |expected| && ReconcileLeaves(cfg, Put(files, expected[..n]), manifest, files', manifest');
    ReconcileForgetsNothing(cfg, Put(files, expected[..n]), manifest, files', manifest');
    PutKeys(files, expected[..n]);
    assert MaterialsOf(expected[..n]) == MaterialsOf(expected)[..n];
  }

  /** Puts the reservations of a higher authority back among the marker files, then reconciles. */
  method Restore(cfg: Config, dir: SessionDir, expected: seq<Marker>) returns (r: Ended<Ledger, LedgerError>)
    modifies dir`files, dir`manifest
    ensures r == Threw(InvalidAuthority) <==>
              !((forall m <- expected :: ValidMarker(cfg, m)) && Distinct(MaterialsOf(expected)))
    ensures RestoreLeaves(cfg, old(dir.files), old(dir.manifest), expected, dir.files, dir.manifest)
    ensures r.Threw? && !r.error.InvalidAuthority? ==>
              var files := Put(old(dir.files), expected);
              old(dir.stray) || !FilesValid(cfg, files) || Conflicting(files, Entries(cfg, old(dir.manifest)))
    ensures r.Returned? ==>
              && dir.files == Merge(Put(old(dir.files), expected), Entries(cfg, old(dir.manifest)))
              && (forall m <- expected :: m.material in dir.files && dir.files[m.material] == m)
              && dir.manifest == (if dir.files == map[] && old(dir.manifest).Absent? then Absent else Present(dir.files, true))
              && r.value.markers == dir.files
              && (r.value.repaired <==>
                    (exists m <- expected :: !InPlace(old(dir.files), m))
                    || dir.files != Put(old(dir.files), expected) || dir.manifest != old(dir.manifest))
    ensures dir.calm ==> !r.Crashed?
  {
    if (exists m <- expected :: !ValidMarker(cfg, m)) || !Distinct(MaterialsOf(expected)) {
      assert Put(dir.files, expected[..0]) == dir.files;
      assert FilledFrom(dir.files, Entries(cfg, dir.manifest), dir.files);
      return Threw(InvalidAuthority);
    }
    ghost var files, manifest := dir.files, dir.manifest;
    PutHolds(files, expected);
    var written := WriteFiles(cfg, dir, expected);
    assert FilledFrom(dir.files, Entries(cfg, manifest), dir.files);
    if written.Crashed? {
      return Crashed;
    }
    assert Put(files, expected[..|expected|]) == dir.files by {
      assert expected[..|expected|] == expected;
    }
    r := Reconcile(cfg, dir);
    if r.Returned? {
      r := Returned(r.value.(repaired := written.value || r.value.repaired));
    }
  }

  /** The two writes that add a new marker: its file, then the manifest. */
  method Append(dir: SessionDir, marker: Marker) returns (crashed: bool)
    modifies dir`files, dir`manifest
    ensures dir.files == old(dir.files)[marker.material := marker] || (crashed && dir.files == old(dir.files))
    ensures dir.manifest == if crashed then old(dir.manifest) else Present(dir.files, true)
    ensures dir.calm ==> !crashed
  {
    if * {
      if !dir.calm { return true; }
    }
    dir.files := dir.files[marker.material := marker];
    crashed := WriteManifest(dir, dir.files);
  }

  /** Every pair of halves that recording `marker` may leave behind, crashed or not. */
  ghost predicate RecordLeaves(cfg: Config, files: Markers, manifest: Manifest, marker: Marker, files': Markers, manifest': Manifest) {
    var merged := Merge(files, Entries(cfg, manifest));
    || ReconcileLeaves(cfg, files, manifest, files', manifest')
    || (&& marker.material !in merged
        && files' == merged[marker.material := marker]
        && (manifest' == manifest || manifest' == Present(merged, true) || manifest' == Present(files', true)))
  }

  /** Recording remembers the new material at most, and forgets none. */
  lemma RecordForgetsNothing(cfg: Config, files: Markers, manifest: Manifest, marker: Marker, files': Markers, manifest': Manifest)
    requires RecordLeaves(cfg, files, manifest, marker, files', manifest')
    ensures KnownIn(cfg, files, manifest) <= KnownIn(cfg, files', manifest') <= KnownIn(cfg, files, manifest) + {marker.material}
  {
    if ReconcileLeaves(cfg, files, manifest, files', manifest') {
      ReconcileForgetsNothing(cfg, files, manifest, files', manifest');
    } else {
      var entries, entries' := Entries(cfg, manifest), Entries(cfg, manifest');
      assert files'.Keys == files.Keys + entries.Keys + {marker.material};
      assert entries'.Keys <= files'.Keys;
    }
  }

  /** Makes the reservation of an attempt durable before the attempt is published. */
  method Record(cfg: Config, dir: SessionDir, attempt: Attempt) returns (r: Ended<(), LedgerError>)
    modifies dir`files, dir`manifest
    ensures r.Returned? ==>
              && attempt.material in dir.files && AttemptOf(dir.files[attempt.material]) == attempt
              && dir.manifest == Present(dir.files, true)
    ensures r == Threw(MarkerCollision) ==>
              attempt.material in dir.files && AttemptOf(dir.files[attempt.material]) != attempt
    ensures r.Threw? && r != Threw(MarkerCollision) ==> old(dir.Broken(cfg))
    ensures RecordLeaves(cfg, old(dir.files), old(dir.manifest), MarkerFor(attempt), dir.files, dir.manifest)
    ensures dir.calm && !old(dir.Broken(cfg)) ==> r.Returned? || r == Threw(MarkerCollision)
  {
    var crashed: bool;
    var ledger := Reconcile(cfg, dir);
    if ledger.Crashed? {
      return Crashed;
    }
    if ledger.Threw? {
      return Threw(ledger.error);
    }
    var markers := ledger.value.markers;
    var marker := MarkerFor(attempt);
    if attempt.material in markers {
      ReconciledHalves(cfg, old(dir.files), old(dir.manifest), dir.files, dir.manifest);
      assert FiledUnder(cfg, attempt.material, markers[attempt.material]);
      MarkerTells(cfg, attempt, markers[attempt.material]);
      if markers[attempt.material].content != marker.content {
        return Threw(MarkerCollision);
      }
      return Returned(());
    }
    crashed := Append(dir, marker);
    return if crashed then Crashed else Returned(());
  }

  datatype LedgerCall = CallReconcile | CallRestore(expected: seq<Marker>) | CallRecord(attempt: Attempt)

  /** Whatever is called, in whatever order and wherever it crashes, no remembered material is lost. */
  method AnyCalls(cfg: Config, dir: SessionDir, calls: seq<LedgerCall>) returns (last: Ended<Ledger, LedgerError>)
    modifies dir`files, dir`manifest
    ensures old(dir.Known(cfg)) <= dir.Known(cfg)
    ensures last.Returned? ==> old(dir.Known(cfg)) <= dir.files.Keys
  {
    var i := 0;
    while i < |calls|
      invariant 0 <= i <= |calls|
      invariant old(dir.Known(cfg)) <= dir.Known(cfg)
    {
      ghost var files, manifest := dir.files, dir.manifest;
      match calls[i] {
        case CallReconcile =>
          var r := Reconcile(cfg, dir);
          ReconcileForgetsNothing(cfg, files, manifest, dir.files, dir.manifest);
        case CallRestore(expected) =>
          var r := Restore(cfg, dir, expected);
          RestoreForgetsNothing(cfg, files, manifest, expected, dir.files, dir.manifest);
        case CallRecord(attempt) =>
          var r := Record(cfg, dir, attempt);
          RecordForgetsNothing(cfg, files, manifest, MarkerFor(attempt), dir.files, dir.manifest);
      }
      i := i + 1;
    }
    ghost var files, manifest := dir.files, dir.manifest;
    last := Reconcile(cfg, dir);
    ReconcileForgetsNothing(cfg, files, manifest, dir.files, dir.manifest);
  }

  lemma MergeValid(cfg: Config, files: Markers, entries: Markers)
    requires FilesValid(cfg, files) && FilesValid(cfg, entries)
    ensures FilesValid(cfg, Merge(files, entries))
  {
    var merged := Merge(files, entries);
    forall k | k in merged ensures FiledUnder(cfg, k, merged[k]) {
      assert k in files ==> FiledUnder(cfg, k, files[k]);
      assert k in entries ==> FiledUnder(cfg, k, entries[k]);
      assert merged[k] == if k in files then files[k] else entries[k];
    }
  }

  lemma EntriesValid(cfg: Config, manifest: Manifest)
    ensures FilesValid(cfg, Entries(cfg, manifest))
  {
  }

  lemma ValidFilesReadable(cfg: Config, files: Markers)
    requires FilesValid(cfg, files)
    ensures Readable(cfg, Present(files, true)) && Entries(cfg, Present(files, true)) == files
  {
  }

  /** After a successful reconciliation there is nothing left to merge, repair or contradict. */
  lemma ReconciledHalves(cfg: Config, files: Markers, manifest: Manifest, merged: Markers, manifest': Manifest)
    requires FilesValid(cfg, files) && merged == Merge(files, Entries(cfg, manifest))
    requires manifest' == if merged == map[] && manifest.Absent? then Absent else Present(merged, true)
    ensures FilesValid(cfg, merged)
    ensures Merge(merged, Entries(cfg, manifest')) == merged && !Conflicting(merged, Entries(cfg, manifest'))
    ensures manifest'.Absent? || Readable(cfg, manifest')
  {
    EntriesValid(cfg, manifest);
    MergeValid(cfg, files, Entries(cfg, manifest));
    ValidFilesReadable(cfg, merged);
  }

  /** A second reconciliation writes nothing and reports no repair. */
  method ReconcileTwice(cfg: Config, dir: SessionDir) returns (first: Ended<Ledger, LedgerError>, second: Ended<Ledger, LedgerError>)
    modifies dir`files, dir`manifest
    ensures first.Returned? && second.Returned? ==>
              second.value == Ledger(first.value.markers, false, false) && dir.files == first.value.markers
    ensures first.Returned? ==> !second.Threw?
  {
    ghost var files0, manifest0 := dir.files, dir.manifest;
    first := Reconcile(cfg, dir);
    if !first.Returned? {
      return first, Crashed;
    }
    ghost var files1, manifest1 := dir.files, dir.manifest;
    ReconciledHalves(cfg, files0, manifest0, files1, manifest1);
    second := Reconcile(cfg, dir);
    assert second.Returned? ==> dir.files == files1 && dir.manifest == manifest1;
  }
}
