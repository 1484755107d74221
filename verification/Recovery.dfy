/** Losing artifact rows and reconciling: `reconcile` of `nawat/cache.py` over the marker walk. */
module Recovery {
  import opened Wrappers
  import K = Keys
  import opened Markers
  import M = CacheModel
  import C = Cache

  datatype Row = Row(bytes: nat, files: nat, pinned: bool, replicated: bool)

  /** `key.local_path(root).exists()`. */
  ghost predicate OnDisk(root: Dir, k: K.Key) {
    exists d :: LeadsTo(root, K.Segments(k), d)
  }

  ghost function Registered(d: Dir): Row {
    Row(M.Total(d.files), |d.files|, false, false)
  }

  ghost predicate AllMarked(found: seq<Frame>) {
    forall f :: f in found ==> f.dir.marker.Some?
  }

  /** The marker of a found directory carries this key. */
  predicate Carries(f: Frame, k: K.Key) {
    f.dir.marker.Some? && f.dir.marker.value.Marker? && f.dir.marker.value.key == k
  }

  predicate Malforms(f: Frame) {
    f.dir.marker.Some? && f.dir.marker.value.Malformed?
  }

  predicate NoneMalformed(found: seq<Frame>) {
    forall f :: f in found ==> !Malforms(f)
  }

  /** The rows after the markers `found` have been read; `known` are the keys that had a row before. */
  ghost function Register(rows: map<K.Key, Row>, known: set<K.Key>, found: seq<Frame>): map<K.Key, Row>
    requires AllMarked(found)
  {
    if found == [] then rows
    else
      var f := found[|found| - 1];
      var before := Register(rows, known, found[..|found| - 1]);
      if !f.dir.marker.value.Marker? || f.dir.marker.value.key in known then before
      else before[f.dir.marker.value.key := Registered(f.dir)]
  }

  ghost function Kept(rows: map<K.Key, Row>, root: Dir): map<K.Key, Row> {
    map k | k in rows && OnDisk(root, k) :: rows[k]
  }

  ghost function Reconciled(rows: map<K.Key, Row>, root: Dir, skip: set<Path>): map<K.Key, Row> {
    FoundAreMarked(skip, root);
    Register(Kept(rows, root), rows.Keys, Below(skip, [], root))
  }

  lemma FoundAreMarked(skip: set<Path>, root: Dir)
    ensures AllMarked(Below(skip, [], root))
  {
    BelowIsBelow(skip, [], root);
  }

  /** The loop over the markers. A malformed one raises, with those before it registered. */
  method RegisterAll(rows: map<K.Key, Row>, known: set<K.Key>, found: seq<Frame>) returns (result: map<K.Key, Row>, ok: bool)
    requires AllMarked(found)
    ensures ok <==> NoneMalformed(found)
    ensures ok ==> result == Register(rows, known, found)
    ensures !ok ==> exists i :: StopsAt(found, i) && result == Register(rows, known, found[..i])
  {
    result := rows;
    for i := 0 to |found|
      invariant AllMarked(found[..i]) && NoneMalformed(found[..i])
      invariant result == Register(rows, known, found[..i])
    {
      OneMoreMarker(rows, known, found, i);
      assert found[i] in found && found[..i + 1] == found[..i] + [found[i]];
      var d := found[i].dir;
      if d.marker.value.Malformed? {
        assert StopsAt(found, i);
        return result, false;
      }
      if d.marker.value.Marker? && d.marker.value.key !in known {
        var bytes := C.SumSizes(d.files);
        result := result[d.marker.value.key := Row(bytes, |d.files|, false, false)];
      }
    }
    assert found[..|found|] == found;
    return result, true;
  }

  /** `reconcile`, the part that compares rows and disk; `present` answers `exists` for the known keys. */
  method Reconcile(rows: map<K.Key, Row>, root: Dir, skip: set<Path>, present: set<K.Key>)
    returns (result: map<K.Key, Row>, ok: bool)
    requires forall k :: k in rows ==> (k in present <==> OnDisk(root, k))
    ensures ok <==> NoneMalformed(Below(skip, [], root))
    ensures ok ==> result == Reconciled(rows, root, skip)
    ensures !ok ==> exists i :: StopsAt(Below(skip, [], root), i) && result == Register(Kept(rows, root), rows.Keys, Below(skip, [], root)[..i])
  {
    var kept := map k | k in rows && k in present :: rows[k];
    assert kept == Kept(rows, root);
    var found := WalkMarkers(root, skip);
    FoundAreMarked(skip, root);
    result, ok := RegisterAll(kept, rows.Keys, found);
  }

  /** The first malformed marker. */
  ghost predicate StopsAt(found: seq<Frame>, i: int) {
    0 <= i < |found| && AllMarked(found[..i]) && NoneMalformed(found[..i]) && Malforms(found[i])
  }

  lemma OneMoreMarker(rows: map<K.Key, Row>, known: set<K.Key>, found: seq<Frame>, i: nat)
    requires i < |found| && AllMarked(found)
    ensures AllMarked(found[..i]) && AllMarked(found[..i + 1])
    ensures found[i].dir.marker.Some?
    ensures var before, f := Register(rows, known, found[..i]), found[i];
      Register(rows, known, found[..i + 1])
      == if !f.dir.marker.value.Marker? || f.dir.marker.value.key in known then before
         else before[f.dir.marker.value.key := Registered(f.dir)]
  {
    assert found[..i + 1][..i] == found[..i];
  }

  ghost predicate MarkedAs(found: seq<Frame>, k: K.Key) {
    exists f :: f in found && Carries(f, k)
  }

  /** The row is that of a found directory with this key. */
  ghost predicate From(found: seq<Frame>, k: K.Key, row: Row) {
    exists f :: f in found && Carries(f, k) && row == Registered(f.dir)
  }

  lemma OneMoreFound(init: seq<Frame>, last: Frame, k: K.Key, row: Row)
    ensures MarkedAs(init + [last], k) <==> MarkedAs(init, k) || Carries(last, k)
    ensures From(init + [last], k, row) <==> From(init, k, row) || (Carries(last, k) && row == Registered(last.dir))
  {
    var found := init + [last];
    assert last in found && forall f :: f in init ==> f in found;
  }

  lemma {:induction false} RegisterKey(rows: map<K.Key, Row>, known: set<K.Key>, found: seq<Frame>, k: K.Key)
    requires AllMarked(found)
    ensures var after := Register(rows, known, found);
      && (k in after <==> k in rows || (k !in known && MarkedAs(found, k)))
      && (k in rows && k in known ==> after[k] == rows[k])
      && (k in after && k !in rows ==> From(found, k, after[k]))
    decreases |found|
  {
    if found != [] {
      var init, last := found[..|found| - 1], found[|found| - 1];
      RegisterKey(rows, known, init, k);
      assert found == init + [last];
      var after := Register(rows, known, found);
      OneMoreFound(init, last, k, if k in after then after[k] else Registered(last.dir));
    }
  }

  lemma NothingKnown(root: Dir, found: seq<Frame>, k: K.Key)
    requires AllMarked(found)
    ensures var none: map<K.Key, Row> := map[]; Kept(none, root) == none && (k in Register(none, none.Keys, found) <==> MarkedAs(found, k))
  {
    var none: map<K.Key, Row> := map[];
    RegisterKey(none, none.Keys, found, k);
  }

  /** With all rows lost, reconciling brings keys back exactly from the shallowest markers within six names
      of the root: a key of more segments, or one inside another artifact, does not come back. */
  lemma WhatComesBack(root: Dir, skip: set<Path>, k: K.Key)
    requires NoneMalformed(Below(skip, [], root))
    ensures k in Reconciled(map[], root, skip) <==> exists p, d :: Shallowest(skip, root, p, d) && Carries(Frame(p, d), k)
  {
    var found := Below(skip, [], root);
    FoundAreMarked(skip, root);
    NothingKnown(root, found, k);
    if MarkedAs(found, k) {
      var f :| f in found && Carries(f, k);
      FoundInPlace(root, skip, f);
      assert Carries(Frame(f.path, f.dir), k);
    }
    if p, d :| Shallowest(skip, root, p, d) && Carries(Frame(p, d), k) {
      FoundInPlace(root, skip, Frame(p, d));
    }
  }

  /** Where every marker stands at the place its key names, a lost key comes back exactly when it has at most
      six segments and its marked directory is reached through unmarked, listable, unskipped ones: no key's
      own name can keep the walk away. Its row then counts that directory's files, unpinned and unreplicated. */
  lemma KeysAtHomeComeBack(root: Dir, skip: set<Path>, k: K.Key)
    requires K.Valid(k) && Distinguishable(root)
    requires forall p, d :: Shallowest(skip, root, p, d) ==> Housing(p, d)
    ensures var back := Reconciled(map[], root, skip);
      && (k in back <==> |K.Segments(k)| <= 6 && (forall i :: 0 < i <= |K.Segments(k)| ==> K.Segments(k)[..i] !in skip)
                         && exists d :: Way(root, K.Segments(k), d) && d.marker == Some(Marker(k)))
      && (k in back ==> exists d :: Way(root, K.Segments(k), d) && d.marker == Some(Marker(k))
                          && back[k] == Row(M.Total(d.files), |d.files|, false, false))
  {
    hide Below, Register, Way, Reconciled, K.Segments;
    AllAtHome(root, skip);
    WhatComesBack(root, skip, k);
    NamesAreOpen(k);
    if d :| Way(root, K.Segments(k), d) && d.marker == Some(Marker(k)) {
      assert Carries(Frame(K.Segments(k), d), k);
    }
    if k in Reconciled(map[], root, skip) {
      var p, d :| Shallowest(skip, root, p, d) && Carries(Frame(p, d), k);
      assert Housing(p, d);
      RowOfFound(root, skip, k);
    }
  }

  lemma AllAtHome(root: Dir, skip: set<Path>)
    requires forall p, d :: Shallowest(skip, root, p, d) ==> Housing(p, d)
    ensures NoneMalformed(Below(skip, [], root))
  {
    hide Below, Shallowest;
    forall f | f in Below(skip, [], root) ensures !Malforms(f) {
      FoundInPlace(root, skip, f);
      assert Housing(f.path, f.dir);
    }
  }

  lemma NamesAreOpen(k: K.Key)
    requires K.Valid(k)
    ensures forall name :: name in K.Segments(k) ==> !(".nawat" <= name)
  {
    K.PathsAreKeys(k, k);
  }

  /** What comes back counts the files of a directory the walk found under its key. */
  lemma RowOfFound(root: Dir, skip: set<Path>, k: K.Key)
    requires NoneMalformed(Below(skip, [], root)) && k in Reconciled(map[], root, skip)
    ensures exists p, d :: Shallowest(skip, root, p, d) && d.marker == Some(Marker(k)) && Reconciled(map[], root, skip)[k] == Row(M.Total(d.files), |d.files|, false, false)
  {
    hide Below, Register, Shallowest;
    var found, none: map<K.Key, Row> := Below(skip, [], root), map[];
    FoundAreMarked(skip, root);
    RegisterKey(none, none.Keys, found, k);
    assert Kept(none, root) == none;
    var f :| f in found && Carries(f, k) && Reconciled(none, root, skip)[k] == Registered(f.dir);
    FoundInPlace(root, skip, f);
  }

  /** The marker names the place it stands at. */
  predicate Housing(p: Path, d: Dir) {
    d.marker.Some? && d.marker.value.Marker? && K.Segments(d.marker.value.key) == p
  }

  /** And where a malformed marker makes it raise, exactly from the markers the walk met before the first
      such one: those of what is listed later, or in directories listed later. */
  lemma WhatComesBackBeforeItRaises(root: Dir, skip: set<Path>, i: int, k: K.Key)
    requires StopsAt(Below(skip, [], root), i)
    ensures var none: map<K.Key, Row> := map[];
      k in Register(Kept(none, root), none.Keys, Below(skip, [], root)[..i]) <==> exists j :: 0 <= j < i && Carries(Below(skip, [], root)[j], k)
    ensures forall j :: StopsAt(Below(skip, [], root), j) ==> j == i
  {
    var found := Below(skip, [], root);
    NothingKnown(root, found[..i], k);
    if MarkedAs(found[..i], k) {
      var f :| f in found[..i] && Carries(f, k);
      var j :| 0 <= j < i && found[..i][j] == f;
      assert Carries(found[j], k);
    }
    if j :| 0 <= j < i && Carries(found[j], k) {
      assert found[..i][j] == found[j] && found[j] in found[..i];
    }
    forall j | StopsAt(found, j) ensures j == i {
      OneFirst(found, i, j);
      OneFirst(found, j, i);
    }
  }

  lemma OneFirst(found: seq<Frame>, i: int, j: int)
    requires StopsAt(found, i) && StopsAt(found, j)
    ensures i <= j
  {
    assert forall k :: 0 <= k < i ==> found[..i][k] == found[k];
  }

  /** The rows describe the disk: every row's key has its own marked directory, found by the walk, with
      the sizes the row records; and every marker the walk finds stands where its key says and has a row. */
  ghost predicate Describes(rows: map<K.Key, Row>, root: Dir, skip: set<Path>) {
    && (forall k :: k in rows ==> Housed(rows[k], k, root, skip))
    && (forall p, d :: Shallowest(skip, root, p, d) ==> Placed(rows, p, d))
  }

  predicate Placed(rows: map<K.Key, Row>, p: Path, d: Dir) {
    Housing(p, d) && d.marker.value.key in rows
  }

  ghost predicate Housed(row: Row, k: K.Key, root: Dir, skip: set<Path>) {
    exists d :: Shallowest(skip, root, K.Segments(k), d) && Carries(Frame(K.Segments(k), d), k)
                && row.bytes == M.Total(d.files) && row.files == |d.files|
  }

  lemma {:induction false} WayLeads(dir: Dir, path: Path, d: Dir)
    requires Way(dir, path, d)
    ensures LeadsTo(dir, path, d)
    decreases |path|
  {
    if path != [] {
      var c :| c in dir.children && c.name == path[0] && Way(c.dir, path[1..], d);
      WayLeads(c.dir, path[1..], d);
    }
  }

  lemma SamePathSameDir(skip: set<Path>, root: Dir, p: Path, d: Dir, e: Dir)
    requires Distinguishable(root) && Shallowest(skip, root, p, d) && Shallowest(skip, root, p, e)
    ensures d == e
  {
    ShallowestIsFound(skip, root, p, d);
    ShallowestIsFound(skip, root, p, e);
    FoundAreDistinct(skip, [], root);
    var found := Below(skip, [], root);
    var i :| 0 <= i < |found| && found[i] == Frame(p, d);
    var j :| 0 <= j < |found| && found[j] == Frame(p, e);
    assert i == j;
  }

  lemma FoundInPlace(root: Dir, skip: set<Path>, f: Frame)
    ensures f in Below(skip, [], root) <==> Shallowest(skip, root, f.path, f.dir)
  {
    ShallowestIsFound(skip, root, f.path, f.dir);
    assert f == Frame(f.path, f.dir);
  }

  lemma HousedIsFound(row: Row, k: K.Key, root: Dir, skip: set<Path>)
    requires Housed(row, k, root, skip)
    ensures OnDisk(root, k) && AllMarked(Below(skip, [], root)) && MarkedAs(Below(skip, [], root), k)
  {
    var d :| Shallowest(skip, root, K.Segments(k), d) && Carries(Frame(K.Segments(k), d), k);
    WayLeads(root, K.Segments(k), d);
    FoundAreMarked(skip, root);
    FoundInPlace(root, skip, Frame(K.Segments(k), d));
  }

  /** A marker found for a housed key is the housed directory itself. */
  lemma FoundIsHome(row: Row, k: K.Key, root: Dir, skip: set<Path>, f: Frame)
    requires Distinguishable(root) && Housed(row, k, root, skip)
    requires Shallowest(skip, root, f.path, f.dir) && Carries(f, k) && f.path == K.Segments(k)
    ensures Registered(f.dir).bytes == row.bytes && Registered(f.dir).files == row.files
  {
    var d :| Shallowest(skip, root, K.Segments(k), d) && Carries(Frame(K.Segments(k), d), k)
             && row.bytes == M.Total(d.files) && row.files == |d.files|;
    SamePathSameDir(skip, root, f.path, f.dir, d);
  }

  lemma AllHoused(full: map<K.Key, Row>, survivors: map<K.Key, Row>, root: Dir, skip: set<Path>)
    requires Describes(full, root, skip) && survivors.Keys <= full.Keys
    ensures AllMarked(Below(skip, [], root))
    ensures forall k :: k in full ==> MarkedAs(Below(skip, [], root), k)
    ensures Reconciled(survivors, root, skip) == Register(survivors, survivors.Keys, Below(skip, [], root))
  {
    hide Below, Register;
    FoundAreMarked(skip, root);
    forall k | k in full ensures OnDisk(root, k) && MarkedAs(Below(skip, [], root), k) {
      HousedIsFound(full[k], k, root, skip);
    }
    assert Kept(survivors, root) == survivors;
  }

  ghost predicate SameSizes(a: Row, b: Row) {
    a.bytes == b.bytes && a.files == b.files
  }

  lemma LostRowComesBack(full: map<K.Key, Row>, survivors: map<K.Key, Row>, root: Dir, skip: set<Path>, k: K.Key)
    requires Distinguishable(root) && Describes(full, root, skip) && survivors.Keys <= full.Keys
    ensures var back := Reconciled(survivors, root, skip);
      && (k in back <==> k in full)
      && (k in survivors ==> back[k] == survivors[k])
      && (k in full && k !in survivors ==> SameSizes(back[k], full[k]))
  {
    AllHoused(full, survivors, root, skip);
    var found, back := Below(skip, [], root), Reconciled(survivors, root, skip);
    RegisterKey(survivors, survivors.Keys, found, k);
    if k in back && k !in survivors {
      var f :| f in found && Carries(f, k) && back[k] == Registered(f.dir);
      FoundInPlace(root, skip, f);
      assert Placed(full, f.path, f.dir);
      FoundIsHome(full[k], k, root, skip, f);
    }
  }

  /** Lose any of the rows, or all of them: reconciling succeeds, restores the same keys, bytes and file
      counts, and leaves the surviving rows alone. */
  lemma LostRowsComeBack(full: map<K.Key, Row>, survivors: map<K.Key, Row>, root: Dir, skip: set<Path>)
    requires Distinguishable(root) && Describes(full, root, skip) && survivors.Keys <= full.Keys
    ensures NoneMalformed(Below(skip, [], root))
    ensures var back := Reconciled(survivors, root, skip);
      && back.Keys == full.Keys
      && (forall k :: k in survivors ==> back[k] == survivors[k])
      && (forall k :: k in full && k !in survivors ==> SameSizes(back[k], full[k]))
  {
    forall f | f in Below(skip, [], root) ensures !Malforms(f) {
      FoundInPlace(root, skip, f);
      assert Placed(full, f.path, f.dir);
    }
    var back := Reconciled(survivors, root, skip);
    forall k
      ensures k in back <==> k in full
      ensures k in survivors ==> back[k] == survivors[k]
      ensures k in full && k !in survivors ==> SameSizes(back[k], full[k])
    {
      LostRowComesBack(full, survivors, root, skip, k);
    }
  }

  /** Reconciling again changes nothing. */
  lemma ReconcilingAgainChangesNothing(full: map<K.Key, Row>, survivors: map<K.Key, Row>, root: Dir, skip: set<Path>)
    requires Distinguishable(root) && Describes(full, root, skip) && survivors.Keys <= full.Keys
    ensures Reconciled(Reconciled(survivors, root, skip), root, skip) == Reconciled(survivors, root, skip)
  {
    LostRowsComeBack(full, survivors, root, skip);
    LostRowsComeBack(full, Reconciled(survivors, root, skip), root, skip);
  }
}
