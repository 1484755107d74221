/** The cache over object storage as values: `nawat/cache.py` with the manifests of `nawat/store.py`.
    Local trees of different keys do not overlap: cached keys are pairwise non-nested. */
module CacheModel {
  import opened Wrappers
  import opened Leases

  type Key = string
  /** Relative path to size, over the files `scan_local` sees. */
  type Manifest = map<string, nat>

  datatype Row = Row(bytes: nat, files: nat, fetchedAt: int, lastUsed: int, pinned: bool, replicated: bool)

  /** The directory at a key's local path, with the `fetched_at` of its marker if it carries one. */
  datatype Tree = Tree(files: Manifest, marker: Option<int>)

  datatype Cache = Cache(rows: map<Key, Row>, local: map<Key, Tree>, leases: map<LeaseId, Lease<Key>>, free: int)

  datatype Limits = Limits(ceiling: nat, minFree: nat)

  /** What listing a key's prefix answers at that moment; the store may be unreachable. */
  datatype Reply = Unreachable | Listing(files: Manifest)
  type Store = Key -> Reply

  // -- sizes -----------------------------------------------------------------------

  ghost function Total<K(!new)>(m: map<K, nat>): nat {
    if m == map[] then 0
    else
      var k :| k in m;
      m[k] + Total(m - {k})
  }

  lemma {:induction false} TotalWithout<K(!new)>(m: map<K, nat>, k: K)
    requires k in m
    ensures Total(m) == m[k] + Total(m - {k})
    decreases |m|
  {
    var first :| first in m && Total(m) == m[first] + Total(m - {first});
    if first != k {
      TotalWithout(m - {first}, k);
      TotalWithout(m - {k}, first);
      assert m - {first} - {k} == m - {k} - {first};
    }
  }

  lemma TotalWith<K(!new)>(m: map<K, nat>, k: K, v: nat)
    requires k !in m
    ensures Total(m[k := v]) == Total(m) + v
  {
    TotalWithout(m[k := v], k);
    assert m[k := v] - {k} == m;
  }

  function Sizes(rows: map<Key, Row>): map<Key, nat> {
    map k | k in rows :: rows[k].bytes
  }

  /** `status().used`. */
  ghost function Used(rows: map<Key, Row>): nat {
    Total(Sizes(rows))
  }

  lemma UsedWithout(rows: map<Key, Row>, k: Key)
    requires k in rows
    ensures Used(rows) == rows[k].bytes + Used(rows - {k}) && Used(map[]) == 0
  {
    assert Sizes(map[]) == map[];
    TotalWithout(Sizes(rows), k);
    assert Sizes(rows) - {k} == Sizes(rows - {k});
  }

  lemma UsedReplaced(rows: map<Key, Row>, k: Key, row: Row)
    requires k in rows && rows[k].bytes == row.bytes
    ensures Used(rows[k := row]) == Used(rows)
  {
    assert Sizes(rows[k := row]) == Sizes(rows);
  }

  function Max(a: int, b: int): int { if a < b then b else a }

  /** `_deficit`: what must go to fit `need` under the ceiling and above the disk reserve. */
  ghost function Deficit(c: Cache, limits: Limits, need: int): nat {
    Max(0, Max(Used(c.rows) + need - limits.ceiling, need + limits.minFree - c.free))
  }

  // -- verification ----------------------------------------------------------------

  /** `verify_manifests(...).ok`: every local file is there under the same name with the same size. */
  predicate Covers(remote: Manifest, local: Manifest) {
    forall f :: f in local ==> f in remote && remote[f] == local[f]
  }

  datatype Verdict = Reclaimable | Kept | InUse | Unverified

  /** The gates in front of an automatic deletion, in the order the program asks them. */
  predicate Passes(store: Store, local: map<Key, Tree>, k: Key) {
    k in local && store(k).Listing? && Covers(store(k).files, local[k].files)
  }

  predicate Asks(store: Store, local: map<Key, Tree>, k: Key) {
    k in local && store(k).Listing?
  }

  function Judge(c: Cache, host: Host, store: Store, k: Key): Verdict
    requires k in c.rows
  {
    if c.rows[k].pinned then Kept
    else if Leased(c.leases, host, k) then InUse
    else if Passes(store, c.local, k) then Reclaimable
    else Unverified
  }

  // -- reconciliation --------------------------------------------------------------

  function Recovered(t: Tree, bytes: nat, now: int): Row {
    Row(bytes, |t.files|, if t.marker.Some? then t.marker.value else now, now, false, false)
  }

  /** Rows whose directory is gone are forgotten, marked directories without a row are registered,
      leases of dead holders are reaped. */
  ghost function Reconciled(c: Cache, host: Host, now: int): Cache {
    c.(leases := Reaped(c.leases, host),
       rows := map k | k in c.local && (k in c.rows || c.local[k].marker.Some?) ::
         if k in c.rows then c.rows[k] else Recovered(c.local[k], Total(c.local[k].files), now))
  }

  // -- collection ------------------------------------------------------------------

  /** `sorted(self.list(), key=last_used)`. */
  ghost predicate LruOrder(order: seq<Key>, rows: map<Key, Row>) {
    && (forall k :: k in order <==> k in rows)
    && (forall i, j :: 0 <= i < j < |order| ==> order[i] != order[j] && rows[order[i]].lastUsed <= rows[order[j]].lastUsed)
  }

  datatype Collected = Collected(target: nat, freed: nat, evicted: seq<Key>, skipped: seq<(Key, Verdict)>)

  /** Delete one artifact: its tree, its row, and the disk its files held. */
  ghost function Removed(c: Cache, k: Key): Cache
    requires k in c.local
  {
    c.(rows := c.rows - {k}, local := c.local - {k}, free := c.free + Total(c.local[k].files))
  }

  /** `verify` records its outcome, when the store answered. */
  ghost function Flagged(c: Cache, store: Store, k: Key): Cache {
    if k in c.rows && Asks(store, c.local, k) then c.(rows := c.rows[k := c.rows[k].(replicated := Passes(store, c.local, k))]) else c
  }

  datatype Progress = Progress(cache: Cache, result: Collected)

  /** One turn of the collecting loop: `start` is the listing the loop walks, `g` what it has done so far. */
  ghost function Visit(start: Cache, host: Host, store: Store, dry: bool, k: Key, g: Progress): Progress
    requires k in start.rows
  {
    if g.result.freed >= g.result.target then g
    else if start.rows[k].pinned then g.(result := Skip(g.result, k, Kept))
    else if Leased(start.leases, host, k) then g.(result := Skip(g.result, k, InUse))
    else
      var flagged := Flagged(g.cache, store, k);
      if !Passes(store, g.cache.local, k) then Progress(flagged, Skip(g.result, k, Unverified))
      else Progress(if dry then flagged else Removed(flagged, k), Evict(g.result, k, start.rows[k].bytes))
  }

  function Skip(r: Collected, k: Key, why: Verdict): Collected {
    r.(skipped := r.skipped + [(k, why)])
  }

  function Evict(r: Collected, k: Key, bytes: nat): Collected {
    r.(evicted := r.evicted + [k], freed := r.freed + bytes)
  }

  /** The loop after `n` of the listed artifacts. */
  ghost function Sweep(start: Cache, host: Host, store: Store, dry: bool, order: seq<Key>, target: nat, n: nat): Progress
    requires n <= |order| && forall k :: k in order ==> k in start.rows
  {
    if n == 0 then Progress(start, Collected(target, 0, [], []))
    else Visit(start, host, store, dry, order[n - 1], Sweep(start, host, store, dry, order, target, n - 1))
  }

  lemma SweepNone(start: Cache, host: Host, store: Store, dry: bool, order: seq<Key>, target: nat)
    requires forall k :: k in order ==> k in start.rows
    ensures Sweep(start, host, store, dry, order, target, 0) == Progress(start, Collected(target, 0, [], []))
  {
  }

  lemma SweepOnce(start: Cache, host: Host, store: Store, dry: bool, order: seq<Key>, target: nat, n: nat)
    requires n < |order| && forall k :: k in order ==> k in start.rows
    ensures Sweep(start, host, store, dry, order, target, n + 1)
            == Visit(start, host, store, dry, order[n], Sweep(start, host, store, dry, order, target, n))
  {
  }

  /** `collect` on a reconciled cache. */
  ghost function Collect(c: Cache, host: Host, store: Store, limits: Limits, need: int, dry: bool, order: seq<Key>): Progress
    requires forall k :: k in order ==> k in c.rows
  {
    var target := Deficit(c, limits, need);
    if target == 0 then Progress(c, Collected(0, 0, [], []))
    else Sweep(c, host, store, dry, order, target, |order|)
  }
}
