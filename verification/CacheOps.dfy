/** The operations of `nawat/cache.py` that run under its lock, each as one step on a reconciled cache. */
module CacheOps {
  import opened Wrappers
  import opened Leases
  import opened CacheModel
  import opened CacheCollect

  // -- collect -----------------------------------------------------------------------

  lemma LruOrderIsDistinct(order: seq<Key>, rows: map<Key, Row>)
    requires LruOrder(order, rows)
    ensures Distinct(order) && forall k :: k in order ==> k in rows
  {
  }

  lemma {:induction false} StopIsUnique(c: Cache, host: Host, store: Store, order: seq<Key>, target: nat, n: nat, v: nat, w: nat)
    requires n <= |order| && forall k :: k in order ==> k in c.rows
    requires StopsAt(c, host, store, order, target, n, v) && StopsAt(c, host, store, order, target, n, w)
    ensures v == w
  {
    var atV, atW := SumOf(c.rows, Reclaim(c, host, store, order, v)), SumOf(c.rows, Reclaim(c, host, store, order, w));
    assert (v < w ==> atV < target) && (w < v ==> atW < target);
  }

  /** `collect` evicts exactly the reclaimable artifacts of the shortest stretch of the listing, least
      recently used first, that reaches the target, or all of them; it reports every artifact it passed
      over with the gate that stopped it, and leaves everything else as it was. */
  lemma CollectTakesTheShortestStretch(c: Cache, host: Host, store: Store, limits: Limits, need: int, dry: bool, order: seq<Key>)
    returns (v: nat)
    requires LruOrder(order, c.rows)
    ensures v <= |order|
    ensures var g := Collect(c, host, store, limits, need, dry, order); var target := Deficit(c, limits, need);
      && StopsAt(c, host, store, order, target, |order|, v)
      && Collects(c, host, store, order, g.result, v)
      && g.result.target == target
      && Leaves(c, g, dry)
  {
    LruOrderIsDistinct(order, c.rows);
    var target := Deficit(c, limits, need);
    if target == 0 {
      v := 0;
      NothingLeaves(c, dry, target);
    } else {
      v := SweepStops(c, host, store, dry, order, target, |order|);
    }
  }

  /** A dry run predicts what the real run evicts, skips and frees, and deletes nothing. */
  lemma DryRunPredicts(c: Cache, host: Host, store: Store, limits: Limits, need: int, order: seq<Key>)
    requires LruOrder(order, c.rows)
    ensures var dry, run := Collect(c, host, store, limits, need, true, order), Collect(c, host, store, limits, need, false, order);
      && dry.result == run.result
      && dry.cache.local == c.local && dry.cache.rows.Keys == c.rows.Keys && dry.cache.free == c.free
      && run.cache.local == c.local - Set(dry.result.evicted)
  {
    var v := CollectTakesTheShortestStretch(c, host, store, limits, need, true, order);
    var w := CollectTakesTheShortestStretch(c, host, store, limits, need, false, order);
    StopIsUnique(c, host, store, order, Deficit(c, limits, need), |order|, v, w);
  }

  /** What it takes for an automatic deletion: nobody keeps or uses the artifact, and the store has just
      listed every local file of it under the same name with the same size. */
  ghost predicate Safe(c: Cache, host: Host, store: Store, k: Key) {
    && k in c.rows && k in c.local
    && !c.rows[k].pinned
    && !Leased(c.leases, host, k)
    && store(k).Listing?
    && (forall f :: f in c.local[k].files ==> f in store(k).files && store(k).files[f] == c.local[k].files[f])
  }

  /** Whatever the recorded replication flags say, and whether or not the store answers, `collect`
      deletes only what is safe at that moment. */
  lemma CollectDeletesOnlySafely(c: Cache, host: Host, store: Store, limits: Limits, need: int, dry: bool, order: seq<Key>, k: Key)
    requires LruOrder(order, c.rows)
    requires k in c.local && k !in Collect(c, host, store, limits, need, dry, order).cache.local
    ensures Safe(c, host, store, k) && !dry
  {
    var v := CollectTakesTheShortestStretch(c, host, store, limits, need, dry, order);
    ReclaimablesAre(c, host, store, order[..v]);
  }

  // -- ensure_space ------------------------------------------------------------------

  /** The cache afterwards, and whether the call returned rather than raised. */
  ghost function EnsureSpace(c: Cache, host: Host, store: Store, limits: Limits, need: int, order: seq<Key>): (Cache, bool)
    requires forall k :: k in order ==> k in c.rows
  {
    if need <= 0 then (c, true)
    else
      var g := Collect(c, host, store, limits, need, false, order);
      (g.cache, g.result.freed >= g.result.target)
  }

  /** Rows record what is on disk. */
  ghost predicate SizesMatch(c: Cache) {
    forall k :: k in c.rows && k in c.local ==> c.rows[k].bytes == Total(c.local[k].files)
  }

  lemma {:induction false} SumsMatch(c: Cache, keys: seq<Key>)
    requires SizesMatch(c) && forall k :: k in keys ==> k in c.rows && k in c.local
    ensures SumOf(c.rows, keys) == SumOnDisk(c.local, keys)
  {
    if keys != [] { SumsMatch(c, keys[..|keys| - 1]); }
  }

  /** The deficit is the least amount that has to go for what is needed to fit under the ceiling, and on
      the disk above the reserve. */
  lemma {:induction false} DeficitIsLeast(c: Cache, limits: Limits, need: int, gone: nat)
    ensures Deficit(c, limits, need) <= gone
       <==> Used(c.rows) - gone + need <= limits.ceiling && c.free + gone - need >= limits.minFree
  {
  }

  /** A collection that freed its target has brought the ceiling in reach, and when row sizes match the
      disk the disk reserve as well. */
  lemma EnoughMeansRoom(c: Cache, host: Host, store: Store, limits: Limits, need: int, order: seq<Key>)
    requires LruOrder(order, c.rows)
    requires var r := Collect(c, host, store, limits, need, false, order).result; r.freed >= r.target
    ensures var c' := Collect(c, host, store, limits, need, false, order).cache;
      && Used(c'.rows) + need <= limits.ceiling
      && (SizesMatch(c) ==> c'.free >= need + limits.minFree)
  {
    var v := CollectTakesTheShortestStretch(c, host, store, limits, need, false, order);
    var r := Collect(c, host, store, limits, need, false, order).result;
    DeficitIsLeast(c, limits, need, r.freed);
    if SizesMatch(c) { SumsMatch(c, r.evicted); }
  }

  /** A collection that did not free its target leaves nothing that may go. */
  lemma TooLittleMeansNothingLeft(c: Cache, host: Host, store: Store, limits: Limits, need: int, order: seq<Key>, k: Key)
    requires LruOrder(order, c.rows)
    requires var r := Collect(c, host, store, limits, need, false, order).result; r.freed < r.target
    ensures !Safe(Collect(c, host, store, limits, need, false, order).cache, host, store, k)
  {
    var v := CollectTakesTheShortestStretch(c, host, store, limits, need, false, order);
    var g := Collect(c, host, store, limits, need, false, order);
    assert v == |order| && order[..v] == order;
    ReclaimablesAre(c, host, store, order);
    assert Safe(c, host, store, k) ==> k in g.result.evicted;
  }

  /** A returning `ensure_space` has brought the ceiling in reach; when row sizes match the disk, it has
      brought the disk reserve in reach as well. */
  lemma ReturningMeansRoom(c: Cache, host: Host, store: Store, limits: Limits, need: int, order: seq<Key>)
    requires LruOrder(order, c.rows) && need > 0
    requires EnsureSpace(c, host, store, limits, need, order).1
    ensures var c' := EnsureSpace(c, host, store, limits, need, order).0;
      && Used(c'.rows) + need <= limits.ceiling
      && (SizesMatch(c) ==> Deficit(c', limits, need) == 0)
      && (SizesMatch(c) ==> c'.free >= need + limits.minFree)
  {
    EnoughMeansRoom(c, host, store, limits, need, order);
    DeficitIsLeast(EnsureSpace(c, host, store, limits, need, order).0, limits, need, 0);
  }

  lemma OneMoreFreed(c: Cache, host: Host, store: Store, order: seq<Key>, n: nat)
    requires n < |order| && forall k :: k in order ==> k in c.rows
    ensures SumOf(c.rows, Reclaim(c, host, store, order, n)) <= SumOf(c.rows, Reclaim(c, host, store, order, n + 1))
  {
    ReclaimablesNext(c, host, store, order, n);
    var before := Reclaim(c, host, store, order, n);
    if Judge(c, host, store, order[n]) == Reclaimable {
      SumOfNext(c.rows, before, order[n]);
    } else {
      assert Reclaim(c, host, store, order, n + 1) == before;
    }
  }

  lemma {:induction false} MoreListedMoreFreed(c: Cache, host: Host, store: Store, order: seq<Key>, m: nat, n: nat)
    requires m <= n <= |order| && forall k :: k in order ==> k in c.rows
    ensures SumOf(c.rows, Reclaim(c, host, store, order, m)) <= SumOf(c.rows, Reclaim(c, host, store, order, n))
    decreases n
  {
    if m < n {
      MoreListedMoreFreed(c, host, store, order, m, n - 1);
      OneMoreFreed(c, host, store, order, n - 1);
    }
  }

  /** It raises exactly when evicting every reclaimable artifact would still fall short, of the ceiling or
      of the disk reserve. */
  lemma RaisesOnlyWhenNothingHelps(c: Cache, host: Host, store: Store, limits: Limits, need: int, order: seq<Key>)
    requires LruOrder(order, c.rows) && need > 0
    ensures !EnsureSpace(c, host, store, limits, need, order).1
       <==> SumOf(c.rows, Reclaim(c, host, store, order, |order|)) < Deficit(c, limits, need)
    ensures var all := SumOf(c.rows, Reclaim(c, host, store, order, |order|));
      !EnsureSpace(c, host, store, limits, need, order).1
      <==> Used(c.rows) - all + need > limits.ceiling || c.free + all - need < limits.minFree
  {
    RaisesByDeficit(c, host, store, limits, need, order);
    DeficitIsLeast(c, limits, need, SumOf(c.rows, Reclaim(c, host, store, order, |order|)));
    hide *;
  }

  lemma RaisesByDeficit(c: Cache, host: Host, store: Store, limits: Limits, need: int, order: seq<Key>)
    requires LruOrder(order, c.rows) && need > 0
    ensures !EnsureSpace(c, host, store, limits, need, order).1
       <==> SumOf(c.rows, Reclaim(c, host, store, order, |order|)) < Deficit(c, limits, need)
  {
    var v := CollectTakesTheShortestStretch(c, host, store, limits, need, false, order);
    MoreListedMoreFreed(c, host, store, order, v, |order|);
  }

  // -- evict -------------------------------------------------------------------------

  datatype Evicted = Freed(bytes: nat) | NotOnDisk | IsKept | IsInUse | NotVerified

  ghost function EvictOne(c: Cache, host: Host, store: Store, k: Key, force: bool): (Cache, Evicted) {
    if k !in c.rows || k !in c.local then (c, NotOnDisk)
    else if c.rows[k].pinned && !force then (c, IsKept)
    else if Leased(c.leases, host, k) && !force then (c, IsInUse)
    else
      var asked := if force then c else Flagged(c, store, k);
      if !force && !Passes(store, c.local, k) then (asked, NotVerified)
      else (Removed(asked, k), Freed(c.rows[k].bytes))
  }

  /** A non-forced `evict` deletes the artifact exactly when that is safe, and touches no other tree. */
  lemma {:induction false} EvictDeletesExactlySafely(c: Cache, host: Host, store: Store, k: Key)
    requires forall j :: j in c.rows ==> j in c.local
    ensures var (c', r) := EvictOne(c, host, store, k, false);
      && c'.local == (if Safe(c, host, store, k) then c.local - {k} else c.local)
      && (r.Freed? <==> Safe(c, host, store, k))
      && (k in c.local ==> k in c'.rows || Safe(c, host, store, k) || k !in c.rows)
      && c'.leases == c.leases
  {
  }

  // -- resolve -----------------------------------------------------------------------

  /** What the outside world contributes to one fetch: what the store answers before and after the
      transfer, the hub's size estimate, what arrived in staging, and how the listings came out. */
  datatype Fetch = Fetch(before: Store, after: Store, allowHub: bool, hubSize: nat, arrived: Option<Manifest>,
                         firstListing: seq<Key>, secondListing: seq<Key>, now: int)

  datatype Resolved = AtPath | StoreUnavailable | NoSource | NoSpace | TransferFailed | TargetInTheWay

  /** The size the program reserves room for; none when there is nowhere to fetch from. */
  ghost function Expected(f: Fetch, k: Key): Option<nat>
    requires f.before(k).Listing?
  {
    if f.before(k).files != map[] then Some(Total(f.before(k).files))
    else if f.allowHub then Some(f.hubSize) else None
  }

  function Registered(files: Manifest, bytes: nat, now: int): Row {
    Row(bytes, |files|, now, now, false, true)
  }

  /** Staging is renamed into place and its row written. */
  ghost function Placed(c: Cache, k: Key, files: Manifest, now: int): Cache {
    c.(local := c.local[k := Tree(files, Some(now))], rows := c.rows[k := Registered(files, Total(files), now)],
       free := c.free - Total(files))
  }

  /** The listings the program makes while it fetches `k`. */
  ghost predicate ListingsFit(c: Cache, host: Host, limits: Limits, f: Fetch, k: Key) {
    && LruOrder(f.firstListing, c.rows)
    && (f.before(k).Listing? && Expected(f, k).Some? && f.arrived.Some?
        && Roomy(c, host, limits, f, k).1 && k !in Roomy(c, host, limits, f, k).0.local ==>
          LruOrder(f.secondListing, Placed(Roomy(c, host, limits, f, k).0, k, f.arrived.value, f.now).rows))
  }

  /** Room is made for what is expected, or for the disk reserve when that is not known. */
  ghost function Roomy(c: Cache, host: Host, limits: Limits, f: Fetch, k: Key): (Cache, bool)
    requires LruOrder(f.firstListing, c.rows) && f.before(k).Listing? && Expected(f, k).Some?
  {
    LruOrderIsDistinct(f.firstListing, c.rows);
    var expected := Expected(f, k).value;
    EnsureSpace(c, host, f.before, limits, if expected == 0 then limits.minFree else expected, f.firstListing)
  }

  /** An estimate that was too low is made up for once the size is known. */
  predicate Underestimated(expected: nat, size: nat) {
    0 < expected < size
  }

  /** `_fetch`. */
  ghost function FetchInto(c: Cache, host: Host, limits: Limits, f: Fetch, k: Key): (Cache, Resolved)
    requires ListingsFit(c, host, limits, f, k)
  {
    if f.before(k).Unreachable? then (c, StoreUnavailable)
    else if Expected(f, k).None? then (c, NoSource)
    else
      var (room, ok) := Roomy(c, host, limits, f, k);
      if !ok then (room, NoSpace)
      else if f.arrived.None? then (room, TransferFailed)
      else if k in room.local then (room, TargetInTheWay)
      else
        var placed := Placed(room, k, f.arrived.value, f.now);
        if Underestimated(Expected(f, k).value, Total(f.arrived.value)) then
          LruOrderIsDistinct(f.secondListing, placed.rows);
          (Collect(placed, host, f.after, limits, 0, false, f.secondListing).cache, AtPath)
        else (placed, AtPath)
  }

  /** A hit makes no listing. */
  ghost predicate Ready(c: Cache, host: Host, limits: Limits, f: Fetch, k: Key) {
    (k in c.rows && k in c.local) || ListingsFit(c, host, limits, f, k)
  }

  /** `resolve` on a reconciled cache; `lease` is the id and pid of the lease to take, if any. */
  ghost function Resolve(c: Cache, host: Host, limits: Limits, f: Fetch, k: Key, lease: Option<(LeaseId, Pid)>): (Cache, Resolved)
    requires Ready(c, host, limits, f, k)
  {
    var (fetched, r) :=
      if k in c.rows && k in c.local then (c.(rows := c.rows[k := c.rows[k].(lastUsed := f.now)]), AtPath)
      else FetchInto(c, host, limits, f, k);
    if r == AtPath && lease.Some?
    then (fetched.(leases := fetched.leases[lease.value.0 := Acquired(k, lease.value.1, host)]), r)
    else (fetched, r)
  }

  /** What is listed before the artifact does not make up the deficit. */
  ghost predicate Reached(c: Cache, host: Host, store: Store, limits: Limits, order: seq<Key>, k: Key) {
    && (forall j :: j in order ==> j in c.rows)
    && exists i :: 0 <= i < |order| && order[i] == k && SumOf(c.rows, Reclaim(c, host, store, order, i)) < Deficit(c, limits, 0)
  }

  /** The artifact is collected again before its lease is taken: its size was underestimated, the store
      verifies it, and what was listed before it does not make up the deficit. */
  ghost predicate GivesItselfBack(c: Cache, host: Host, limits: Limits, f: Fetch, k: Key)
    requires Ready(c, host, limits, f, k)
  {
    && !(k in c.rows && k in c.local)
    && FetchInto(c, host, limits, f, k).1 == AtPath
    && Underestimated(Expected(f, k).value, Total(f.arrived.value))
    && var placed := Placed(Roomy(c, host, limits, f, k).0, k, f.arrived.value, f.now);
    && Safe(placed, host, f.after, k)
    && Reached(placed, host, f.after, limits, f.secondListing, k)
  }

  /** The listed artifact `order[i]` is evicted exactly when it may go and those before it do not suffice. */
  lemma EvictedExactlyWhenNeeded(c: Cache, host: Host, store: Store, limits: Limits, need: int, order: seq<Key>, i: nat)
    requires LruOrder(order, c.rows) && i < |order| && order[i] in c.local
    ensures order[i] !in Collect(c, host, store, limits, need, false, order).cache.local
       <==> Safe(c, host, store, order[i]) && SumOf(c.rows, Reclaim(c, host, store, order, i)) < Deficit(c, limits, need)
  {
    var v := CollectTakesTheShortestStretch(c, host, store, limits, need, false, order);
    BeforeTheStop(c, host, store, order, Deficit(c, limits, need), v, i);
    GoneAreReclaimed(c, host, store, order, v, i);
  }

  lemma BeforeTheStop(c: Cache, host: Host, store: Store, order: seq<Key>, target: nat, v: nat, i: nat)
    requires i < |order| && forall k :: k in order ==> k in c.rows
    requires StopsAt(c, host, store, order, target, |order|, v)
    ensures i < v <==> SumOf(c.rows, Reclaim(c, host, store, order, i)) < target
  {
    if v <= i { MoreListedMoreFreed(c, host, store, order, v, i); }
  }

  lemma GoneAreReclaimed(c: Cache, host: Host, store: Store, order: seq<Key>, v: nat, i: nat)
    requires LruOrder(order, c.rows) && i < |order| && v <= |order| && order[i] in c.local
    ensures order[i] in Reclaim(c, host, store, order, v) <==> i < v && Safe(c, host, store, order[i])
  {
    ReclaimablesAre(c, host, store, order[..v]);
    InStretch(order, c.rows, v, i);
  }

  lemma InStretch(order: seq<Key>, rows: map<Key, Row>, v: nat, i: nat)
    requires LruOrder(order, rows) && i < |order| && v <= |order|
    ensures order[i] in order[..v] <==> i < v
  {
    if i < v { assert order[..v][i] == order[i]; }
  }

  lemma CollectedWhenReached(c: Cache, host: Host, store: Store, limits: Limits, order: seq<Key>, k: Key)
    requires LruOrder(order, c.rows) && k in c.rows && k in c.local
    ensures k in Collect(c, host, store, limits, 0, false, order).cache.local
       <==> !(Safe(c, host, store, k) && Reached(c, host, store, limits, order, k))
  {
    var i :| 0 <= i < |order| && order[i] == k;
    EvictedExactlyWhenNeeded(c, host, store, limits, 0, order, i);
    assert forall j :: 0 <= j < |order| && order[j] == k ==> j == i;
  }

  /** `resolve` returns a path whose artifact is there, except exactly when the artifact gives itself back. */
  lemma ResolvedIsThereUnlessGivenBack(c: Cache, host: Host, limits: Limits, f: Fetch, k: Key, lease: Option<(LeaseId, Pid)>)
    requires Ready(c, host, limits, f, k) && forall j :: j in c.rows ==> j in c.local
    ensures var (c', r) := Resolve(c, host, limits, f, k, lease);
      r == AtPath ==> (k in c'.local <==> !GivesItselfBack(c, host, limits, f, k))
  {
    if !(k in c.rows && k in c.local) && FetchInto(c, host, limits, f, k).1 == AtPath
       && Underestimated(Expected(f, k).value, Total(f.arrived.value)) {
      var placed := Placed(Roomy(c, host, limits, f, k).0, k, f.arrived.value, f.now);
      CollectedWhenReached(placed, host, f.after, limits, f.secondListing, k);
    }
  }

  /** What a caller can check: when no more arrives than was expected, or nothing was expected, as with a
      hub that does not say, the artifact is there. */
  lemma ResolvedIsThereWhenTheEstimateHolds(c: Cache, host: Host, limits: Limits, f: Fetch, k: Key, lease: Option<(LeaseId, Pid)>)
    requires Ready(c, host, limits, f, k) && forall j :: j in c.rows ==> j in c.local
    requires f.before(k).Listing? && Expected(f, k).Some? && f.arrived.Some? ==>
               Expected(f, k).value == 0 || Total(f.arrived.value) <= Expected(f, k).value
    ensures var (c', r) := Resolve(c, host, limits, f, k, lease); r == AtPath ==> k in c'.local
  {
    ResolvedIsThereUnlessGivenBack(c, host, limits, f, k, lease);
  }

  // -- what resolving leaves -----------------------------------------------------------

  /** The size the store lists, or what the hub says: what room is made for; the disk reserve when that is 0. */
  ghost predicate Announced(f: Fetch, k: Key, estimate: nat) {
    f.before(k).Listing? && estimate == if f.before(k).files != map[] then Total(f.before(k).files) else f.hubSize
  }

  lemma PlacingKeepsTheBooks(c: Cache, k: Key, files: Manifest, now: int)
    requires k !in c.rows
    ensures Used(Placed(c, k, files, now).rows) == Used(c.rows) + Total(files)
    ensures Placed(c, k, files, now).free == c.free - Total(files)
    ensures SizesMatch(c) ==> SizesMatch(Placed(c, k, files, now))
  {
    hide Used, Total;
    var rows := Placed(c, k, files, now).rows;
    UsedWithout(rows, k);
    assert rows - {k} == c.rows;
  }

  lemma CollectingKeepsTheBooks(c: Cache, host: Host, store: Store, limits: Limits, need: int, dry: bool, order: seq<Key>)
    requires LruOrder(order, c.rows)
    ensures var c' := Collect(c, host, store, limits, need, dry, order).cache;
      && (SizesMatch(c) ==> SizesMatch(c'))
      && ((forall j :: j in c.rows ==> j in c.local) ==> forall j :: j in c'.rows ==> j in c'.local)
  {
    var v := CollectTakesTheShortestStretch(c, host, store, limits, need, dry, order);
  }

  /** What a fetch leaves when no more arrives than room was made for: a cache within its ceiling, and
      above the disk reserve. */
  lemma FetchingStaysWithinLimits(c: Cache, host: Host, limits: Limits, f: Fetch, k: Key, estimate: nat)
    requires ListingsFit(c, host, limits, f, k) && (forall j :: j in c.rows ==> j in c.local)
    requires FetchInto(c, host, limits, f, k).1 == AtPath && Announced(f, k, estimate)
    requires 0 < Total(f.arrived.value) <= if estimate == 0 then limits.minFree else estimate
    ensures var c' := FetchInto(c, host, limits, f, k).0;
      Used(c'.rows) <= limits.ceiling && (SizesMatch(c) ==> c'.free >= limits.minFree)
  {
    var need := if estimate == 0 then limits.minFree else estimate;
    var room := Roomy(c, host, limits, f, k).0;
    ReturningMeansRoom(c, host, f.before, limits, need, f.firstListing);
    CollectingKeepsTheBooks(c, host, f.before, limits, need, false, f.firstListing);
    PlacingKeepsTheBooks(room, k, f.arrived.value, f.now);
  }

  /** When more arrives than was announced, the cache is within its limits again unless nothing more may go. */
  lemma FetchingMakesUpForTheEstimate(c: Cache, host: Host, limits: Limits, f: Fetch, k: Key, estimate: nat, j: Key)
    requires ListingsFit(c, host, limits, f, k) && (forall j :: j in c.rows ==> j in c.local)
    requires FetchInto(c, host, limits, f, k).1 == AtPath && Announced(f, k, estimate)
    requires 0 < estimate < Total(f.arrived.value)
    ensures var c' := FetchInto(c, host, limits, f, k).0;
      || (Used(c'.rows) <= limits.ceiling && (SizesMatch(c) ==> c'.free >= limits.minFree))
      || !Safe(c', host, f.after, j)
  {
    var room := Roomy(c, host, limits, f, k).0;
    CollectingKeepsTheBooks(c, host, f.before, limits, estimate, false, f.firstListing);
    PlacingKeepsTheBooks(room, k, f.arrived.value, f.now);
    var placed := Placed(room, k, f.arrived.value, f.now);
    var r := Collect(placed, host, f.after, limits, 0, false, f.secondListing).result;
    if r.freed >= r.target {
      EnoughMeansRoom(placed, host, f.after, limits, 0, f.secondListing);
    } else {
      TooLittleMeansNothingLeft(placed, host, f.after, limits, 0, f.secondListing, j);
    }
  }

  /** `resolve` that fetches stays within the limits, when it knew how much would arrive; when more
      arrives, it does unless nothing more may go. Only a size that nobody told can go beyond them. */
  lemma ResolvingStaysWithinLimits(
    c: Cache, host: Host, limits: Limits, f: Fetch, k: Key, lease: Option<(LeaseId, Pid)>, estimate: nat, j: Key)
    requires Ready(c, host, limits, f, k) && !(k in c.rows && k in c.local) && (forall j :: j in c.rows ==> j in c.local)
    requires Resolve(c, host, limits, f, k, lease).1 == AtPath && Announced(f, k, estimate)
    ensures f.arrived.Some?
    ensures var c', size := Resolve(c, host, limits, f, k, lease).0, Total(f.arrived.value);
      var within := Used(c'.rows) <= limits.ceiling && (SizesMatch(c) ==> c'.free >= limits.minFree);
      && (0 < size <= (if estimate == 0 then limits.minFree else estimate) ==> within)
      && (0 < estimate < size ==> within || !Safe(FetchInto(c, host, limits, f, k).0, host, f.after, j))
  {
    if 0 < Total(f.arrived.value) <= if estimate == 0 then limits.minFree else estimate {
      FetchingStaysWithinLimits(c, host, limits, f, k, estimate);
    }
    if 0 < estimate < Total(f.arrived.value) {
      FetchingMakesUpForTheEstimate(c, host, limits, f, k, estimate, j);
    }
  }

  // -- what callers are told -------------------------------------------------------------

  /** Somebody alive holds a lease on it. */
  ghost predicate InUseBySomebody(c: Cache, host: Host, k: Key) {
    exists id :: id in c.leases && c.leases[id].key == k && Alive(c.leases[id], host)
  }

  /** The store lists every local file of it with its size. */
  ghost predicate Replicated(c: Cache, store: Store, k: Key) {
    k in c.local && store(k).Listing? && forall f :: f in c.local[k].files ==> f in store(k).files && store(k).files[f] == c.local[k].files[f]
  }

  /** What `collect` passed over it names once, with the first of the gates that it did not get through:
      kept, then in use, then unverified. */
  lemma EachIsToldWhy(c: Cache, host: Host, store: Store, limits: Limits, need: int, dry: bool, order: seq<Key>, k: Key, why: Verdict)
    requires LruOrder(order, c.rows)
    requires (k, why) in Collect(c, host, store, limits, need, dry, order).result.skipped
    ensures k in c.rows && k !in Collect(c, host, store, limits, need, dry, order).result.evicted
    ensures why == if c.rows[k].pinned then Kept else if InUseBySomebody(c, host, k) then InUse else Unverified
    ensures why == Unverified ==> !Replicated(c, store, k)
  {
    var v := CollectTakesTheShortestStretch(c, host, store, limits, need, dry, order);
    hide Collect, Reclaimables, Refused, StopsAt, Leaves, Judge, InUseBySomebody, Replicated, Used;
    RefusedAre(c, host, store, order[..v], k, why);
    ReclaimablesAre(c, host, store, order[..v]);
    Judged(c, host, store, k);
  }

  lemma Judged(c: Cache, host: Host, store: Store, k: Key)
    requires k in c.rows
    ensures Judge(c, host, store, k)
         == if c.rows[k].pinned then Kept else if InUseBySomebody(c, host, k) then InUse else if Replicated(c, store, k) then Reclaimable else Unverified
  {
  }

  lemma {:induction false} RefusedAre(c: Cache, host: Host, store: Store, order: seq<Key>, k: Key, why: Verdict)
    requires forall j :: j in order ==> j in c.rows
    ensures (k, why) in Refused(c, host, store, order) ==> k in order && why == Judge(c, host, store, k) && why != Reclaimable
  {
    if order != [] { RefusedAre(c, host, store, order[..|order| - 1], k, why); }
  }

  /** What `evict` answers, forced or not: the first of its refusals, or the bytes that its row said. */
  lemma EvictAnswers(c: Cache, host: Host, store: Store, k: Key, force: bool)
    ensures var (c', r) := EvictOne(c, host, store, k, force);
      var there, used, safe := k in c.rows && k in c.local, InUseBySomebody(c, host, k), Replicated(c, store, k);
      && (r == NotOnDisk <==> !there)
      && (r == IsKept <==> there && !force && c.rows[k].pinned)
      && (r == IsInUse <==> there && !force && !c.rows[k].pinned && used)
      && (r == NotVerified <==> there && !force && !c.rows[k].pinned && !used && !safe)
      && (r.Freed? ==> there && r.bytes == c.rows[k].bytes && k !in c'.rows && k !in c'.local && c'.free == c.free + Total(c.local[k].files))
      && (!r.Freed? ==> c'.local == c.local && c'.free == c.free && c'.rows.Keys == c.rows.Keys)
  {
  }

  /** Verifying records its outcome exactly when there is one: the store answered. */
  lemma VerifyingRecords(c: Cache, store: Store, k: Key)
    ensures Flagged(c, store, k) ==
      if k in c.rows && k in c.local && store(k).Listing? then c.(rows := c.rows[k := c.rows[k].(replicated := Replicated(c, store, k))])
      else c
  {
  }

  /** What reconciling leaves: rows of what is there, the old ones as they were and new ones for what is
      marked; the leases of whoever is alive; and every byte where it was. */
  lemma WhatReconcilingLeaves(c: Cache, host: Host, now: int, k: Key, id: LeaseId)
    ensures var c' := Reconciled(c, host, now);
      && c'.local == c.local && c'.free == c.free
      && (k in c'.rows <==> k in c.local && (k in c.rows || c.local[k].marker.Some?))
      && (k in c'.rows && k in c.rows ==> c'.rows[k] == c.rows[k])
      && (id in c'.leases <==> id in c.leases && Alive(c.leases[id], host))
      && (id in c'.leases ==> c'.leases[id] == c.leases[id])
  {
  }

  /** What `resolve` answers, the first failure in the order of the program; on a failure no lease is taken,
      and on a hit nothing but the time of use changes. */
  lemma ResolveAnswers(c: Cache, host: Host, limits: Limits, f: Fetch, k: Key, lease: Option<(LeaseId, Pid)>)
    requires Ready(c, host, limits, f, k)
    ensures var (c', r) := Resolve(c, host, limits, f, k, lease);
      if k in c.rows && k in c.local then
        r == AtPath && c'.local == c.local && c'.free == c.free && c'.rows == c.rows[k := c.rows[k].(lastUsed := f.now)]
      else
        && (r == StoreUnavailable <==> f.before(k).Unreachable?)
        && (r == NoSource <==> f.before(k) == Listing(map[]) && !f.allowHub)
        && (r in {StoreUnavailable, NoSource} ==> c' == c)
        && (f.before(k).Listing? && Expected(f, k).Some? ==>
              var (room, ok) := Roomy(c, host, limits, f, k);
              && (r == NoSpace <==> !ok) && (r == TransferFailed <==> ok && f.arrived.None?)
              && (r == TargetInTheWay <==> ok && f.arrived.Some? && k in room.local))
        && (r != AtPath ==> c'.leases == c.leases)
  {
    if !(k in c.rows && k in c.local) && f.before(k).Listing? && Expected(f, k).Some? {
      MakingRoomKeepsLeases(c, host, limits, f, k);
      hide Roomy, Placed, Collect, Total, LruOrder;
    }
  }

  lemma MakingRoomKeepsLeases(c: Cache, host: Host, limits: Limits, f: Fetch, k: Key)
    requires LruOrder(f.firstListing, c.rows) && f.before(k).Listing? && Expected(f, k).Some?
    ensures Roomy(c, host, limits, f, k).0.leases == c.leases
  {
    LruOrderIsDistinct(f.firstListing, c.rows);
    var expected := Expected(f, k).value;
    var v := CollectTakesTheShortestStretch(c, host, f.before, limits, if expected == 0 then limits.minFree else expected, false, f.firstListing);
  }

  /** With nothing asked for, `ensure_space` returns without collecting. */
  lemma NothingAskedFor(c: Cache, host: Host, store: Store, limits: Limits, need: int, order: seq<Key>)
    requires need <= 0 && forall k :: k in order ==> k in c.rows
    ensures EnsureSpace(c, host, store, limits, need, order) == (c, true)
  {
  }
}
