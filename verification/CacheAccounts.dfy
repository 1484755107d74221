/** What the cache records and what is on disk, over whole histories: sizes, free space, pins and use. */
module CacheAccounts {
  import opened Wrappers
  import opened Leases
  import opened CacheModel
  import opened CacheCollect
  import opened CacheOps
  import opened H = CacheHistory

  // -- disk space ----------------------------------------------------------------------

  ghost function Holdings(local: map<Key, Tree>): map<Key, nat> {
    map k | k in local :: Total(local[k].files)
  }

  /** The bytes all trees hold. */
  ghost function OnDisk(c: Cache): nat {
    Total(Holdings(c.local))
  }

  /** Every row records the bytes and the files of its tree. */
  ghost predicate BooksMatch(c: Cache) {
    forall k :: k in c.rows && k in c.local ==>
      c.rows[k].bytes == Total(c.local[k].files) && c.rows[k].files == |c.local[k].files|
  }

  /** No byte of disk comes or goes, and matching books still match. */
  ghost predicate Balances(c: Cache, c': Cache) {
    && c'.free + OnDisk(c') == c.free + OnDisk(c)
    && (BooksMatch(c) ==> BooksMatch(c'))
  }

  lemma RemovingBalances(c: Cache, k: Key)
    requires k in c.local
    ensures Balances(c, Removed(c, k))
  {
    TotalWithout(Holdings(c.local), k);
    assert Holdings(c.local) - {k} == Holdings(c.local - {k});
  }

  lemma PlacingBalances(c: Cache, k: Key, files: Manifest, now: int)
    requires k !in c.local
    ensures Balances(c, Placed(c, k, files, now))
  {
    hide Total;
    var local := Placed(c, k, files, now).local;
    TotalWith(Holdings(c.local), k, Total(files));
    assert Holdings(local) == Holdings(c.local)[k := Total(files)];
  }

  lemma FlaggingBalances(c: Cache, store: Store, k: Key)
    ensures Balances(c, Flagged(c, store, k))
  {
  }

  lemma BalancesInTurn(a: Cache, b: Cache, c: Cache)
    requires Balances(a, b) && Balances(b, c)
    ensures Balances(a, c)
  {
  }

  lemma VisitLeavesOneOf(start: Cache, host: Host, store: Store, dry: bool, k: Key, g: Progress)
    requires k in start.rows
    ensures var left, flagged := Visit(start, host, store, dry, k, g).cache, Flagged(g.cache, store, k);
      left == g.cache || left == flagged || (k in flagged.local && left == Removed(flagged, k))
  {
  }

  lemma VisitBalances(start: Cache, host: Host, store: Store, dry: bool, k: Key, g: Progress)
    requires k in start.rows
    ensures Balances(g.cache, Visit(start, host, store, dry, k, g).cache)
  {
    hide Visit, Flagged, Removed, OnDisk, BooksMatch;
    var flagged := Flagged(g.cache, store, k);
    VisitLeavesOneOf(start, host, store, dry, k, g);
    FlaggingBalances(g.cache, store, k);
    if k in flagged.local {
      RemovingBalances(flagged, k);
      BalancesInTurn(g.cache, flagged, Removed(flagged, k));
    }
  }

  lemma {:induction false} SweepBalances(c: Cache, host: Host, store: Store, dry: bool, order: seq<Key>, target: nat, n: nat)
    requires n <= |order| && forall k :: k in order ==> k in c.rows
    ensures Balances(c, Sweep(c, host, store, dry, order, target, n).cache)
  {
    if n > 0 {
      SweepBalances(c, host, store, dry, order, target, n - 1);
      VisitBalances(c, host, store, dry, order[n - 1], Sweep(c, host, store, dry, order, target, n - 1));
    }
  }

  lemma CollectBalances(c: Cache, host: Host, store: Store, limits: Limits, need: int, dry: bool, order: seq<Key>)
    requires forall k :: k in order ==> k in c.rows
    ensures Balances(c, Collect(c, host, store, limits, need, dry, order).cache)
  {
    SweepBalances(c, host, store, dry, order, Deficit(c, limits, need), |order|);
  }

  lemma EvictBalances(c: Cache, host: Host, store: Store, k: Key)
    ensures Balances(c, EvictOne(c, host, store, k, false).0)
  {
    FlaggingBalances(c, store, k);
    if k in c.local { RemovingBalances(Flagged(c, store, k), k); }
  }

  lemma FetchBalances(c: Cache, host: Host, limits: Limits, f: Fetch, k: Key)
    requires ListingsFit(c, host, limits, f, k)
    ensures Balances(c, FetchInto(c, host, limits, f, k).0)
  {
    hide Collect, Placed, OnDisk, BooksMatch, Used;
    LruOrderIsDistinct(f.firstListing, c.rows);
    if f.before(k).Listing? && Expected(f, k).Some? {
      var (room, ok) := Roomy(c, host, limits, f, k);
      var expected := Expected(f, k).value;
      CollectBalances(c, host, f.before, limits, if expected == 0 then limits.minFree else expected, false, f.firstListing);
      assert Balances(c, room);
      if ok && f.arrived.Some? && k !in room.local {
        var placed := Placed(room, k, f.arrived.value, f.now);
        PlacingBalances(room, k, f.arrived.value, f.now);
        LruOrderIsDistinct(f.secondListing, placed.rows);
        CollectBalances(placed, host, f.after, limits, 0, false, f.secondListing);
      }
    }
  }

  lemma ResolveBalances(c: Cache, host: Host, limits: Limits, f: Fetch, k: Key, lease: Option<(LeaseId, Pid)>)
    requires Ready(c, host, limits, f, k)
    ensures Balances(c, Resolve(c, host, limits, f, k, lease).0)
  {
    if !(k in c.rows && k in c.local) { FetchBalances(c, host, limits, f, k); }
  }

  lemma SettlingBalances(w: World, now: int)
    ensures Balances(w.cache, Settled(w, now))
  {
  }

  lemma StepBalances(w: World, e: Event)
    requires Enabled(w, e)
    ensures Balances(w.cache, After(w, e).cache)
  {
    match e
    case Reconcile(now) => SettlingBalances(w, now);
    case Collecting(now, store, limits, need, dry, order) =>
      SettlingBalances(w, now);
      LruOrderIsDistinct(order, Settled(w, now).rows);
      CollectBalances(Settled(w, now), H.Host(w), store, limits, need, dry, order);
    case Evicting(now, store, key) =>
      SettlingBalances(w, now);
      EvictBalances(Settled(w, now), H.Host(w), store, key);
    case Resolving(now, limits, fetch, key, lease) =>
      SettlingBalances(w, now);
      ResolveBalances(Settled(w, now), H.Host(w), limits, fetch, key, lease);
    case Pinning(now, key, pinned) => SettlingBalances(w, now);
    case Verifying(store, key) => FlaggingBalances(w.cache, store, key);
    case _ =>
  }

  /** Through any history, what is free and what the trees hold add up to the same; and rows that record
      what is on disk go on doing so, recovered ones included. */
  lemma {:induction false} BooksBalance(w: World, events: seq<Event>)
    requires History(w, events)
    ensures Balances(w.cache, H.Reached(w, events).cache)
    decreases |events|
  {
    if events != [] {
      StepBalances(w, events[0]);
      BooksBalance(After(w, events[0]), events[1..]);
    }
  }

  // -- pins ----------------------------------------------------------------------------

  ghost predicate IsPinned(c: Cache, k: Key) {
    k in c.rows && k in c.local && c.rows[k].pinned
  }

  lemma CollectKeepsPins(c: Cache, host: Host, store: Store, limits: Limits, need: int, dry: bool, order: seq<Key>, k: Key)
    requires LruOrder(order, c.rows) && IsPinned(c, k)
    ensures IsPinned(Collect(c, host, store, limits, need, dry, order).cache, k)
  {
    var v := CollectTakesTheShortestStretch(c, host, store, limits, need, dry, order);
    if k !in Collect(c, host, store, limits, need, dry, order).cache.local {
      CollectDeletesOnlySafely(c, host, store, limits, need, dry, order, k);
    }
  }

  lemma FetchKeepsPins(c: Cache, host: Host, limits: Limits, f: Fetch, key: Key, k: Key)
    requires ListingsFit(c, host, limits, f, key) && IsPinned(c, k)
    ensures IsPinned(FetchInto(c, host, limits, f, key).0, k)
  {
    LruOrderIsDistinct(f.firstListing, c.rows);
    if f.before(key).Listing? && Expected(f, key).Some? {
      var (room, ok) := Roomy(c, host, limits, f, key);
      var expected := Expected(f, key).value;
      CollectKeepsPins(c, host, f.before, limits, if expected == 0 then limits.minFree else expected, false, f.firstListing, k);
      if ok && f.arrived.Some? && key !in room.local {
        var placed := Placed(room, key, f.arrived.value, f.now);
        LruOrderIsDistinct(f.secondListing, placed.rows);
        CollectKeepsPins(placed, host, f.after, limits, 0, false, f.secondListing, k);
      }
    }
  }

  lemma EvictKeepsPins(c: Cache, host: Host, store: Store, key: Key, k: Key)
    requires IsPinned(c, k)
    ensures IsPinned(EvictOne(c, host, store, key, false).0, k)
  {
  }

  lemma ResolveKeepsPins(c: Cache, host: Host, limits: Limits, f: Fetch, key: Key, lease: Option<(LeaseId, Pid)>, k: Key)
    requires Ready(c, host, limits, f, key) && IsPinned(c, k)
    ensures IsPinned(Resolve(c, host, limits, f, key, lease).0, k)
  {
    if !(key in c.rows && key in c.local) { FetchKeepsPins(c, host, limits, f, key, k); }
  }

  lemma StepKeepsPins(w: World, e: Event, k: Key)
    requires Enabled(w, e) && IsPinned(w.cache, k) && !(e.Pinning? && e.key == k && !e.pinned)
    ensures IsPinned(After(w, e).cache, k)
  {
    hide Collect, EvictOne, Resolve, LruOrder;
    match e
    case Collecting(now, store, limits, need, dry, order) =>
      CollectKeepsPins(Settled(w, now), H.Host(w), store, limits, need, dry, order, k);
    case Evicting(now, store, key) => EvictKeepsPins(Settled(w, now), H.Host(w), store, key, k);
    case Resolving(now, limits, fetch, key, lease) =>
      ResolveKeepsPins(Settled(w, now), H.Host(w), limits, fetch, key, lease, k);
    case _ =>
  }

  /** A pinned artifact stays on disk, and pinned, through every operation until it is released. */
  lemma {:induction false} PinnedStays(w: World, now: int, k: Key, events: seq<Event>)
    requires k in w.cache.rows && k in w.cache.local
    requires History(After(w, Pinning(now, k, true)), events)
    requires forall e :: e in events ==> !(e.Pinning? && e.key == k && !e.pinned)
    ensures IsPinned(H.Reached(After(w, Pinning(now, k, true)), events).cache, k)
  {
    PinnedThroughout(After(w, Pinning(now, k, true)), k, events);
  }

  lemma {:induction false} PinnedThroughout(w: World, k: Key, events: seq<Event>)
    requires IsPinned(w.cache, k) && History(w, events)
    requires forall e :: e in events ==> !(e.Pinning? && e.key == k && !e.pinned)
    ensures IsPinned(H.Reached(w, events).cache, k)
    decreases |events|
  {
    if events != [] {
      assert events[0] in events && forall e :: e in events[1..] ==> e in events;
      StepKeepsPins(w, events[0], k);
      PinnedThroughout(After(w, events[0]), k, events[1..]);
    }
  }

  /** Releasing makes it an artifact like any other. */
  lemma ReleasedMayGo(w: World, now: int, k: Key)
    requires k in w.cache.rows && k in w.cache.local
    ensures var c := After(w, Pinning(now, k, false)).cache; k in c.rows && !c.rows[k].pinned
  {
  }

  // -- use -----------------------------------------------------------------------------

  /** What was resolved last is listed last, whether it was there or had to be fetched: it is the last to be
      collected. */
  lemma ResolvedGoesLast(c: Cache, host: Host, limits: Limits, f: Fetch, k: Key, lease: Option<(LeaseId, Pid)>, order: seq<Key>)
    requires Ready(c, host, limits, f, k) && Resolve(c, host, limits, f, k, lease).1 == AtPath
    requires forall j :: j in c.rows ==> j in c.local && c.rows[j].lastUsed < f.now
    requires var c' := Resolve(c, host, limits, f, k, lease).0; k in c'.rows && LruOrder(order, c'.rows)
    ensures order != [] && order[|order| - 1] == k
  {
    var c' := Resolve(c, host, limits, f, k, lease).0;
    OthersUsedBefore(c, host, limits, f, k, lease);
    var i :| 0 <= i < |order| && order[i] == k;
    assert order[|order| - 1] in order;
    assert c'.rows[order[i]].lastUsed <= c'.rows[order[|order| - 1]].lastUsed;
  }

  lemma OthersUsedBefore(c: Cache, host: Host, limits: Limits, f: Fetch, k: Key, lease: Option<(LeaseId, Pid)>)
    requires Ready(c, host, limits, f, k) && Resolve(c, host, limits, f, k, lease).1 == AtPath
    requires forall j :: j in c.rows ==> j in c.local && c.rows[j].lastUsed < f.now
    ensures var rows := Resolve(c, host, limits, f, k, lease).0.rows;
      forall j :: j in rows ==> if j == k then rows[j].lastUsed == f.now else rows[j].lastUsed < f.now
  {
    if !(k in c.rows && k in c.local) {
      var room := Roomy(c, host, limits, f, k).0;
      CollectKeepsUse(c, host, f.before, limits, if Expected(f, k).value == 0 then limits.minFree else Expected(f, k).value, f.firstListing);
      var placed := Placed(room, k, f.arrived.value, f.now);
      if Underestimated(Expected(f, k).value, Total(f.arrived.value)) {
        CollectKeepsUse(placed, host, f.after, limits, 0, f.secondListing);
      }
    }
  }

  lemma CollectKeepsUse(c: Cache, host: Host, store: Store, limits: Limits, need: int, order: seq<Key>)
    requires LruOrder(order, c.rows)
    ensures var c' := Collect(c, host, store, limits, need, false, order).cache;
      && (forall j :: j in c'.rows ==> j in c.rows && c'.rows[j].lastUsed == c.rows[j].lastUsed)
      && ((forall j :: j in c.rows ==> j in c.local) ==> forall j :: j in c'.rows ==> j in c'.local)
  {
    var v := CollectTakesTheShortestStretch(c, host, store, limits, need, false, order);
    assert forall j :: j in Collect(c, host, store, limits, need, false, order).cache.rows ==>
      Collect(c, host, store, limits, need, false, order).cache.rows[j].(replicated := c.rows[j].replicated).lastUsed == c.rows[j].lastUsed;
  }

  /** A fetched artifact whose row is lost comes back with its bytes, its files and the time it was fetched;
      a fetch and a verification both say in the row what the store holds. */
  lemma FetchedComesBack(c: Cache, k: Key, files: Manifest, now: int, host: Host, later: int)
    ensures var placed := Placed(c, k, files, now); var lost := placed.(rows := placed.rows - {k});
      var back := Reconciled(lost, host, later);
      && k in back.rows && placed.rows[k].replicated && !back.rows[k].replicated && !placed.rows[k].pinned
      && back.rows[k].bytes == placed.rows[k].bytes == Total(files)
      && back.rows[k].files == placed.rows[k].files == |files|
      && back.rows[k].fetchedAt == placed.rows[k].fetchedAt == now && back.rows[k].lastUsed == later
  {
  }
}
