/** Whole histories of the cache: any order of operations by any processes, any answers of the store,
    processes that come, die and reuse pids, and reboots. */
module CacheHistory {
  import opened Wrappers
  import opened Leases
  import opened CacheModel
  import opened CacheCollect
  import opened CacheOps

  datatype World = World(cache: Cache, machine: Machine)

  /** Forced eviction, publishing over a cached artifact and deletion behind the cache's back are not
      among the events. `LeaseOutside` is a lease taken without the cache lock. */
  datatype Event =
    | Reconcile(now: int)
    | Collecting(now: int, store: Store, limits: Limits, need: int, dry: bool, order: seq<Key>)
    | Evicting(now: int, store: Store, key: Key)
    | Resolving(now: int, limits: Limits, fetch: Fetch, key: Key, lease: Option<(LeaseId, Pid)>)
    | Pinning(now: int, key: Key, pinned: bool)
    | Verifying(store: Store, key: Key)
    | Touching(now: int, key: Key)
    | LeaseOutside(key: Key, id: LeaseId, pid: Pid)
    | Releasing(id: LeaseId)
    | OnHost(event: HostEvent)

  function Host(w: World): Host { Table(w.machine) }

  ghost function Settled(w: World, now: int): Cache {
    Reconciled(w.cache, Host(w), now)
  }

  /** Listings come out in an order, lease ids are new, and only running processes take leases. */
  ghost predicate Enabled(w: World, e: Event) {
    match e
    case Collecting(now, _, _, _, _, order) => LruOrder(order, Settled(w, now).rows)
    case Resolving(now, limits, fetch, key, lease) =>
      && Ready(Settled(w, now), Host(w), limits, fetch, key)
      && (lease.Some? ==> lease.value.0 !in w.cache.leases && lease.value.1 in w.machine.procs)
    case LeaseOutside(_, id, pid) => id !in w.cache.leases && pid in w.machine.procs
    case OnHost(event) => HostEnabled(w.machine, event)
    case _ => true
  }

  ghost function After(w: World, e: Event): World
    requires Enabled(w, e)
  {
    match e
    case Reconcile(now) => w.(cache := Settled(w, now))
    case Collecting(now, store, limits, need, dry, order) =>
      LruOrderIsDistinct(order, Settled(w, now).rows);
      w.(cache := Collect(Settled(w, now), Host(w), store, limits, need, dry, order).cache)
    case Evicting(now, store, key) => w.(cache := EvictOne(Settled(w, now), Host(w), store, key, false).0)
    case Resolving(now, limits, fetch, key, lease) =>
      w.(cache := Resolve(Settled(w, now), Host(w), limits, fetch, key, lease).0)
    case Pinning(now, key, pinned) =>
      var c := Settled(w, now);
      w.(cache := if key in c.rows then c.(rows := c.rows[key := c.rows[key].(pinned := pinned)]) else c)
    case Verifying(store, key) => w.(cache := Flagged(w.cache, store, key))
    case Touching(now, key) =>
      var c := w.cache;
      w.(cache := if key in c.rows then c.(rows := c.rows[key := c.rows[key].(lastUsed := now)]) else c)
    case LeaseOutside(key, id, pid) => w.(cache := w.cache.(leases := w.cache.leases[id := Acquired(key, pid, Host(w))]))
    case Releasing(id) => w.(cache := w.cache.(leases := w.cache.leases - {id}))
    case OnHost(event) => w.(machine := HostAfter(w.machine, event))
  }

  // -- deletions ---------------------------------------------------------------------

  /** The state in which artifacts are judged: what the cache has recorded, and what the store answers. */
  datatype Moment = Moment(cache: Cache, store: Store)

  /** The moments at which an operation judges artifacts: right after reconciling, with its own store; a
      fetch, once more after it has placed what arrived, with the store as it is then. */
  ghost predicate JudgesAt(w: World, e: Event, at: Moment)
    requires Enabled(w, e)
  {
    match e
    case Collecting(now, store, _, _, _, _) => at == Moment(Settled(w, now), store)
    case Evicting(now, store, _) => at == Moment(Settled(w, now), store)
    case Resolving(now, limits, f, key, _) =>
      ListingsFit(Settled(w, now), Host(w), limits, f, key) && FetchJudgesAt(Settled(w, now), Host(w), limits, f, key, at)
    case _ => false
  }

  ghost predicate FetchJudgesAt(c: Cache, host: Host, limits: Limits, f: Fetch, key: Key, at: Moment)
    requires ListingsFit(c, host, limits, f, key)
  {
    && f.before(key).Listing? && Expected(f, key).Some?
    && (at == Moment(c, f.before)
        || (f.arrived.Some? && at == Moment(Placed(Roomy(c, host, limits, f, key).0, key, f.arrived.value, f.now), f.after)))
  }

  /** Every deletion, at any point of any history, by whichever operation, happens at a moment when that
      operation finds the artifact neither pinned nor leased and its store lists each of the local files
      under the same name with the same size. No assumption is made on how the world was reached. */
  lemma {:induction false} EveryDeletionIsSafe(w: World, e: Event, k: Key) returns (at: Moment)
    requires Enabled(w, e) && k in w.cache.local && k !in After(w, e).cache.local
    ensures JudgesAt(w, e, at) && Safe(at.cache, Host(w), at.store, k)
    ensures at.cache.local[k] == w.cache.local[k] && at.cache.leases == Reaped(w.cache.leases, Host(w))
  {
    if e.Collecting? {
      CollectDeletesOnlySafely(Settled(w, e.now), Host(w), e.store, e.limits, e.need, e.dry, e.order, k);
      at := Moment(Settled(w, e.now), e.store);
    } else if e.Evicting? {
      EvictDeletesExactlySafely(Settled(w, e.now), Host(w), e.store, e.key);
      at := Moment(Settled(w, e.now), e.store);
    } else {
      OnlyThreeDelete(w, e, k);
      at := FetchDeletesOnlySafely(Settled(w, e.now), Host(w), e.limits, e.fetch, e.key, k);
    }
  }

  /** Nothing but `collect`, `evict` and the collections of a fetch deletes. */
  lemma OnlyThreeDelete(w: World, e: Event, k: Key)
    requires Enabled(w, e) && !e.Collecting? && !e.Evicting?
    requires k in w.cache.local && k !in After(w, e).cache.local
    ensures e.Resolving? && k in Settled(w, e.now).local
    ensures ListingsFit(Settled(w, e.now), Host(w), e.limits, e.fetch, e.key)
    ensures k !in FetchInto(Settled(w, e.now), Host(w), e.limits, e.fetch, e.key).0.local
  {
  }

  lemma FetchDeletesOnlySafely(c: Cache, host: Host, limits: Limits, f: Fetch, key: Key, k: Key) returns (at: Moment)
    requires ListingsFit(c, host, limits, f, key) && k in c.local && k !in FetchInto(c, host, limits, f, key).0.local
    ensures FetchJudgesAt(c, host, limits, f, key, at) && Safe(at.cache, host, at.store, k)
    ensures at.cache.local[k] == c.local[k] && at.cache.leases == c.leases
  {
    var room := Roomy(c, host, limits, f, key).0;
    var expected := Expected(f, key).value;
    if k !in room.local {
      CollectDeletesOnlySafely(c, host, f.before, limits, if expected == 0 then limits.minFree else expected, false, f.firstListing, k);
      at := Moment(c, f.before);
    } else {
      var _ := CollectTakesTheShortestStretch(c, host, f.before, limits, if expected == 0 then limits.minFree else expected, false, f.firstListing);
      var placed := Placed(room, key, f.arrived.value, f.now);
      CollectDeletesOnlySafely(placed, host, f.after, limits, 0, false, f.secondListing, k);
      at := Moment(placed, f.after);
    }
  }

  // -- leases ------------------------------------------------------------------------

  /** The lease is in the table, and its artifact is on disk. */
  ghost predicate Held(w: World, id: LeaseId, l: Lease<Key>) {
    id in w.cache.leases && w.cache.leases[id] == l && l.key in w.cache.local
  }

  lemma CollectKeepsLeases(c: Cache, host: Host, store: Store, limits: Limits, need: int, dry: bool, order: seq<Key>)
    requires LruOrder(order, c.rows)
    ensures Collect(c, host, store, limits, need, dry, order).cache.leases == c.leases
  {
    var _ := CollectTakesTheShortestStretch(c, host, store, limits, need, dry, order);
  }

  lemma FetchKeepsLeases(c: Cache, host: Host, limits: Limits, f: Fetch, key: Key)
    requires ListingsFit(c, host, limits, f, key)
    ensures FetchInto(c, host, limits, f, key).0.leases == c.leases
  {
    if f.before(key).Listing? && Expected(f, key).Some? {
      var expected := Expected(f, key).value;
      CollectKeepsLeases(c, host, f.before, limits, if expected == 0 then limits.minFree else expected, false, f.firstListing);
      if f.arrived.Some? && Roomy(c, host, limits, f, key).1 && key !in Roomy(c, host, limits, f, key).0.local {
        var placed := Placed(Roomy(c, host, limits, f, key).0, key, f.arrived.value, f.now);
        CollectKeepsLeases(placed, host, f.after, limits, 0, false, f.secondListing);
      }
    }
  }

  lemma ResolveKeepsLeases(c: Cache, host: Host, limits: Limits, f: Fetch, key: Key, lease: Option<(LeaseId, Pid)>, id: LeaseId)
    requires Ready(c, host, limits, f, key) && id in c.leases && (lease.Some? ==> lease.value.0 != id)
    ensures var after := Resolve(c, host, limits, f, key, lease).0; id in after.leases && after.leases[id] == c.leases[id]
  {
    if !(key in c.rows && key in c.local) { FetchKeepsLeases(c, host, limits, f, key); }
  }

  /** The lease is in the table as it was. */
  predicate HasLease(c: Cache, id: LeaseId, l: Lease<Key>) {
    id in c.leases && c.leases[id] == l
  }

  lemma SettlingKeepsLiveLeases(w: World, now: int, id: LeaseId)
    requires id in w.cache.leases && Alive(w.cache.leases[id], Host(w))
    ensures HasLease(Settled(w, now), id, w.cache.leases[id])
  {
  }

  lemma EvictKeepsLeases(c: Cache, host: Host, store: Store, k: Key)
    ensures EvictOne(c, host, store, k, false).0.leases == c.leases
  {
  }

  lemma LiveLeasesStay(w: World, e: Event, id: LeaseId)
    requires Enabled(w, e) && id in w.cache.leases && Alive(w.cache.leases[id], Host(w)) && e != Releasing(id)
    ensures HasLease(After(w, e).cache, id, w.cache.leases[id])
  {
    if e.Collecting? || e.Evicting? || e.Resolving? {
      JudgesKeepLeases(w, e, id);
    } else {
      OthersKeepLeases(w, e, id);
    }
  }

  lemma JudgesKeepLeases(w: World, e: Event, id: LeaseId)
    requires Enabled(w, e) && id in w.cache.leases && Alive(w.cache.leases[id], Host(w))
    requires e.Collecting? || e.Evicting? || e.Resolving?
    ensures HasLease(After(w, e).cache, id, w.cache.leases[id])
  {
    SettlingKeepsLiveLeases(w, e.now, id);
    if e.Collecting? {
      CollectKeepsLeases(Settled(w, e.now), Host(w), e.store, e.limits, e.need, e.dry, e.order);
    } else if e.Evicting? {
      EvictKeepsLeases(Settled(w, e.now), Host(w), e.store, e.key);
    } else {
      ResolveKeepsLeases(Settled(w, e.now), Host(w), e.limits, e.fetch, e.key, e.lease, id);
    }
  }

  lemma OthersKeepLeases(w: World, e: Event, id: LeaseId)
    requires Enabled(w, e) && id in w.cache.leases && Alive(w.cache.leases[id], Host(w)) && e != Releasing(id)
    requires !e.Collecting? && !e.Evicting? && !e.Resolving?
    ensures HasLease(After(w, e).cache, id, w.cache.leases[id])
  {
    if e.Pinning? || e.Reconcile? { SettlingKeepsLiveLeases(w, e.now, id); }
  }

  /** No operation of any process removes a live lease, or the artifact under it. */
  lemma HeldStays(w: World, e: Event, id: LeaseId, l: Lease<Key>)
    requires Enabled(w, e) && Held(w, id, l) && Alive(l, Host(w)) && e != Releasing(id)
    ensures Held(After(w, e), id, l)
  {
    LiveLeasesStay(w, e, id);
    assert id in Reaped(w.cache.leases, Host(w));
    if l.key !in After(w, e).cache.local {
      var at := EveryDeletionIsSafe(w, e, l.key);
    }
  }

  ghost predicate History(w: World, events: seq<Event>)
    decreases |events|
  {
    events == [] || (Enabled(w, events[0]) && History(After(w, events[0]), events[1..]))
  }

  ghost function Reached(w: World, events: seq<Event>): World
    requires History(w, events)
    decreases |events|
  {
    if events == [] then w else Reached(After(w, events[0]), events[1..])
  }

  /** A history goes on from where it has got. */
  lemma {:induction false} OneMoreEvent(w: World, events: seq<Event>, e: Event)
    requires History(w, events)
    ensures History(w, []) && Reached(w, []) == w
    ensures History(w, events + [e]) <==> Enabled(Reached(w, events), e)
    ensures Enabled(Reached(w, events), e) ==> Reached(w, events + [e]) == After(Reached(w, events), e)
    decreases |events|
  {
    hide After, Enabled;
    if events == [] {
      assert [] + [e] == [e] && [e][1..] == [];
    } else {
      assert (events + [e])[1..] == events[1..] + [e];
      OneMoreEvent(After(w, events[0]), events[1..], e);
    }
  }

  /** Neither released nor dead at any point of the history. */
  ghost predicate Undisturbed(w: World, events: seq<Event>, id: LeaseId, l: Lease<Key>)
    requires History(w, events)
    decreases |events|
  {
    Alive(l, Host(w)) && (events == [] || (events[0] != Releasing(id) && Undisturbed(After(w, events[0]), events[1..], id, l)))
  }

  lemma {:induction false} HeldThroughout(w: World, events: seq<Event>, id: LeaseId, l: Lease<Key>)
    requires History(w, events) && Held(w, id, l) && Undisturbed(w, events, id, l)
    ensures Held(Reached(w, events), id, l)
    decreases |events|
  {
    if events != [] {
      HeldStays(w, events[0], id, l);
      HeldThroughout(After(w, events[0]), events[1..], id, l);
    }
  }

  /** An artifact whose lease was taken inside `resolve` stays on disk through every later operation of
      every process, until the lease is released or its holder dies, unless the artifact gave itself
      back before the lease was taken. */
  lemma {:induction false} ResolvedAndLeasedStaysOnDisk(w: World, e: Event, events: seq<Event>)
    requires Enabled(w, e) && e.Resolving? && e.lease.Some?
    requires Resolve(Settled(w, e.now), Host(w), e.limits, e.fetch, e.key, e.lease).1 == AtPath
    requires !GivesItselfBack(Settled(w, e.now), Host(w), e.limits, e.fetch, e.key)
    requires History(After(w, e), events)
    requires Undisturbed(After(w, e), events, e.lease.value.0, Acquired(e.key, e.lease.value.1, Host(w)))
    ensures e.key in Reached(After(w, e), events).cache.local
  {
    ResolvedIsThereUnlessGivenBack(Settled(w, e.now), Host(w), e.limits, e.fetch, e.key, e.lease);
    HeldThroughout(After(w, e), events, e.lease.value.0, Acquired(e.key, e.lease.value.1, Host(w)));
  }

  // -- holders as processes ------------------------------------------------------------

  ghost predicate RunsThroughout(w: World, events: seq<Event>, pid: Pid, life: Life)
    requires History(w, events)
    decreases |events|
  {
    Runs(w.machine, pid, life) && (events == [] || RunsThroughout(After(w, events[0]), events[1..], pid, life))
  }

  predicate Unreleased(events: seq<Event>, id: LeaseId) {
    forall i :: 0 <= i < |events| ==> !(events[i].Releasing? && events[i].id == id)
  }

  /** The lease belongs to that life, whatever the machine does next. */
  ghost predicate Owned(m: Machine, l: Lease<Key>, life: Life) {
    Tracked(m) && TakenBy(m, l, life)
  }

  lemma OwnedStays(w: World, e: Event, l: Lease<Key>, life: Life)
    requires Enabled(w, e) && Owned(w.machine, l, life)
    ensures Owned(After(w, e).machine, l, life)
  {
    if e.OnHost? {
      TrackedStays(w.machine, e.event);
      TakenByStays(w.machine, e.event, l, life);
    }
  }

  /** Over any history of the cache and the machine, the lease counts as live if and only if the very
      process that took it still runs, or there is no telling. */
  lemma {:induction false} TheHolderDecides(w: World, events: seq<Event>, l: Lease<Key>, life: Life)
    requires History(w, events) && Owned(w.machine, l, life)
    ensures var m := Reached(w, events).machine; Alive(l, Table(m)) <==> Runs(m, l.pid, life) || CannotTell(m, l)
    decreases |events|
  {
    if events == [] {
      AliveWhen(w.machine, l, life);
    } else {
      OwnedStays(w, events[0], l, life);
      TheHolderDecides(After(w, events[0]), events[1..], l, life);
    }
  }

  lemma {:induction false} ARunningHolderLeavesItUndisturbed(w: World, events: seq<Event>, id: LeaseId, l: Lease<Key>, life: Life)
    requires History(w, events) && Owned(w.machine, l, life)
    requires Unreleased(events, id) && RunsThroughout(w, events, l.pid, life)
    ensures Undisturbed(w, events, id, l)
    decreases |events|
  {
    TheHolderDecides(w, [], l, life);
    if events != [] {
      OwnedStays(w, events[0], l, life);
      ARunningHolderLeavesItUndisturbed(After(w, events[0]), events[1..], id, l, life);
    }
  }

  /** What a process resolved with a lease stays on disk, whatever other processes, dying processes,
      reused pids and reboots do, for as long as that process runs and does not release the lease. */
  lemma {:induction false} StaysWhileItsHolderRuns(w: World, e: Event, events: seq<Event>)
    requires Enabled(w, e) && e.Resolving? && e.lease.Some? && Tracked(w.machine)
    requires Resolve(Settled(w, e.now), Host(w), e.limits, e.fetch, e.key, e.lease).1 == AtPath
    requires !GivesItselfBack(Settled(w, e.now), Host(w), e.limits, e.fetch, e.key)
    requires History(After(w, e), events) && Unreleased(events, e.lease.value.0)
    requires RunsThroughout(After(w, e), events, e.lease.value.1, w.machine.procs[e.lease.value.1].life)
    ensures e.key in Reached(After(w, e), events).cache.local
  {
    var pid := e.lease.value.1;
    TakingALease(w.machine, e.key, pid);
    ARunningHolderLeavesItUndisturbed(After(w, e), events, e.lease.value.0, Acquired(e.key, pid, Host(w)), w.machine.procs[pid].life);
    ResolvedAndLeasedStaysOnDisk(w, e, events);
  }

  // -- the exception occurs ------------------------------------------------------------

  const ONE_FILE: Manifest := map["model.safetensors" := 10]
  const EMPTY := CacheModel.Cache(map[], map[], map[], 100)
  const FIVE_BYTES := Limits(5, 0)

  ghost function HubSaysThree(k: Key): Fetch {
    Fetch(_ => Listing(map[]), _ => Listing(ONE_FILE), true, 3, Some(ONE_FILE), [], [k], 0)
  }

  lemma TenBytesOver(k: Key)
    ensures Total(ONE_FILE) == 10 && Deficit(EMPTY, FIVE_BYTES, 3) == 0
    ensures Deficit(Placed(EMPTY, k, ONE_FILE, 0), FIVE_BYTES, 0) == 5
  {
    TotalWith(map[], "model.safetensors", 10);
    assert map[]["model.safetensors" := 10] == ONE_FILE;
    assert Sizes(EMPTY.rows) == map[];
    TotalWith(map[], k, 10);
    assert Sizes(Placed(EMPTY, k, ONE_FILE, 0).rows) == map[][k := 10];
  }

  lemma ItsOwnListing(host: Host, k: Key)
    ensures ListingsFit(EMPTY, host, FIVE_BYTES, HubSaysThree(k), k)
    ensures FetchInto(EMPTY, host, FIVE_BYTES, HubSaysThree(k), k).1 == AtPath
    ensures Roomy(EMPTY, host, FIVE_BYTES, HubSaysThree(k), k).0 == EMPTY
  {
    TenBytesOver(k);
  }

  /** A cache for 5 bytes, an estimate of 3 and an artifact of 10: `resolve` returns a path that the
      second collection has already deleted, with a lease on it. */
  lemma {:induction false} AnUnderestimateGivesItselfBack(host: Host, k: Key, lease: Option<(LeaseId, Pid)>)
    ensures Ready(EMPTY, host, FIVE_BYTES, HubSaysThree(k), k)
    ensures GivesItselfBack(EMPTY, host, FIVE_BYTES, HubSaysThree(k), k)
    ensures Resolve(EMPTY, host, FIVE_BYTES, HubSaysThree(k), k, lease).1 == AtPath
    ensures k !in Resolve(EMPTY, host, FIVE_BYTES, HubSaysThree(k), k, lease).0.local
  {
    var f := HubSaysThree(k);
    var placed := Placed(EMPTY, k, ONE_FILE, 0);
    TenBytesOver(k);
    ItsOwnListing(host, k);
    assert f.secondListing[0] == k && f.secondListing[..0] == [];
    assert Safe(placed, host, f.after, k);
    ResolvedIsThereUnlessGivenBack(EMPTY, host, FIVE_BYTES, f, k, lease);
  }
}
