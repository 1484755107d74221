/** The `Cache` object of `nawat/cache.py`: its fields are updated in place, and every method is tied to
    the step it takes in `CacheModel` and `CacheOps`. What the store and the process table answer during
    a call are arguments. */
module Cache {
  import opened Wrappers
  import opened Leases
  import opened CacheModel
  import opened CacheCollect
  import opened CacheOps

  /** `manifest_bytes`. */
  method SumSizes<K(!new, ==)>(m: map<K, nat>) returns (total: nat)
    ensures total == Total(m)
  {
    total := 0;
    var left := m;
    while left != map[]
      invariant forall k :: k in left ==> k in m && left[k] == m[k]
      invariant total + Total(left) == Total(m)
      decreases |left|
    {
      var k :| k in left;
      TotalWithout(left, k);
      total := total + left[k];
      left := left - {k};
    }
  }

  lemma {:induction false} SomeOldest(rows: map<Key, Row>, keys: set<Key>) returns (k: Key)
    requires keys != {} && keys <= rows.Keys
    ensures k in keys && forall j :: j in keys ==> rows[k].lastUsed <= rows[j].lastUsed
    decreases keys
  {
    k :| k in keys;
    if keys != {k} {
      var rest := SomeOldest(rows, keys - {k});
      if rows[rest].lastUsed < rows[k].lastUsed { k := rest; }
    }
  }

  /** `sorted(self.list(), key=lambda a: a.last_used)`. */
  method ListByUse(rows: map<Key, Row>) returns (order: seq<Key>)
    ensures LruOrder(order, rows)
  {
    order := [];
    var left := rows.Keys;
    while left != {}
      invariant left <= rows.Keys
      invariant forall k :: k in order <==> k in rows && k !in left
      invariant forall i, k :: 0 <= i < |order| && k in left ==> rows[order[i]].lastUsed <= rows[k].lastUsed
      invariant forall i, j :: 0 <= i < j < |order| ==> order[i] != order[j] && rows[order[i]].lastUsed <= rows[order[j]].lastUsed
      decreases left
    {
      ghost var oldest := SomeOldest(rows, left);
      var k :| k in left && forall j :: j in left ==> rows[k].lastUsed <= rows[j].lastUsed;
      order := order + [k];
      left := left - {k};
    }
  }

  lemma {:induction false} SweepStaysPut(c: CacheModel.Cache, host: Host, store: Store, dry: bool, order: seq<Key>, target: nat, n: nat, m: nat)
    requires n <= m <= |order| && forall k :: k in order ==> k in c.rows
    requires Sweep(c, host, store, dry, order, target, n).result.freed >= Sweep(c, host, store, dry, order, target, n).result.target
    ensures Sweep(c, host, store, dry, order, target, m) == Sweep(c, host, store, dry, order, target, n)
    decreases m
  {
    if n < m { SweepStaysPut(c, host, store, dry, order, target, n, m - 1); }
  }

  class Cache {
    const limits: Limits
    var rows: map<Key, Row>
    var local: map<Key, Tree>
    var leases: map<LeaseId, Lease<Key>>
    var free: int

    constructor (limits: Limits, free: int)
      ensures this.limits == limits && State() == CacheModel.Cache(map[], map[], map[], free)
    {
      this.limits, this.free := limits, free;
      rows, local, leases := map[], map[], map[];
    }

    function State(): CacheModel.Cache
      reads this
    {
      CacheModel.Cache(rows, local, leases, free)
    }

    /** `reconcile`: before anything that consults occupancy, and after a reboot or a crash. */
    method Reconcile(host: Host, now: int)
      modifies this
      ensures State() == Reconciled(old(State()), host, now)
    {
      leases := Reaped(leases, host);
      var known := rows.Keys;
      rows := map k | k in rows && k in local :: rows[k];
      var unseen := local.Keys - known;
      ghost var before := rows;
      while unseen != {}
        invariant unseen <= local.Keys - known
        invariant forall k :: k in rows <==> k in before || (k in local && k !in known && k !in unseen && local[k].marker.Some?)
        invariant forall k :: k in before ==> k in rows && rows[k] == before[k]
        invariant forall k :: k in rows && k !in before ==> rows[k] == Recovered(local[k], Total(local[k].files), now)
        invariant local == old(local) && free == old(free) && leases == Reaped(old(leases), host)
        decreases unseen
      {
        var k :| k in unseen;
        if local[k].marker.Some? {
          var bytes := SumSizes(local[k].files);
          rows := rows[k := Recovered(local[k], bytes, now)];
        }
        unseen := unseen - {k};
      }
    }

    /** `_deficit`. */
    method FindDeficit(need: int) returns (d: nat)
      ensures d == Deficit(State(), limits, need)
    {
      var used := SumSizes(Sizes(rows));
      d := Max(0, Max(used + need - limits.ceiling, need + limits.minFree - free));
    }

    /** `verify` as the eviction gate asks it: records the outcome when the store answers. */
    method VerifyForEviction(store: Store, k: Key) returns (ok: bool)
      modifies `rows
      ensures State() == Flagged(old(State()), store, k)
      ensures ok == Passes(store, local, k)
    {
      ok := Passes(store, local, k);
      if k in rows && Asks(store, local, k) {
        rows := rows[k := rows[k].(replicated := ok)];
      }
    }

    /** `_delete_local`. */
    method DeleteLocal(k: Key)
      requires k in local
      modifies this
      ensures State() == Removed(old(State()), k)
    {
      var held := SumSizes(local[k].files);
      rows, local, free := rows - {k}, local - {k}, free + held;
    }

    /** The body of the collecting loop for one listed artifact. */
    method VisitArtifact(host: Host, store: Store, dry: bool, k: Key, listed: Row, before: Collected, ghost start: CacheModel.Cache)
      returns (r: Collected)
      requires before.freed < before.target
      requires k in start.rows && start.rows[k] == listed && leases == start.leases
      modifies this
      ensures Progress(State(), r) == Visit(start, host, store, dry, k, Progress(old(State()), before))
      ensures leases == start.leases && r.target == before.target
    {
      if listed.pinned { return Skip(before, k, Kept); }
      if Leased(leases, host, k) { return Skip(before, k, InUse); }
      var ok := VerifyForEviction(store, k);
      if !ok { return Skip(before, k, Unverified); }
      if !dry { DeleteLocal(k); }
      return CacheModel.Evict(before, k, listed.bytes);
    }

    /** The collecting loop over a listing. */
    method WalkListing(host: Host, store: Store, dry: bool, listing: seq<Key>, target: nat) returns (r: Collected)
      requires forall k :: k in listing ==> k in rows
      modifies this
      ensures Progress(State(), r) == Sweep(old(State()), host, store, dry, listing, target, |listing|)
    {
      hide Sweep, Visit;
      r := Collected(target, 0, [], []);
      ghost var start := State();
      var artifacts := rows;
      var i := 0;
      SweepNone(start, host, store, dry, listing, target);
      while i < |listing| && r.freed < target
        invariant i <= |listing| && r.target == target
        invariant leases == start.leases
        invariant Progress(State(), r) == Sweep(start, host, store, dry, listing, target, i)
      {
        SweepOnce(start, host, store, dry, listing, target, i);
        r := VisitArtifact(host, store, dry, listing[i], artifacts[listing[i]], r, start);
        i := i + 1;
      }
      if i < |listing| { SweepStaysPut(start, host, store, dry, listing, target, i, |listing|); }
    }

    /** `collect` once reconciled. */
    method CollectReconciled(host: Host, store: Store, need: int, dry: bool) returns (r: Collected, ghost order: seq<Key>)
      modifies this
      ensures LruOrder(order, old(rows))
      ensures Progress(State(), r) == CacheModel.Collect(old(State()), host, store, limits, need, dry, order)
    {
      var target := FindDeficit(need);
      r := Collected(target, 0, [], []);
      var listing := ListByUse(rows);
      order := listing;
      if target == 0 { return; }
      r := WalkListing(host, store, dry, listing, target);
    }

    /** `collect`. */
    method Collect(host: Host, store: Store, need: int, dry: bool, now: int) returns (r: Collected, ghost order: seq<Key>)
      modifies this
      ensures var c := Reconciled(old(State()), host, now);
        && LruOrder(order, c.rows)
        && Progress(State(), r) == CacheModel.Collect(c, host, store, limits, need, dry, order)
    {
      Reconcile(host, now);
      r, order := CollectReconciled(host, store, need, dry);
    }

    /** `ensure_space`, called under the lock; `ok` is false where it raises `InsufficientSpace`. */
    method EnsureSpace(host: Host, store: Store, need: int) returns (ok: bool, ghost order: seq<Key>)
      modifies this
      ensures LruOrder(order, old(rows))
      ensures (State(), ok) == CacheOps.EnsureSpace(old(State()), host, store, limits, need, order)
      ensures !ok && need > 0 ==> SumOf(old(rows), Reclaim(old(State()), host, store, order, |order|)) < Deficit(old(State()), limits, need)
      ensures ok && need > 0 ==> Used(rows) + need <= limits.ceiling
    {
      ghost var c := State();
      if need <= 0 {
        order := ListByUse(rows);
        return true, order;
      }
      var r;
      r, order := CollectReconciled(host, store, need, false);
      ok := r.freed >= r.target;
      RaisesOnlyWhenNothingHelps(c, host, store, limits, need, order);
      if ok { ReturningMeansRoom(c, host, store, limits, need, order); }
    }

    /** `evict`. */
    method Evict(host: Host, store: Store, k: Key, force: bool, now: int) returns (r: Evicted)
      modifies this
      ensures (State(), r) == EvictOne(Reconciled(old(State()), host, now), host, store, k, force)
      ensures !force ==> (r.Freed? <==> Safe(Reconciled(old(State()), host, now), host, store, k))
    {
      Reconcile(host, now);
      EvictDeletesExactlySafely(State(), host, store, k);
      if k !in rows || k !in local { return NotOnDisk; }
      if rows[k].pinned && !force { return IsKept; }
      if Leased(leases, host, k) && !force { return IsInUse; }
      var bytes := rows[k].bytes;
      if !force {
        var ok := VerifyForEviction(store, k);
        if !ok { return NotVerified; }
      }
      DeleteLocal(k);
      return Freed(bytes);
    }

    /** `_set_pinned`; false where it raises because the artifact is not on disk. */
    method SetPinned(host: Host, k: Key, pinned: bool, now: int) returns (ok: bool)
      modifies this
      ensures var c := Reconciled(old(State()), host, now);
        && ok == (k in c.rows)
        && State() == if ok then c.(rows := c.rows[k := c.rows[k].(pinned := pinned)]) else c
    {
      Reconcile(host, now);
      ok := k in rows;
      if ok { rows := rows[k := rows[k].(pinned := pinned)]; }
    }

    /** The end of `_fetch`: what arrived is renamed into place and registered, and an estimate that was
        too low is made up for. */
    method PlaceArtifact(host: Host, f: Fetch, k: Key, expected: nat, files: Manifest) returns (ghost second: seq<Key>)
      modifies this
      ensures LruOrder(second, Placed(old(State()), k, files, f.now).rows)
      ensures State() == if Underestimated(expected, Total(files))
        then CacheModel.Collect(Placed(old(State()), k, files, f.now), host, f.after, limits, 0, false, second).cache
        else Placed(old(State()), k, files, f.now)
    {
      hide CacheModel.Collect, Used;
      var size := SumSizes(files);
      local, rows, free := local[k := Tree(files, Some(f.now))], rows[k := Registered(files, size, f.now)], free - size;
      if Underestimated(expected, size) {
        var given;
        given, second := CollectReconciled(host, f.after, 0, false);
      } else {
        second := ListByUse(rows);
      }
    }

    /** `_fetch`, with what the outside contributes in `f`; the listings it made are returned. */
    method FetchArtifact(host: Host, f: Fetch, k: Key) returns (r: Resolved, ghost used: Fetch)
      modifies this
      ensures used == f.(firstListing := used.firstListing, secondListing := used.secondListing)
      ensures ListingsFit(old(State()), host, limits, used, k)
      ensures (State(), r) == FetchInto(old(State()), host, limits, used, k)
    {
      ghost var c := State();
      var listing := ListByUse(rows);
      used := f.(firstListing := listing);
      var reply := f.before(k);
      if reply.Unreachable? { return StoreUnavailable, used; }
      if reply.files == map[] && !f.allowHub { return NoSource, used; }
      var expected := f.hubSize;
      if reply.files != map[] { expected := SumSizes(reply.files); }
      var ok;
      ghost var first;
      ok, first := EnsureSpace(host, f.before, if expected == 0 then limits.minFree else expected);
      used := f.(firstListing := first);
      assert Roomy(c, host, limits, used, k) == (State(), ok);
      if f.arrived.None? { return if ok then TransferFailed else NoSpace, used; }
      ghost var room := State();
      if !ok { return NoSpace, used; }
      if k in local { return TargetInTheWay, used; }
      ghost var second := PlaceArtifact(host, f, k, expected, f.arrived.value);
      used := f.(firstListing := first, secondListing := second);
      assert Roomy(c, host, limits, used, k) == (room, ok);
      r := AtPath;
    }

    /** `resolve`. The artifact is at the returned path, except exactly when it gave itself back. */
    method Resolve(host: Host, f: Fetch, k: Key, lease: Option<(LeaseId, Pid)>, now: int)
      returns (r: Resolved, ghost used: Fetch)
      modifies this
      ensures used == f.(firstListing := used.firstListing, secondListing := used.secondListing)
      ensures var c := Reconciled(old(State()), host, now);
        && Ready(c, host, limits, used, k)
        && (State(), r) == CacheOps.Resolve(c, host, limits, used, k, lease)
        && (r == AtPath ==> (k in local <==> !GivesItselfBack(c, host, limits, used, k)))
    {
      Reconcile(host, now);
      ghost var c := State();
      if k in rows && k in local {
        rows := rows[k := rows[k].(lastUsed := f.now)];
        r, used := AtPath, f;
      } else {
        r, used := FetchArtifact(host, f, k);
      }
      if r == AtPath && lease.Some? {
        leases := leases[lease.value.0 := Acquired(k, lease.value.1, host)];
      }
      ResolvedIsThereUnlessGivenBack(c, host, limits, used, k, lease);
    }
  }
}
