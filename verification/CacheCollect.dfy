/** What collecting does: exactly the shortest least-recently-used stretch, and only safe deletions. */
module CacheCollect {
  import opened Leases
  import opened CacheModel

  /** The artifacts of a listing that may go, in listing order. */
  function Reclaimables(c: Cache, host: Host, store: Store, order: seq<Key>): seq<Key>
    requires forall k :: k in order ==> k in c.rows
  {
    if order == [] then []
    else
      var k := order[|order| - 1];
      Reclaimables(c, host, store, order[..|order| - 1]) + if Judge(c, host, store, k) == Reclaimable then [k] else []
  }

  /** The others, each with the first gate that stopped it. */
  function Refused(c: Cache, host: Host, store: Store, order: seq<Key>): seq<(Key, Verdict)>
    requires forall k :: k in order ==> k in c.rows
  {
    if order == [] then []
    else
      var k := order[|order| - 1];
      var verdict := Judge(c, host, store, k);
      Refused(c, host, store, order[..|order| - 1]) + if verdict == Reclaimable then [] else [(k, verdict)]
  }

  function SumOf(rows: map<Key, Row>, keys: seq<Key>): nat
    requires forall k :: k in keys ==> k in rows
  {
    if keys == [] then 0 else SumOf(rows, keys[..|keys| - 1]) + rows[keys[|keys| - 1]].bytes
  }

  /** What their files hold on disk. */
  ghost function SumOnDisk(local: map<Key, Tree>, keys: seq<Key>): nat
    requires forall k :: k in keys ==> k in local
  {
    if keys == [] then 0 else SumOnDisk(local, keys[..|keys| - 1]) + Total(local[keys[|keys| - 1]].files)
  }

  ghost function Set(keys: seq<Key>): set<Key> {
    set k | k in keys
  }

  predicate Distinct(keys: seq<Key>) {
    forall i, j :: 0 <= i < j < |keys| ==> keys[i] != keys[j]
  }

  lemma {:induction false} ReclaimablesAre(c: Cache, host: Host, store: Store, order: seq<Key>)
    requires forall k :: k in order ==> k in c.rows
    ensures forall k :: k in Reclaimables(c, host, store, order) <==> k in order && Judge(c, host, store, k) == Reclaimable
  {
    if order != [] { ReclaimablesAre(c, host, store, order[..|order| - 1]); }
  }

  lemma ReclaimablesNext(c: Cache, host: Host, store: Store, order: seq<Key>, n: nat)
    requires forall k :: k in order ==> k in c.rows
    requires n < |order|
    ensures Reclaimables(c, host, store, order[..n + 1])
         == Reclaimables(c, host, store, order[..n]) + if Judge(c, host, store, order[n]) == Reclaimable then [order[n]] else []
    ensures Refused(c, host, store, order[..n + 1])
         == Refused(c, host, store, order[..n])
            + if Judge(c, host, store, order[n]) == Reclaimable then [] else [(order[n], Judge(c, host, store, order[n]))]
  {
    assert order[..n + 1][..n] == order[..n];
  }

  lemma SumOfNext(rows: map<Key, Row>, keys: seq<Key>, k: Key)
    requires k in rows && forall j :: j in keys ==> j in rows
    ensures SumOf(rows, keys + [k]) == SumOf(rows, keys) + rows[k].bytes
  {
    assert (keys + [k])[..|keys|] == keys;
  }

  lemma SumOnDiskNext(local: map<Key, Tree>, keys: seq<Key>, k: Key)
    requires k in local && forall j :: j in keys ==> j in local
    ensures SumOnDisk(local, keys + [k]) == SumOnDisk(local, keys) + Total(local[k].files)
  {
    assert (keys + [k])[..|keys|] == keys;
  }

  // -- the result --------------------------------------------------------------------

  /** Among the first `n` listed, the loop stops at `v`: the first point at which what may go
      reaches the target, or the end. */
  ghost predicate StopsAt(c: Cache, host: Host, store: Store, order: seq<Key>, target: nat, n: nat, v: nat)
    requires n <= |order| && forall k :: k in order ==> k in c.rows
  {
    && v <= n
    && (forall m :: 0 <= m < v ==> SumOf(c.rows, Reclaim(c, host, store, order, m)) < target)
    && (v < n ==> target <= SumOf(c.rows, Reclaim(c, host, store, order, v)))
  }

  /** The reclaimable artifacts among the first `m` listed. */
  function Reclaim(c: Cache, host: Host, store: Store, order: seq<Key>, m: nat): (keys: seq<Key>)
    requires forall k :: k in order ==> k in c.rows
    requires m <= |order|
    ensures forall k :: k in keys ==> k in c.rows
  {
    ReclaimablesAre(c, host, store, order[..m]);
    Reclaimables(c, host, store, order[..m])
  }

  /** The collected result for a stop at `v`. */
  ghost predicate Collects(c: Cache, host: Host, store: Store, order: seq<Key>, r: Collected, v: nat)
    requires forall k :: k in order ==> k in c.rows
    requires v <= |order|
  {
    && r.evicted == Reclaim(c, host, store, order, v)
    && r.skipped == Refused(c, host, store, order[..v])
    && r.freed == SumOf(c.rows, r.evicted)
  }

  /** What is left of the cache, row flags aside. */
  ghost predicate Leaves(c: Cache, g: Progress, dry: bool) {
    && g.cache.leases == c.leases
    && g.cache.local == (if dry then c.local else c.local - Set(g.result.evicted))
    && g.cache.rows.Keys == (if dry then c.rows.Keys else c.rows.Keys - Set(g.result.evicted))
    && (forall k :: k in g.cache.rows ==> k in c.rows && g.cache.rows[k].(replicated := c.rows[k].replicated) == c.rows[k])
    && (forall k :: k in g.result.evicted ==> k in c.rows && k in c.local)
    && Used(g.cache.rows) == Used(c.rows) - (if dry then 0 else g.result.freed)
    && g.cache.free == c.free + (if dry then 0 else SumOnDisk(c.local, g.result.evicted))
  }

  lemma FlaggedLeaves(c: Cache, g: Progress, store: Store, dry: bool, k: Key)
    requires Leaves(c, g, dry)
    ensures Leaves(c, g.(cache := Flagged(g.cache, store, k)), dry)
  {
    if k in g.cache.rows && Asks(store, g.cache.local, k) {
      UsedReplaced(g.cache.rows, k, g.cache.rows[k].(replicated := Passes(store, g.cache.local, k)));
    }
  }

  lemma SkipLeaves(c: Cache, g: Progress, dry: bool, k: Key, why: Verdict)
    requires Leaves(c, g, dry)
    ensures Leaves(c, g.(result := Skip(g.result, k, why)), dry)
  {
  }

  lemma DryEvictLeaves(c: Cache, g: Progress, k: Key)
    requires Leaves(c, g, true) && k in g.cache.rows && k in g.cache.local
    ensures Leaves(c, Progress(g.cache, Evict(g.result, k, c.rows[k].bytes)), true)
  {
  }

  lemma EvictLeaves(c: Cache, g: Progress, dry: bool, k: Key)
    requires Leaves(c, g, dry) && k in g.cache.rows && k in g.cache.local && k !in g.result.evicted
    ensures Leaves(c, Progress(if dry then g.cache else Removed(g.cache, k), Evict(g.result, k, c.rows[k].bytes)), dry)
  {
    if dry {
      DryEvictLeaves(c, g, k);
    } else {
      RemovedLeaves(c, g, k);
      RemovedFrees(c, g, k);
    }
  }

  lemma RemovedLeaves(c: Cache, g: Progress, k: Key)
    requires Leaves(c, g, false) && k in g.cache.rows && k in g.cache.local
    ensures var after := Removed(g.cache, k);
      && after.local == c.local - Set(g.result.evicted + [k])
      && after.rows.Keys == c.rows.Keys - Set(g.result.evicted + [k])
  {
    assert Set(g.result.evicted + [k]) == Set(g.result.evicted) + {k};
  }

  lemma RemovedFrees(c: Cache, g: Progress, k: Key)
    requires Leaves(c, g, false) && k in g.cache.rows && k in g.cache.local
    ensures Used(Removed(g.cache, k).rows) == Used(c.rows) - g.result.freed - c.rows[k].bytes
    ensures Removed(g.cache, k).free == c.free + SumOnDisk(c.local, g.result.evicted + [k])
  {
    UsedWithout(g.cache.rows, k);
    SumOnDiskNext(c.local, g.result.evicted, k);
    assert g.cache.rows[k].bytes == c.rows[k].bytes && g.cache.local[k] == c.local[k];
  }

  /** One turn of the loop on a listed artifact that was not visited before. */
  lemma VisitLeaves(c: Cache, host: Host, store: Store, dry: bool, k: Key, g: Progress)
    requires Leaves(c, g, dry) && k in c.rows && k !in g.result.evicted
    ensures Leaves(c, Visit(c, host, store, dry, k, g), dry)
    ensures Visit(c, host, store, dry, k, g).result == NextResult(c, host, store, k, g.result)
  {
    if g.result.freed >= g.result.target {
    } else if c.rows[k].pinned {
      SkipLeaves(c, g, dry, k, Kept);
    } else if Leased(c.leases, host, k) {
      SkipLeaves(c, g, dry, k, InUse);
    } else {
      var flagged := g.(cache := Flagged(g.cache, store, k));
      FlaggedLeaves(c, g, store, dry, k);
      if Passes(store, g.cache.local, k) {
        EvictLeaves(c, flagged, dry, k);
      } else {
        SkipLeaves(c, flagged, dry, k, Unverified);
      }
    }
  }

  lemma CollectsNext(c: Cache, host: Host, store: Store, order: seq<Key>, r: Collected, n: nat)
    requires forall k :: k in order ==> k in c.rows
    requires n < |order| && Collects(c, host, store, order, r, n)
    ensures var verdict := Judge(c, host, store, order[n]);
      Collects(c, host, store, order,
               if verdict == Reclaimable then Evict(r, order[n], c.rows[order[n]].bytes) else Skip(r, order[n], verdict), n + 1)
  {
    ReclaimablesNext(c, host, store, order, n);
    SumOfNext(c.rows, r.evicted, order[n]);
  }

  lemma NothingLeaves(c: Cache, dry: bool, target: nat)
    ensures Leaves(c, Progress(c, Collected(target, 0, [], [])), dry)
  {
    assert Set([]) == {};
  }

  /** What holds after `n` turns, with `v` as in `StopsAt`. */
  ghost predicate Swept(c: Cache, host: Host, store: Store, dry: bool, order: seq<Key>, target: nat, n: nat, v: nat, g: Progress)
    requires n <= |order| && forall k :: k in order ==> k in c.rows
  {
    && g.result.target == target
    && StopsAt(c, host, store, order, target, n, v)
    && Collects(c, host, store, order, g.result, v)
    && Leaves(c, g, dry)
  }

  lemma NotYetEvicted(c: Cache, host: Host, store: Store, order: seq<Key>, r: Collected, n: nat, v: nat)
    requires forall k :: k in order ==> k in c.rows
    requires Distinct(order) && v <= n < |order| && Collects(c, host, store, order, r, v)
    ensures order[n] !in r.evicted
  {
    ReclaimablesAre(c, host, store, order[..v]);
  }

  function NextResult(c: Cache, host: Host, store: Store, k: Key, r: Collected): Collected
    requires k in c.rows
  {
    if r.freed >= r.target then r
    else if Judge(c, host, store, k) == Reclaimable then Evict(r, k, c.rows[k].bytes)
    else Skip(r, k, Judge(c, host, store, k))
  }

  lemma NextStop(c: Cache, host: Host, store: Store, order: seq<Key>, target: nat, n: nat, v: nat, r: Collected) returns (v': nat)
    requires n < |order| && forall k :: k in order ==> k in c.rows
    requires r.target == target && StopsAt(c, host, store, order, target, n, v) && Collects(c, host, store, order, r, v)
    ensures StopsAt(c, host, store, order, target, n + 1, v')
    ensures Collects(c, host, store, order, NextResult(c, host, store, order[n], r), v')
  {
    if r.freed < target {
      assert v == n;
      CollectsNext(c, host, store, order, r, n);
      v' := n + 1;
    } else {
      v' := v;
    }
  }

  lemma NextTurn(c: Cache, host: Host, store: Store, dry: bool, order: seq<Key>, target: nat, n: nat, v: nat, g: Progress)
    returns (v': nat)
    requires n < |order| && forall k :: k in order ==> k in c.rows
    requires Distinct(order) && Swept(c, host, store, dry, order, target, n, v, g)
    ensures Swept(c, host, store, dry, order, target, n + 1, v', Visit(c, host, store, dry, order[n], g))
  {
    NotYetEvicted(c, host, store, order, g.result, n, v);
    VisitLeaves(c, host, store, dry, order[n], g);
    v' := NextStop(c, host, store, order, target, n, v, g.result);
  }

  /** The sweep of a listing without repetitions stops at the first sufficient point, evicts the
      reclaimable artifacts before it, reports why it refused the others, and changes nothing else. */
  lemma {:induction false} SweepStops(c: Cache, host: Host, store: Store, dry: bool, order: seq<Key>, target: nat, n: nat)
    returns (v: nat)
    requires n <= |order| && forall k :: k in order ==> k in c.rows
    requires Distinct(order) && target > 0
    ensures Swept(c, host, store, dry, order, target, n, v, Sweep(c, host, store, dry, order, target, n))
    decreases n
  {
    if n == 0 {
      v := 0;
      NothingLeaves(c, dry, target);
    } else {
      v := SweepStops(c, host, store, dry, order, target, n - 1);
      v := NextTurn(c, host, store, dry, order, target, n - 1, v, Sweep(c, host, store, dry, order, target, n - 1));
    }
  }
}
