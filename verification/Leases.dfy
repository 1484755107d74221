/** Leases keyed to live processes: `nawat/leases.py` over the process table of `nawat/process.py`. */
module Leases {
  type Pid = nat
  type Boot = nat
  type LeaseId = nat

  /** Start time in ticks since boot, or -1 when the entry in the process table cannot be parsed. */
  datatype Start = Known(ticks: nat) | Unknown

  /** What `read_stat` finds for a pid that exists. `dead` covers the states Z and X, and not the `?` of an
      entry that cannot be parsed. */
  datatype Entry = Entry(start: Start, dead: bool)

  /** One boot of the machine and its process table. */
  datatype Host = Host(boot: Boot, procs: map<Pid, Entry>)

  datatype Lease<Key> = Lease(key: Key, pid: Pid, boot: Boot, start: Start)

  /** `LeaseRecord.alive`. */
  predicate Alive<Key>(l: Lease<Key>, host: Host) {
    if l.boot != host.boot then false
    else if l.pid !in host.procs || host.procs[l.pid].dead then false
    else if host.procs[l.pid].start == Unknown || l.start == Unknown then true
    else host.procs[l.pid].start == l.start
  }

  /** `LeaseRegistry.acquire` records the caller as the process table shows it. */
  function Acquired<Key>(key: Key, pid: Pid, host: Host): Lease<Key> {
    Lease(key, pid, host.boot, if pid in host.procs then host.procs[pid].start else Unknown)
  }

  /** `LeaseRegistry.reap`. */
  function Reaped<Key>(leases: map<LeaseId, Lease<Key>>, host: Host): map<LeaseId, Lease<Key>> {
    map id | id in leases && Alive(leases[id], host) :: leases[id]
  }

  /** `LeaseRegistry.live_for` is not empty. */
  predicate Leased<Key(==)>(leases: map<LeaseId, Lease<Key>>, host: Host, key: Key) {
    exists id :: id in leases && leases[id].key == key && Alive(leases[id], host)
  }

  // -- histories of the machine ----------------------------------------------------

  /** A process as such, whatever pid it was given: its number in the order of creation. */
  type Life = nat

  /** A process, and whether its entry can be parsed. */
  datatype Process = Process(life: Life, ticks: nat, zombie: bool, readable: bool)

  /** The machine as it is; `used` are the start times given out so far. */
  datatype Machine = Machine(boot: Boot, procs: map<Pid, Process>, born: Life, used: set<(Boot, Pid, nat)>)

  function Shown(p: Process): Entry {
    if p.readable then Entry(Known(p.ticks), p.zombie) else Entry(Unknown, false)
  }

  /** What the process table shows of the machine. */
  function Table(m: Machine): Host {
    Host(m.boot, map pid | pid in m.procs :: Shown(m.procs[pid]))
  }

  datatype HostEvent =
    | Fork(pid: Pid, ticks: nat, readable: bool)   // a new process on a free pid
    | Show(pid: Pid, readable: bool)               // from now on its entry can, or cannot, be parsed
    | Die(pid: Pid)                                // it exits and is reaped
    | Zombie(pid: Pid)                             // it exits and is not waited for
    | Reboot

  /** A pid is given out only when free, and never twice in the same tick of one boot. */
  predicate HostEnabled(m: Machine, e: HostEvent) {
    match e
    case Fork(pid, ticks, _) => pid !in m.procs && (m.boot, pid, ticks) !in m.used
    case Show(pid, _) => pid in m.procs
    case Die(pid) => pid in m.procs
    case Zombie(pid) => pid in m.procs
    case Reboot => true
  }

  function HostAfter(m: Machine, e: HostEvent): Machine
    requires HostEnabled(m, e)
  {
    match e
    case Fork(pid, ticks, readable) =>
      Machine(m.boot, m.procs[pid := Process(m.born, ticks, false, readable)], m.born + 1, m.used + {(m.boot, pid, ticks)})
    case Show(pid, readable) => m.(procs := m.procs[pid := m.procs[pid].(readable := readable)])
    case Die(pid) => m.(procs := m.procs - {pid})
    case Zombie(pid) => m.(procs := m.procs[pid := m.procs[pid].(zombie := true)])
    case Reboot => m.(boot := m.boot + 1, procs := map[])
  }

  /** Every process has a life of its own and its start time is among the used ones. */
  ghost predicate Tracked(m: Machine) {
    && (forall pid :: pid in m.procs ==> m.procs[pid].life < m.born && (m.boot, pid, m.procs[pid].ticks) in m.used)
    && (forall a, b :: a in m.procs && b in m.procs && m.procs[a].life == m.procs[b].life ==> a == b)
    && (forall u :: u in m.used ==> u.0 <= m.boot)
  }

  /** The process of that life is still there, on that pid, and not a zombie. */
  predicate Runs(m: Machine, pid: Pid, life: Life) {
    pid in m.procs && m.procs[pid].life == life && !m.procs[pid].zombie
  }

  /** Some process has the lease's pid in the boot of the lease, and there are no two start times to tell
      it from the holder: its entry cannot be parsed, or that of the holder could not, and this one is no zombie. */
  predicate CannotTell<Key>(m: Machine, l: Lease<Key>) {
    && l.boot == m.boot && l.pid in m.procs
    && (!m.procs[l.pid].readable || (l.start == Unknown && !m.procs[l.pid].zombie))
  }

  /** Lease `l` was taken by the process with that life. That process stays on its pid, boot and start
      time; and a process with the boot, pid and start time of the lease is that one. */
  ghost predicate TakenBy<Key>(m: Machine, l: Lease<Key>, life: Life) {
    && life < m.born && Resides(m, l, life)
    && (l.start.Known? ==>
          && (l.boot, l.pid, l.start.ticks) in m.used
          && (l.boot == m.boot && l.pid in m.procs && m.procs[l.pid].ticks == l.start.ticks ==> m.procs[l.pid].life == life))
  }

  ghost predicate Resides<Key>(m: Machine, l: Lease<Key>, life: Life) {
    forall pid :: pid in m.procs && m.procs[pid].life == life ==>
      pid == l.pid && m.boot == l.boot && (l.start.Known? ==> l.start.ticks == m.procs[pid].ticks)
  }

  lemma TakingALease<Key>(m: Machine, key: Key, pid: Pid)
    requires Tracked(m) && pid in m.procs
    ensures TakenBy(m, Acquired(key, pid, Table(m)), m.procs[pid].life)
  {
  }

  lemma TrackedStays(m: Machine, e: HostEvent)
    requires Tracked(m) && HostEnabled(m, e)
    ensures Tracked(HostAfter(m, e))
  {
  }

  lemma TakenByStays<Key>(m: Machine, e: HostEvent, l: Lease<Key>, life: Life)
    requires Tracked(m) && HostEnabled(m, e) && TakenBy(m, l, life)
    ensures TakenBy(HostAfter(m, e), l, life)
  {
  }

  /** A lease counts as live exactly while its holder runs, or there is no telling. */
  lemma AliveWhen<Key>(m: Machine, l: Lease<Key>, life: Life)
    requires TakenBy(m, l, life)
    ensures Alive(l, Table(m)) <==> Runs(m, l.pid, life) || CannotTell(m, l)
  {
    if l.pid in m.procs { assert Table(m).procs[l.pid] == Shown(m.procs[l.pid]); }
  }

  ghost predicate HostHistory(m: Machine, events: seq<HostEvent>)
    decreases |events|
  {
    events == [] || (HostEnabled(m, events[0]) && HostHistory(HostAfter(m, events[0]), events[1..]))
  }

  ghost function HostReached(m: Machine, events: seq<HostEvent>): Machine
    requires HostHistory(m, events)
    decreases |events|
  {
    if events == [] then m else HostReached(HostAfter(m, events[0]), events[1..])
  }

  /** A history of the machine goes on from where it has got. */
  lemma {:induction false} OneMoreHostEvent(m: Machine, events: seq<HostEvent>, e: HostEvent)
    requires HostHistory(m, events)
    ensures HostHistory(m, []) && HostReached(m, []) == m
    ensures HostHistory(m, events + [e]) <==> HostEnabled(HostReached(m, events), e)
    ensures HostEnabled(HostReached(m, events), e) ==> HostReached(m, events + [e]) == HostAfter(HostReached(m, events), e)
    decreases |events|
  {
    hide HostAfter, HostEnabled;
    if events == [] {
      assert [] + [e] == [e] && [e][1..] == [];
    } else {
      assert (events + [e])[1..] == events[1..] + [e];
      OneMoreHostEvent(HostAfter(m, events[0]), events[1..], e);
    }
  }

  /** Whatever dies, reboots, reuses the pid or cannot be parsed afterwards, a lease counts as live
      exactly while the very process that took it runs, or some process has its pid in the same boot
      and one of the two start times is not known. */
  lemma {:induction false} LeaseLivesWithItsHolder<Key>(m: Machine, key: Key, pid: Pid, events: seq<HostEvent>)
    requires Tracked(m) && pid in m.procs && HostHistory(m, events)
    ensures var l, m' := Acquired(key, pid, Table(m)), HostReached(m, events);
      Alive(l, Table(m')) <==> Runs(m', pid, m.procs[pid].life) || CannotTell(m', l)
  {
    TakingALease(m, key, pid);
    FollowLease(m, Acquired(key, pid, Table(m)), m.procs[pid].life, events);
  }

  lemma {:induction false} FollowLease<Key>(m: Machine, l: Lease<Key>, life: Life, events: seq<HostEvent>)
    requires Tracked(m) && TakenBy(m, l, life) && HostHistory(m, events)
    ensures var m' := HostReached(m, events); Alive(l, Table(m')) <==> Runs(m', l.pid, life) || CannotTell(m', l)
    decreases |events|
  {
    hide Tracked, TakenBy, Resides, Alive, HostAfter, Table;
    if events == [] {
      AliveWhen(m, l, life);
    } else {
      TrackedStays(m, events[0]);
      TakenByStays(m, events[0], l, life);
      FollowLease(HostAfter(m, events[0]), l, life, events[1..]);
    }
  }

  /** When the holder dies its lease does; and a new process on its pid brings the lease back to life
      exactly when one of the two start times is not known. */
  lemma {:induction false} UnknownStartOutlivesItsHolder<Key>(m: Machine, key: Key, pid: Pid, ticks: nat, readable: bool)
    requires Tracked(m) && pid in m.procs && (m.boot, pid, ticks) !in m.used
    ensures var l, died := Acquired(key, pid, Table(m)), HostAfter(m, Die(pid));
      && !Alive(l, Table(died)) && HostEnabled(died, Fork(pid, ticks, readable))
      && var reused := HostAfter(died, Fork(pid, ticks, readable));
      && !Runs(reused, pid, m.procs[pid].life)
      && (Alive(l, Table(reused)) <==> !m.procs[pid].readable || !readable)
  {
    var l, died := Acquired(key, pid, Table(m)), HostAfter(m, Die(pid));
    var reused := HostAfter(died, Fork(pid, ticks, readable));
    TakingALease(m, key, pid);
    TrackedStays(m, Die(pid));
    TakenByStays(m, Die(pid), l, m.procs[pid].life);
    TakenByStays(died, Fork(pid, ticks, readable), l, m.procs[pid].life);
    AliveWhen(died, l, m.procs[pid].life);
    AliveWhen(reused, l, m.procs[pid].life);
  }
}
