/** Taking turns on the one GPU: `nawat/gpulock.py`, the waiting loop of
    `nawat/executor.py`, the run rows of `nawat/runs.py` and the claim made by
    `nawat/lab/cli.py`, as one protocol whose processes interleave step by step. */
module GpuQueue {
  import opened Wrappers

  /** Run ids are their rank in the order of the id strings. */
  type RunId = nat
  type Pid = nat

  datatype RunState = Queued | Staging | Running | Publishing | Succeeded | Failed | Cancelled {
    predicate Terminal() { Succeeded? || Failed? || Cancelled? }
  }

  /** A run row with its cancel sentinel. */
  datatype Run = Run(submittedAt: int, state: RunState, marked: bool)

  /** An advisory lock is held on an open file, so an owner file that was replaced is another lock. */
  datatype LockFile = Gpu | Worker | Owner(id: RunId, version: nat)

  /** `probe` tells the lock `is_held` takes to test from one taken to be kept. */
  datatype Holder = Holder(pid: Pid, probe: bool)

  /** Where a process is in `run_experiment`, `_serve`, `execute` and `wait_for_turn`. */
  datatype Pc =
    | Idle
    | Claimed(id: RunId)                  // owner file locked, row not yet inserted
    | Serving | Picked(id: RunId)         // worker lock held; a queued run was listed
    | Entering(id: RunId)                 // about to call execute
    | Waiting(id: RunId)                  // top of the waiting loop
    | Cancelling(id: RunId)               // the sentinel was seen
    | Checked(id: RunId, queued: bool)    // the row was read
    | Looked(id: RunId, clear: bool)      // whether any run is ahead was read
    | Holding(id: RunId)                  // the GPU lock was taken
    | Staged(id: RunId) | Launching(id: RunId) | Training(id: RunId) | Leaving(id: RunId)
    | Left(id: RunId)                     // the GPU lock is released
  {
    /** Between taking and releasing the GPU. */
    predicate Critical() { Holding? || Staged? || Launching? || Training? || Leaving? }

    predicate Executing() {
      Entering? || Waiting? || Cancelling? || Checked? || Looked? || Left? || Critical()
    }
  }

  /** What `drop_abandoned` has found out so far. */
  datatype Finding = Nothing | Gone(id: RunId) | Confirmed(id: RunId)

  datatype Process = Process(pc: Pc, serving: bool, claim: Option<LockFile>, probing: Option<LockFile>, finding: Finding)

  datatype State = State(
    clock: int,
    runs: map<RunId, Run>,
    ownerFiles: map<RunId, nat>,      // the version of each run directory's owner file
    locks: map<LockFile, Holder>,
    procs: map<Pid, Process>,
    acquired: seq<Turn>,              // history: GPU taken by a run that was still queued
    trained: set<RunId>,              // history: runs whose trainer was launched
    dropped: set<RunId>               // history: runs cancelled by drop_abandoned
  )

  datatype Turn = Turn(submittedAt: int, id: RunId)

  const INITIAL := State(0, map[], map[], map[], map[], [], {}, {})
  const NEWBORN := Process(Idle, false, None, None, Nothing)

  /** What one live process may do next. */
  datatype Action =
    | Claim(id: RunId) | Create(now: int) | CreateRefused
    | Serve | StopServing | ListQueue(id: RunId) | Examine
    | Enter | Check | CancelSelf | LookAhead | TryGpu
    | BeginStaging | CheckMark | Launch | Exit(state: RunState) | GiveUp(state: RunState)
    | ReleaseGpu | MarkFailed | Return
    | BeginProbe(lock: LockFile) | EndProbe | ConfirmGone | DropGone

  datatype Event =
    | Spawn(p: Pid) | Crash(p: Pid)
    | Enqueue(id: RunId, now: int)      // `nawat exp run --queue`: no owner file
    | Cancel(id: RunId)                 // `nawat exp cancel`, from any process
    | Recover(id: RunId)                // `RunStore.reconcile` of an active run
    | Step(p: Pid, a: Action)

  predicate Before(a: Turn, b: Turn) {
    a.submittedAt < b.submittedAt || (a.submittedAt == b.submittedAt && a.id < b.id)
  }

  function TurnOf(s: State, id: RunId): Turn
    requires id in s.runs
  {
    Turn(s.runs[id].submittedAt, id)
  }

  predicate QueuedIn(s: State, id: RunId) {
    id in s.runs && s.runs[id].state == Queued
  }

  /** `queued_before` is empty. */
  predicate NoneAhead(s: State, t: Turn) {
    forall id :: id in s.runs && QueuedIn(s, id) ==> !Before(TurnOf(s, id), t)
  }

  // -- one step of one process ---------------------------------------------------

  datatype LockChange = Keep | Take(lock: LockFile) | Test(lock: LockFile) | Drop(lock: LockFile)

  datatype History = NoHistory | Acquired | Trained | Dropped

  /** The process afterwards, and what it did to the locks and to at most one run row. */
  datatype Outcome = Outcome(proc: Process, lock: LockChange, row: Option<Run>, history: History)

  /** The run an action is about. */
  function Subject(q: Process, a: Action): RunId {
    match a
    case Claim(id) => id
    case ListQueue(id) => id
    case ConfirmGone => if q.finding == Nothing then 0 else q.finding.id
    case DropGone => if q.finding == Nothing then 0 else q.finding.id
    case _ => if q.pc.Idle? || q.pc.Serving? then 0 else q.pc.id
  }

  function NextVersion(s: State, id: RunId): nat {
    if id in s.ownerFiles then s.ownerFiles[id] + 1 else 0
  }

  /** Where the code stands when it reaches the action, and what the primitive it calls demands. */
  predicate Can(s: State, p: Pid, a: Action)
    requires p in s.procs
  {
    var q := s.procs[p];
    var id := Subject(q, a);
    match a
    case Claim(_) => q.pc.Idle?
    case Create(now) => q.pc.Claimed? && id !in s.runs && s.clock <= now
    case CreateRefused => q.pc.Claimed? && id in s.runs
    case Serve => q.pc.Idle?
    case StopServing => q.pc.Serving?
    case ListQueue(_) => q.pc.Serving? && QueuedIn(s, id)
    case Examine => q.pc.Picked?
    case Enter => q.pc.Entering? && id in s.runs
    case Check => q.pc.Waiting? && id in s.runs
    case CancelSelf => q.pc.Cancelling? && id in s.runs
    case LookAhead => q.pc.Checked? && id in s.runs
    case TryGpu => q.pc.Looked? && id in s.runs
    case BeginStaging => q.pc.Holding? && id in s.runs
    case CheckMark => q.pc.Staged? && id in s.runs
    case Launch => q.pc.Launching? && id in s.runs
    case Exit(state) => q.pc.Training? && id in s.runs && (state == Publishing || state.Terminal())
    case GiveUp(state) => q.pc.Critical() && id in s.runs && state.Terminal()
    case ReleaseGpu => q.pc.Critical()
    case MarkFailed => q.pc.Left? && id in s.runs && !s.runs[id].state.Terminal()
    case Return => q.pc.Left?
    case BeginProbe(l) => q.probing.None? && (l.Owner? ==> l.id in s.ownerFiles && s.ownerFiles[l.id] == l.version)
    case EndProbe => q.probing.Some?
    case ConfirmGone => q.finding.Gone?
    case DropGone => q.finding.Confirmed? && id in s.runs
  }

  function Act(s: State, p: Pid, a: Action): Outcome
    requires p in s.procs && Can(s, p, a)
  {
    var q := s.procs[p];
    var id := Subject(q, a);
    match a
    case Claim(_) =>
      // locked under a private name, then renamed into place
      var l := Owner(id, NextVersion(s, id));
      Outcome(q.(pc := Claimed(id), claim := Some(l)), Take(l), None, NoHistory)
    case Create(now) => Outcome(q.(pc := Entering(id)), Keep, Some(Run(now, Queued, false)), NoHistory)
    case CreateRefused => Unclaim(q)
    case Serve =>
      if Worker in s.locks then Outcome(q, Keep, None, NoHistory)
      else Outcome(q.(pc := Serving, serving := true), Take(Worker), None, NoHistory)
    case StopServing => Outcome(q.(pc := Idle, serving := false), Drop(Worker), None, NoHistory)
    case ListQueue(_) => Go(q, Picked(id))
    case Examine => Go(q, if id !in s.ownerFiles && id in s.runs then Entering(id) else Serving)
    case Enter => Go(q, if s.runs[id].state.Terminal() then Left(id) else Waiting(id))
    case Check =>
      Go(q, if s.runs[id].state.Terminal() then Left(id)
            else if s.runs[id].marked then Cancelling(id)
            else Checked(id, s.runs[id].state == Queued))
    case CancelSelf => Write(s, q, Left(id), id, Cancelled)
    case LookAhead => Go(q, Looked(id, q.pc.queued ==> NoneAhead(s, TurnOf(s, id))))
    case TryGpu =>
      if q.pc.clear && Gpu !in s.locks
      then Outcome(q.(pc := Holding(id)), Take(Gpu), None, Acquired)
      else Go(q, Waiting(id))
    case BeginStaging => Write(s, q, Staged(id), id, Staging)
    case CheckMark => if s.runs[id].marked then Write(s, q, Leaving(id), id, Cancelled) else Go(q, Launching(id))
    case Launch => Write(s, q, Training(id), id, Running).(history := Trained)
    case Exit(state) => Write(s, q, Leaving(id), id, state)
    case GiveUp(state) =>
      // `_fail` leaves a cancelled run cancelled
      if s.runs[id].state == Cancelled then Go(q, Leaving(id)) else Write(s, q, Leaving(id), id, state)
    case ReleaseGpu => Outcome(q.(pc := Left(id)), Drop(Gpu), None, NoHistory)
    case MarkFailed => Write(s, q, Left(id), id, Failed)
    case Return => if q.serving then Go(q, Serving) else Unclaim(q)
    case BeginProbe(l) =>
      if l in s.locks then Outcome(q, Keep, None, NoHistory)
      else Outcome(q.(probing := Some(l)), Test(l), None, NoHistory)
    case EndProbe =>
      var l := q.probing.value;
      Outcome(q.(probing := None, finding := if l.Owner? then Gone(l.id) else q.finding), Drop(l), None, NoHistory)
    case ConfirmGone => Outcome(q.(finding := if QueuedIn(s, id) then Confirmed(id) else Nothing), Keep, None, NoHistory)
    case DropGone =>
      Outcome(q.(finding := Nothing), Keep, Some(s.runs[id].(marked := true, state := Cancelled)), Dropped)
  }

  function Go(q: Process, pc: Pc): Outcome {
    Outcome(q.(pc := pc), Keep, None, NoHistory)
  }

  function Write(s: State, q: Process, pc: Pc, id: RunId, state: RunState): Outcome
    requires id in s.runs
  {
    Outcome(q.(pc := pc), Keep, Some(s.runs[id].(state := state)), NoHistory)
  }

  function Unclaim(q: Process): Outcome {
    if q.claim.None? then Go(q, Idle)
    else Outcome(q.(pc := Idle, claim := None), Drop(q.claim.value), None, NoHistory)
  }

  function Locks(s: State, p: Pid, c: LockChange): map<LockFile, Holder> {
    match c
    case Keep => s.locks
    case Take(l) => s.locks[l := Holder(p, false)]
    case Test(l) => s.locks[l := Holder(p, true)]
    case Drop(l) => s.locks - {l}
  }

  function Apply(s: State, p: Pid, a: Action, o: Outcome): State {
    var id := if p in s.procs then Subject(s.procs[p], a) else 0;
    s.(procs := s.procs[p := o.proc],
       locks := Locks(s, p, o.lock),
       ownerFiles := if a.Claim? then s.ownerFiles[id := NextVersion(s, id)] else s.ownerFiles,
       runs := if o.row.Some? then s.runs[id := o.row.value] else s.runs,
       clock := if a.Create? then a.now else s.clock,
       acquired := if o.history == Acquired && QueuedIn(s, id) then s.acquired + [TurnOf(s, id)] else s.acquired,
       trained := if o.history == Trained then s.trained + {id} else s.trained,
       dropped := if o.history == Dropped then s.dropped + {id} else s.dropped)
  }

  // -- the whole system ------------------------------------------------------------

  predicate Enabled(s: State, e: Event) {
    match e
    case Spawn(p) => p !in s.procs
    case Crash(p) => p in s.procs
    case Enqueue(id, now) => id !in s.runs && s.clock <= now
    case Cancel(id) => id in s.runs && !s.runs[id].state.Terminal()
    case Recover(id) => id in s.runs && s.runs[id].state in {Staging, Running, Publishing}
    case Step(p, a) => p in s.procs && Can(s, p, a)
  }

  function After(s: State, e: Event): State
    requires Enabled(s, e)
  {
    match e
    case Spawn(p) => s.(procs := s.procs[p := NEWBORN])
    case Crash(p) =>
      // the kernel drops every lock of a process that exits, however it exits
      s.(procs := s.procs - {p}, locks := map l | l in s.locks && s.locks[l].pid != p :: s.locks[l])
    case Enqueue(id, now) => s.(runs := s.runs[id := Run(now, Queued, false)], clock := now)
    case Cancel(id) =>
      s.(runs := s.runs[id := s.runs[id].(marked := true,
                                          state := if s.runs[id].state == Queued then Cancelled else s.runs[id].state)])
    case Recover(id) => s.(runs := s.runs[id := s.runs[id].(state := Failed)])
    case Step(p, a) => Apply(s, p, a, Act(s, p, a))
  }

  // -- locks and the processes that hold them --------------------------------------

  /** Whether a process standing there keeps a lock, other than one it is testing. */
  predicate Holds(q: Process, l: LockFile) {
    match l
    case Gpu => q.pc.Critical()
    case Worker => q.serving
    case Owner(_, _) => q.claim == Some(l)
  }

  /** A process's flags agree with where it stands. */
  predicate Shape(q: Process) {
    && (q.claim.Some? ==> q.claim.value.Owner?)
    && match q.pc
       case Idle => !q.serving && q.claim.None?
       case Claimed(id) => !q.serving && q.claim.Some? && q.claim.value.id == id
       case Serving => q.serving && q.claim.None?
       case Picked(_) => q.serving && q.claim.None?
       case _ => (q.serving <==> q.claim.None?) && (q.claim.Some? ==> q.claim.value.id == q.pc.id)
  }

  ghost predicate Backed(s: State, p: Pid)
    requires p in s.procs
  {
    && Shape(s.procs[p])
    && (forall l :: Holds(s.procs[p], l) ==> l in s.locks && s.locks[l] == Holder(p, false))
    && (s.procs[p].probing.Some? ==>
          s.procs[p].probing.value in s.locks && s.locks[s.procs[p].probing.value] == Holder(p, true))
  }

  ghost predicate Justified(s: State, l: LockFile)
    requires l in s.locks
  {
    var h := s.locks[l];
    && h.pid in s.procs
    && (l.Owner? ==> l.id in s.ownerFiles && l.version <= s.ownerFiles[l.id])
    && if h.probe then s.procs[h.pid].probing == Some(l) else Holds(s.procs[h.pid], l)
  }

  ghost predicate LocksAgree(s: State) {
    && (forall l :: l in s.locks ==> Justified(s, l))
    && (forall p :: p in s.procs ==> Backed(s, p))
  }

  /** The two processes keep the same locks, except that `now` keeps `l` when `on` and `was` does otherwise. */
  predicate Flips(was: Process, now: Process, l: LockFile, on: bool) {
    && Holds(now, l) == on && Holds(was, l) == !on
    && now.probing == was.probing
    && (l != Gpu ==> now.pc.Critical() == was.pc.Critical())
    && (l != Worker ==> now.serving == was.serving)
    && (!l.Owner? ==> now.claim == was.claim)
    && (l.Owner? ==> if on then was.claim.None? else now.claim.None?)
  }

  predicate SameHolds(was: Process, now: Process) {
    now.pc.Critical() == was.pc.Critical() && now.serving == was.serving && now.claim == was.claim
  }

  /** An outcome changes a process's flags exactly as it changes the locks. */
  predicate Honest(s: State, p: Pid, o: Outcome)
    requires p in s.procs
  {
    var q, q' := s.procs[p], o.proc;
    && Shape(q')
    && match o.lock
       case Keep => SameHolds(q, q') && q'.probing == q.probing
       case Take(l) => l !in s.locks && Flips(q, q', l, true)
       case Test(l) => l !in s.locks && SameHolds(q, q') && q.probing == None && q'.probing == Some(l)
       case Drop(l) =>
         if l in s.locks && s.locks[l].probe then SameHolds(q, q') && q.probing == Some(l) && q'.probing == None
         else Flips(q, q', l, false)
  }

  lemma ActIsHonest(s: State, p: Pid, a: Action)
    requires p in s.procs && Can(s, p, a) && Backed(s, p)
    requires a.Claim? ==> Owner(a.id, NextVersion(s, a.id)) !in s.locks
    ensures Honest(s, p, Act(s, p, a))
  {
    assert Shape(s.procs[p]);
    if a.Claim? || a.Serve? || a.TryGpu? {
    } else if a.CreateRefused? || a.StopServing? || a.Return? || a.ReleaseGpu? {
      ReleaseIsHonest(s, p, a);
    } else {
      OtherActIsHonest(s, p, a);
    }
  }

  lemma ReleaseIsHonest(s: State, p: Pid, a: Action)
    requires p in s.procs && Can(s, p, a) && Backed(s, p) && Shape(s.procs[p])
    requires a.CreateRefused? || a.StopServing? || a.Return? || a.ReleaseGpu?
    ensures Honest(s, p, Act(s, p, a))
  {
    var q := s.procs[p];
    match a
    case CreateRefused => assert Holds(q, q.claim.value);
    case StopServing => assert Holds(q, Worker);
    case Return => if !q.serving { assert Holds(q, q.claim.value); }
    case ReleaseGpu => assert Holds(q, Gpu);
  }

  lemma OtherActIsHonest(s: State, p: Pid, a: Action)
    requires p in s.procs && Can(s, p, a) && Backed(s, p) && Shape(s.procs[p])
    requires !a.Claim? && !a.Serve? && !a.TryGpu?
    requires !a.CreateRefused? && !a.StopServing? && !a.Return? && !a.ReleaseGpu?
    ensures Honest(s, p, Act(s, p, a))
  {
    if a.BeginProbe? || a.EndProbe? {
    } else {
      OnlyMoves(s, p, a);
    }
  }

  lemma OnlyMoves(s: State, p: Pid, a: Action)
    requires p in s.procs && Can(s, p, a) && Shape(s.procs[p])
    requires !a.Claim? && !a.Serve? && !a.TryGpu? && !a.BeginProbe? && !a.EndProbe?
    requires !a.CreateRefused? && !a.StopServing? && !a.Return? && !a.ReleaseGpu?
    ensures var q, o := s.procs[p], Act(s, p, a); o.lock == Keep && Shape(o.proc) && SameHolds(q, o.proc) && o.proc.probing == q.probing
  {
  }

  lemma HonestStepKeepsLocks(s: State, p: Pid, a: Action, o: Outcome)
    requires p in s.procs && LocksAgree(s) && Honest(s, p, o)
    requires o.lock.Take? && o.lock.lock.Owner? ==> a == Claim(o.lock.lock.id) && o.lock.lock.version == NextVersion(s, a.id)
    requires o.lock.Test? && o.lock.lock.Owner? ==> o.lock.lock.id in s.ownerFiles && o.lock.lock.version <= s.ownerFiles[o.lock.lock.id]
    ensures LocksAgree(Apply(s, p, a, o))
  {
    var s' := Apply(s, p, a, o);
    forall q | q in s'.procs ensures Backed(s', q) {
      if q != p { OthersStayBacked(s, p, a, o, q); } else { ActorStaysBacked(s, p, a, o); }
    }
    forall l | l in s'.locks ensures Justified(s', l) {
      LockStaysJustified(s, p, a, o, l);
    }
  }

  lemma ActorStaysBacked(s: State, p: Pid, a: Action, o: Outcome)
    requires p in s.procs && Backed(s, p) && Honest(s, p, o)
    ensures Backed(Apply(s, p, a, o), p)
  {
    var s', q, q' := Apply(s, p, a, o), s.procs[p], o.proc;
    forall l | Holds(q', l) ensures l in s'.locks && s'.locks[l] == Holder(p, false) {
      assert Holds(q, l) || o.lock == Take(l);
    }
  }

  lemma LockStaysJustified(s: State, p: Pid, a: Action, o: Outcome, l: LockFile)
    requires p in s.procs && LocksAgree(s) && Honest(s, p, o)
    requires o.lock.Take? && o.lock.lock.Owner? ==> a == Claim(o.lock.lock.id) && o.lock.lock.version == NextVersion(s, a.id)
    requires o.lock.Test? && o.lock.lock.Owner? ==> o.lock.lock.id in s.ownerFiles && o.lock.lock.version <= s.ownerFiles[o.lock.lock.id]
    requires l in Apply(s, p, a, o).locks
    ensures Justified(Apply(s, p, a, o), l)
  {
    if l in s.locks {
      assert Justified(s, l) && Backed(s, p);
    }
  }

  lemma OthersStayBacked(s: State, p: Pid, a: Action, o: Outcome, q: Pid)
    requires p in s.procs && LocksAgree(s) && Honest(s, p, o) && q in s.procs && q != p
    ensures Backed(Apply(s, p, a, o), q)
  {
    assert Backed(s, q) && Backed(s, p);
  }

  lemma {:induction false} LocksKept(s: State, e: Event)
    requires LocksAgree(s) && Enabled(s, e)
    ensures LocksAgree(After(s, e))
  {
    match e
    case Step(p, a) =>
      if a.Claim? { VersionIsNew(s, a.id); }
      assert Backed(s, p);
      ActIsHonest(s, p, a);
      LockTouched(s, p, a);
      hide Act, Can;
      HonestStepKeepsLocks(s, p, a, Act(s, p, a));
    case _ => OutsideKeepsLocks(s, e);
  }

  lemma LockTouched(s: State, p: Pid, a: Action)
    requires p in s.procs && Can(s, p, a)
    ensures var c := Act(s, p, a).lock;
      && (c.Take? && c.lock.Owner? ==> a == Claim(c.lock.id) && c.lock.version == NextVersion(s, a.id))
      && (c.Test? && c.lock.Owner? ==> c.lock.id in s.ownerFiles && c.lock.version <= s.ownerFiles[c.lock.id])
  {
  }

  lemma VersionIsNew(s: State, id: RunId)
    requires LocksAgree(s)
    ensures Owner(id, NextVersion(s, id)) !in s.locks
  {
    var l := Owner(id, NextVersion(s, id));
    if l in s.locks && Justified(s, l) { assert false; }
  }

  lemma OutsideKeepsLocks(s: State, e: Event)
    requires LocksAgree(s) && Enabled(s, e) && !e.Step?
    ensures LocksAgree(After(s, e))
  {
    var s' := After(s, e);
    forall q | q in s'.procs ensures Backed(s', q) {
      if q in s.procs { assert Backed(s, q); }
    }
    forall l | l in s'.locks ensures Justified(s', l) {
      assert Justified(s, l);
    }
  }

  // -- rows and turns --------------------------------------------------------------

  /** Rows are never removed, never re-queued, and are stamped by a clock that does not go back. */
  ghost predicate RunsMove(s: State, s': State) {
    && s.clock <= s'.clock
    && (forall id :: id in s.runs ==>
          && id in s'.runs && s'.runs[id].submittedAt == s.runs[id].submittedAt
          && (s'.runs[id].state == Queued ==> s.runs[id].state == Queued))
    && (forall id :: id in s'.runs && id !in s.runs ==> s.clock <= s'.runs[id].submittedAt <= s'.clock)
  }

  /** What a process may write into a row. */
  lemma RowWritten(s: State, p: Pid, a: Action)
    requires p in s.procs && Can(s, p, a) && Act(s, p, a).row.Some?
    ensures var id, row := Subject(s.procs[p], a), Act(s, p, a).row.value;
      if a.Create? then id !in s.runs && row == Run(a.now, Queued, false)
      else id in s.runs && row.submittedAt == s.runs[id].submittedAt && row.state != Queued
  {
  }

  lemma StepMovesRuns(s: State, p: Pid, a: Action)
    requires p in s.procs && Can(s, p, a)
    ensures RunsMove(s, Apply(s, p, a, Act(s, p, a)))
  {
    if Act(s, p, a).row.Some? { RowWritten(s, p, a); }
    assert a.Create? ==> s.clock <= a.now;
    hide Act, Can, Subject;
  }

  lemma StepsMoveRuns(s: State, e: Event)
    requires Enabled(s, e)
    ensures RunsMove(s, After(s, e))
  {
    if e.Step? { StepMovesRuns(s, e.p, e.a); }
    hide Act, Apply;
  }

  /** Who is there after a step, and where. */
  lemma ProcsAfter(s: State, e: Event, q: Pid)
    requires Enabled(s, e) && q in After(s, e).procs
    ensures After(s, e).procs[q] ==
              if e.Step? && q == e.p then Act(s, e.p, e.a).proc else if q in s.procs then s.procs[q] else NEWBORN
  {
    hide Act;
  }

  /** The acquisitions after a step. */
  lemma AcquiredAfter(s: State, e: Event)
    requires Enabled(s, e)
    ensures After(s, e).acquired == s.acquired
         || (e.Step? && e.a == TryGpu && Act(s, e.p, TryGpu).history == Acquired && QueuedIn(s, s.procs[e.p].pc.id)
             && After(s, e).acquired == s.acquired + [TurnOf(s, s.procs[e.p].pc.id)])
  {
  }

  /** No queued run was submitted earlier than `t`. */
  ghost predicate NoEarlier(s: State, t: Turn) {
    forall id :: id in s.runs && QueuedIn(s, id) ==> t.submittedAt <= s.runs[id].submittedAt
  }

  /** What a waiting process has read stays true as far as its own run is still queued. */
  ghost predicate Informed(s: State, q: Process) {
    && (q.pc.Picked? || q.pc.Executing() ==> q.pc.id in s.runs)
    && (q.pc.Checked? && QueuedIn(s, q.pc.id) ==> q.pc.queued)
    && (q.pc.Looked? && q.pc.clear && QueuedIn(s, q.pc.id) ==> NoEarlier(s, TurnOf(s, q.pc.id)))
  }

  ghost predicate Past(s: State, t: Turn) {
    t.id in s.runs && TurnOf(s, t.id) == t && NoEarlier(s, t)
  }

  ghost predicate TurnsAgree(s: State) {
    && (forall id :: id in s.runs ==> s.runs[id].submittedAt <= s.clock)
    && (forall p :: p in s.procs ==> Informed(s, s.procs[p]))
    && (forall i :: 0 <= i < |s.acquired| ==> Past(s, s.acquired[i]))
    && (forall i, j :: 0 <= i < j < |s.acquired| ==> s.acquired[i].submittedAt <= s.acquired[j].submittedAt)
  }

  lemma NoEarlierStays(s: State, s': State, t: Turn)
    requires RunsMove(s, s') && NoEarlier(s, t) && t.submittedAt <= s.clock
    ensures NoEarlier(s', t)
  {
  }

  lemma InformedStays(s: State, s': State, q: Process)
    requires RunsMove(s, s') && TurnsAgree(s) && Informed(s, q)
    ensures Informed(s', q)
  {
    if q.pc.Looked? && q.pc.clear && QueuedIn(s', q.pc.id) {
      NoEarlierStays(s, s', TurnOf(s, q.pc.id));
    }
  }

  lemma LookerStaysInformed(s: State, p: Pid, a: Action)
    requires p in s.procs && Can(s, p, a) && TurnsAgree(s) && a.LookAhead?
    requires RunsMove(s, After(s, Step(p, a)))
    ensures Informed(After(s, Step(p, a)), Act(s, p, a).proc)
  {
    var t := TurnOf(s, s.procs[p].pc.id);
    if Act(s, p, a).proc.pc.clear && QueuedIn(After(s, Step(p, a)), t.id) {
      assert NoEarlier(s, t);
    }
  }

  lemma ActorStaysInformed(s: State, p: Pid, a: Action)
    requires p in s.procs && Can(s, p, a) && TurnsAgree(s)
    ensures Informed(After(s, Step(p, a)), Act(s, p, a).proc)
  {
    StepsMoveRuns(s, Step(p, a));
    if a.LookAhead? {
      LookerStaysInformed(s, p, a);
    } else if Act(s, p, a).proc.pc == s.procs[p].pc {
      assert Informed(s, s.procs[p]);
      InformedStays(s, After(s, Step(p, a)), s.procs[p]);
    } else {
      MoverStaysInformed(s, p, a);
    }
  }

  /** The run a process turns to is known, or is the one it was about. */
  lemma StaysAbout(s: State, p: Pid, a: Action)
    requires p in s.procs && Can(s, p, a)
    ensures var was, now := s.procs[p].pc, Act(s, p, a).proc.pc;
      now.Picked? || now.Executing() ==>
        a.Create? || now.id in s.runs || ((was.Picked? || was.Executing()) && now.id == was.id)
  {
  }

  /** A worker executes a run without an owner file, or the one it was executing. */
  lemma ServesOnly(s: State, p: Pid, a: Action)
    requires p in s.procs && Can(s, p, a) && Shape(s.procs[p])
    ensures var was, now := s.procs[p], Act(s, p, a).proc;
      now.serving && now.pc.Executing() ==> now.pc.id !in s.ownerFiles || (was.serving && was.pc.Executing() && now.pc.id == was.pc.id)
  {
  }

  lemma MoverStaysInformed(s: State, p: Pid, a: Action)
    requires p in s.procs && Can(s, p, a) && Informed(s, s.procs[p]) && !a.LookAhead?
    requires RunsMove(s, After(s, Step(p, a))) && Act(s, p, a).proc.pc != s.procs[p].pc
    ensures Informed(After(s, Step(p, a)), Act(s, p, a).proc)
  {
    MovesWhere(s, p, a);
    if a.Create? { assert Act(s, p, a).proc.pc.id in After(s, Step(p, a)).runs; }
  }

  /** Where a process goes when it moves without looking ahead. */
  lemma MovesWhere(s: State, p: Pid, a: Action)
    requires p in s.procs && Can(s, p, a) && Informed(s, s.procs[p]) && !a.LookAhead?
    requires Act(s, p, a).proc.pc != s.procs[p].pc
    ensures var pc := Act(s, p, a).proc.pc;
      && !pc.Looked?
      && (pc.Picked? || pc.Executing() ==> a.Create? || pc.id in s.runs)
      && (pc.Checked? ==> pc.id in s.runs && (pc.queued <==> s.runs[pc.id].state == Queued))
  {
    StaysAbout(s, p, a);
    ChecksNow(s, p, a);
    hide Act, Can;
  }

  lemma ChecksNow(s: State, p: Pid, a: Action)
    requires p in s.procs && Can(s, p, a) && !a.LookAhead? && Act(s, p, a).proc.pc != s.procs[p].pc
    ensures var pc := Act(s, p, a).proc.pc;
      !pc.Looked? && (pc.Checked? ==> pc.id in s.runs && (pc.queued <==> s.runs[pc.id].state == Queued))
  {
  }

  lemma AcquisitionIsPast(s: State, p: Pid)
    requires p in s.procs && Can(s, p, TryGpu) && TurnsAgree(s)
    requires Act(s, p, TryGpu).history == Acquired && QueuedIn(s, s.procs[p].pc.id)
    ensures Past(s, TurnOf(s, s.procs[p].pc.id))
    ensures forall i :: 0 <= i < |s.acquired| ==> s.acquired[i].submittedAt <= s.runs[s.procs[p].pc.id].submittedAt
  {
    assert Informed(s, s.procs[p]);
    forall i | 0 <= i < |s.acquired|
      ensures s.acquired[i].submittedAt <= s.runs[s.procs[p].pc.id].submittedAt
    {
      assert Past(s, s.acquired[i]);
    }
  }

  lemma {:induction false} TurnsKept(s: State, e: Event)
    requires TurnsAgree(s) && Enabled(s, e)
    ensures TurnsAgree(After(s, e))
  {
    var s' := After(s, e);
    StepsMoveRuns(s, e);
    AcquiredAfter(s, e);
    forall q | q in s'.procs ensures Informed(s', s'.procs[q]) {
      ProcsAfter(s, e, q);
      if e.Step? && q == e.p {
        ActorStaysInformed(s, e.p, e.a);
      } else if q in s.procs {
        InformedStays(s, s', s.procs[q]);
      }
    }
    if |s'.acquired| > |s.acquired| { AcquisitionIsPast(s, e.p); }
    hide After, Act, Can;
    forall i | 0 <= i < |s'.acquired| ensures Past(s', s'.acquired[i]) {
      assert Past(s, s'.acquired[i]);
      NoEarlierStays(s, s', s'.acquired[i]);
    }
  }

  // -- owner files -----------------------------------------------------------------

  predicate Claims(q: Process, id: RunId) {
    q.claim.Some? && q.claim.value.Owner? && q.claim.value.id == id
  }

  /** The run has an owner file, and no live terminal has claimed it. */
  ghost predicate Unclaimed(s: State, id: RunId) {
    id in s.ownerFiles && forall p :: p in s.procs ==> !Claims(s.procs[p], id)
  }

  ghost predicate Standing(s: State, q: Process) {
    && Shape(q)
    && (q.pc.Picked? || q.pc.Executing() ==> q.pc.id in s.runs)
    && (q.claim.Some? ==> q.claim.value.id in s.ownerFiles && s.ownerFiles[q.claim.value.id] == q.claim.value.version)
    && (q.serving && q.pc.Executing() ==> q.pc.id !in s.ownerFiles)
    && (q.probing.Some? && q.probing.value.Owner? ==>
          q.probing.value.id in s.ownerFiles && s.ownerFiles[q.probing.value.id] == q.probing.value.version)
  }

  ghost predicate Founded(s: State, f: Finding) {
    && (f != Nothing ==> Unclaimed(s, f.id))
    && (f.Confirmed? ==> f.id in s.runs && f.id !in s.trained)
  }

  ghost predicate OwnerSane(s: State, q: Process) {
    Standing(s, q) && Founded(s, q.finding)
  }

  ghost predicate OwnersAgree(s: State) {
    && (forall p :: p in s.procs ==> OwnerSane(s, s.procs[p]))
    && (forall id :: id in s.dropped ==> Unclaimed(s, id) && id in s.runs)
    && (forall id :: id in s.trained ==> id in s.runs && s.runs[id].state != Queued)
    && s.dropped !! s.trained
  }

  /** The run id is new: nothing has claimed it or inserted it. `new_run_id` does not check. */
  predicate NewId(s: State, e: Event) {
    match e
    case Enqueue(id, _) => id !in s.ownerFiles
    case Step(_, Claim(id)) => id !in s.runs && id !in s.ownerFiles
    case _ => true
  }

  lemma OwnerSaneStays(s: State, e: Event, q: Pid)
    requires OwnersAgree(s) && Enabled(s, e) && NewId(s, e) && q in s.procs
    requires e.Step? ==> e.p != q
    ensures OwnerSane(After(s, e), s.procs[q])
  {
    var r := s.procs[q];
    assert OwnerSane(s, r);
    StepsMoveRuns(s, e);
    if r.finding != Nothing { UnclaimedStays(s, e, r.finding.id); }
    if r.finding.Confirmed? { NobodyLaunches(s, e, r.finding.id); }
  }

  /** A run with an owner file that nobody claims is executed by nobody. */
  lemma NobodyLaunches(s: State, e: Event, id: RunId)
    requires OwnersAgree(s) && Enabled(s, e) && Unclaimed(s, id)
    ensures id in After(s, e).trained ==> id in s.trained
  {
    if e.Step? {
      assert OwnerSane(s, s.procs[e.p]);
    }
  }

  /** The prober holds the owner lock of the current file, so its owner has gone. */
  lemma ProbeFindsNoClaim(s: State, p: Pid)
    requires LocksAgree(s) && OwnersAgree(s) && p in s.procs
    requires s.procs[p].probing.Some? && s.procs[p].probing.value.Owner?
    ensures Unclaimed(s, s.procs[p].probing.value.id)
  {
    var l := s.procs[p].probing.value;
    assert Backed(s, p) && OwnerSane(s, s.procs[p]);
    forall q | q in s.procs ensures !Claims(s.procs[q], l.id) {
      assert OwnerSane(s, s.procs[q]);
      if s.procs[q].claim == Some(l) {
        assert Backed(s, q) && Holds(s.procs[q], l);
      }
    }
  }

  lemma ClaimAfter(s: State, p: Pid, a: Action)
    requires p in s.procs && Can(s, p, a)
    ensures var was, now := s.procs[p].claim, Act(s, p, a).proc.claim;
      now == None || (a.Claim? && now == Some(Owner(a.id, NextVersion(s, a.id)))) || (!a.Claim? && now == was)
  {
  }

  lemma UnclaimedStays(s: State, e: Event, id: RunId)
    requires Enabled(s, e) && NewId(s, e) && Unclaimed(s, id)
    ensures Unclaimed(After(s, e), id)
  {
    if e.Step? { ClaimAfter(s, e.p, e.a); }
    hide Act;
  }

  lemma ProbingAfter(s: State, p: Pid, a: Action)
    requires p in s.procs && Can(s, p, a)
    ensures var was, now := s.procs[p].probing, Act(s, p, a).proc.probing;
      now == None || now == was || (a.BeginProbe? && now == Some(a.lock))
  {
  }

  lemma ActorStands(s: State, p: Pid, a: Action)
    requires p in s.procs && Can(s, p, a) && Standing(s, s.procs[p])
    ensures var q, s' := Act(s, p, a).proc, After(s, Step(p, a));
      && (q.pc.Picked? || q.pc.Executing() ==> q.pc.id in s'.runs)
      && (q.serving && q.pc.Executing() ==> q.pc.id !in s.ownerFiles)
  {
    StaysAbout(s, p, a);
    ServesOnly(s, p, a);
    StepsMoveRuns(s, Step(p, a));
    if a.Create? { assert Act(s, p, a).proc.pc.id in After(s, Step(p, a)).runs; }
    hide Act, Can, After, Shape;
  }

  lemma ActorKeepsStanding(s: State, p: Pid, a: Action)
    requires p in s.procs && Can(s, p, a) && NewId(s, Step(p, a)) && Standing(s, s.procs[p])
    requires Honest(s, p, Act(s, p, a))
    ensures Standing(After(s, Step(p, a)), Act(s, p, a).proc)
  {
    ClaimAfter(s, p, a);
    ProbingAfter(s, p, a);
    ActorStands(s, p, a);
    hide Act;
  }

  lemma FindingAfter(s: State, p: Pid, a: Action)
    requires p in s.procs && Can(s, p, a)
    ensures var q, f := s.procs[p], Act(s, p, a).proc.finding;
      if a.EndProbe? && q.probing.value.Owner? then f == Gone(q.probing.value.id)
      else f == Nothing || f == q.finding || (q.finding.Gone? && f == Confirmed(q.finding.id) && QueuedIn(s, f.id))
  {
  }

  lemma ActorKeepsFindings(s: State, p: Pid, a: Action)
    requires LocksAgree(s) && OwnersAgree(s) && p in s.procs && Can(s, p, a) && NewId(s, Step(p, a))
    ensures Founded(After(s, Step(p, a)), Act(s, p, a).proc.finding)
  {
    var q, f := s.procs[p], Act(s, p, a).proc.finding;
    var e := Step(p, a);
    assert OwnerSane(s, q);
    StepsMoveRuns(s, e);
    FindingAfter(s, p, a);
    if a.EndProbe? && q.probing.value.Owner? { ProbeFindsNoClaim(s, p); }
    if f != Nothing {
      UnclaimedStays(s, e, f.id);
      NobodyLaunches(s, e, f.id);
    }
    hide After, Act, Can, Shape;
  }

  lemma ActorStaysOwnerSane(s: State, p: Pid, a: Action)
    requires LocksAgree(s) && OwnersAgree(s) && p in s.procs && Can(s, p, a) && NewId(s, Step(p, a))
    ensures OwnerSane(After(s, Step(p, a)), Act(s, p, a).proc)
  {
    assert OwnerSane(s, s.procs[p]);
    assert Backed(s, p);
    if a.Claim? { VersionIsNew(s, a.id); }
    ActIsHonest(s, p, a);
    ActorKeepsStanding(s, p, a);
    ActorKeepsFindings(s, p, a);
  }

  lemma {:induction false} OwnersKept(s: State, e: Event)
    requires LocksAgree(s) && OwnersAgree(s) && Enabled(s, e) && NewId(s, e)
    ensures OwnersAgree(After(s, e))
  {
    var s' := After(s, e);
    forall q | q in s'.procs ensures OwnerSane(s', s'.procs[q]) {
      ProcsAfter(s, e, q);
      if e.Step? && q == e.p {
        ActorStaysOwnerSane(s, e.p, e.a);
      } else if q in s.procs {
        OwnerSaneStays(s, e, q);
      }
    }
    forall id | id in s'.dropped ensures Unclaimed(s', id) && id in s'.runs && id !in s'.trained {
      DroppedStaysUntrained(s, e, id);
    }
    TrainedStayUnqueued(s, e);
    hide After, Act, Can;
  }

  lemma TrainedAfter(s: State, e: Event)
    requires Enabled(s, e)
    ensures var s' := After(s, e);
      s'.trained == s.trained
      || (e.Step? && e.a == Launch && var id := s.procs[e.p].pc.id;
          s'.trained == s.trained + {id} && id in s'.runs && s'.runs[id].state == Running)
  {
  }

  lemma TrainedStayUnqueued(s: State, e: Event)
    requires OwnersAgree(s) && Enabled(s, e)
    ensures forall id :: id in After(s, e).trained ==> id in After(s, e).runs && After(s, e).runs[id].state != Queued
  {
    StepsMoveRuns(s, e);
    TrainedAfter(s, e);
    hide Act, Apply, After, Can;
  }

  lemma DroppedStaysUntrained(s: State, e: Event, id: RunId)
    requires OwnersAgree(s) && Enabled(s, e) && NewId(s, e) && id in After(s, e).dropped
    ensures Unclaimed(After(s, e), id) && id in After(s, e).runs && id !in After(s, e).trained
  {
    if e.Step? { assert OwnerSane(s, s.procs[e.p]); }
    UnclaimedStays(s, e, id);
    NobodyLaunches(s, e, id);
  }
}
