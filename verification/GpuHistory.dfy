/** Whole histories of the GPU protocol: what holds after any interleaving of
    submitters, waiters, workers, probes, cancels and crashes. */
module GpuHistory {
  import opened Wrappers
  import opened GpuQueue

  ghost predicate Possible(events: seq<Event>)
    decreases |events|, 0
  {
    events == [] || (Possible(events[..|events| - 1]) && Enabled(Reached(events[..|events| - 1]), events[|events| - 1]))
  }

  ghost function Reached(events: seq<Event>): State
    requires Possible(events)
    decreases |events|, 1
  {
    if events == [] then INITIAL else After(Reached(events[..|events| - 1]), events[|events| - 1])
  }

  /** Every run id was new when it was first used. */
  ghost predicate NewIds(events: seq<Event>)
    requires Possible(events)
    decreases |events|
  {
    events == [] ||
    (NewIds(events[..|events| - 1]) && NewId(Reached(events[..|events| - 1]), events[|events| - 1]))
  }

  lemma {:induction false} Always(events: seq<Event>)
    requires Possible(events)
    ensures LocksAgree(Reached(events)) && TurnsAgree(Reached(events))
    ensures NewIds(events) ==> OwnersAgree(Reached(events))
    decreases |events|
  {
    if events != [] {
      var before, e := events[..|events| - 1], events[|events| - 1];
      Always(before);
      LocksKept(Reached(before), e);
      TurnsKept(Reached(before), e);
      if NewIds(events) { OwnersKept(Reached(before), e); }
    }
  }

  // -- one GPU, one run ------------------------------------------------------------

  /** At most one live executor stands between taking and releasing the GPU, and it is the lock's
      holder: a probe never stands in for it. */
  lemma OneExecutorOnTheGpu(events: seq<Event>, p: Pid, q: Pid)
    requires Possible(events)
    requires p in Reached(events).procs && Reached(events).procs[p].pc.Critical()
    requires q in Reached(events).procs && Reached(events).procs[q].pc.Critical()
    ensures p == q
    ensures Gpu in Reached(events).locks && Reached(events).locks[Gpu] == Holder(p, false)
  {
    Always(events);
    var s := Reached(events);
    assert Backed(s, p) && Backed(s, q);
    assert Holds(s.procs[p], Gpu) && Holds(s.procs[q], Gpu);
  }

  /** A crash never leaves the GPU locked: a held lock always has a live holder that is on the GPU or
      is in the middle of testing it. */
  lemma {:induction false} HeldLocksHaveLiveHolders(events: seq<Event>)
    requires Possible(events) && Gpu in Reached(events).locks
    ensures var h := Reached(events).locks[Gpu];
      && h.pid in Reached(events).procs
      && if h.probe then Reached(events).procs[h.pid].probing == Some(Gpu)
         else Reached(events).procs[h.pid].pc.Critical()
  {
    Always(events);
    assert Justified(Reached(events), Gpu);
  }

  /** Only one process serves the queue. */
  lemma OneWorker(events: seq<Event>, p: Pid, q: Pid)
    requires Possible(events)
    requires p in Reached(events).procs && Reached(events).procs[p].serving
    requires q in Reached(events).procs && Reached(events).procs[q].serving
    ensures p == q
  {
    Always(events);
    var s := Reached(events);
    assert Backed(s, p) && Backed(s, q);
    assert Holds(s.procs[p], Worker) && Holds(s.procs[q], Worker);
  }

  // -- first submitted, first run --------------------------------------------------

  /** No two rows carry the same timestamp. */
  ghost predicate DistinctStamps(s: State) {
    forall a, b :: a in s.runs && b in s.runs && a != b ==> s.runs[a].submittedAt != s.runs[b].submittedAt
  }

  ghost predicate Takes(s: State, p: Pid) {
    && p in s.procs && Can(s, p, TryGpu)
    && Act(s, p, TryGpu).history == Acquired
    && QueuedIn(s, s.procs[p].pc.id)
  }

  /** When a queued run takes the GPU, no run submitted earlier is still queued, although other
      processes may have submitted, cancelled and crashed since it looked; with distinct stamps,
      nothing at all is ahead of it. */
  lemma {:induction false} TheOldestTakesTheGpu(events: seq<Event>, p: Pid)
    requires Possible(events) && Takes(Reached(events), p)
    ensures var s := Reached(events); var t := TurnOf(s, s.procs[p].pc.id);
      && (forall id :: id in s.runs && QueuedIn(s, id) ==> t.submittedAt <= s.runs[id].submittedAt)
      && (DistinctStamps(s) ==> NoneAhead(s, t))
  {
    Always(events);
    AcquisitionIsPast(Reached(events), p);
  }

  /** Queued runs take the GPU in submission order; with distinct stamps, never backwards in
      the full (submitted_at, id) order. */
  lemma AcquisitionsGoForward(events: seq<Event>)
    requires Possible(events)
    ensures var s := Reached(events);
      && (forall i, j :: 0 <= i < j < |s.acquired| ==> s.acquired[i].submittedAt <= s.acquired[j].submittedAt)
      && (DistinctStamps(s) ==> forall i, j :: 0 <= i < j < |s.acquired| ==> !Before(s.acquired[j], s.acquired[i]))
  {
    Always(events);
    var s := Reached(events);
    if DistinctStamps(s) {
      forall i, j | 0 <= i < j < |s.acquired| ensures !Before(s.acquired[j], s.acquired[i]) {
        assert Past(s, s.acquired[i]) && Past(s, s.acquired[j]);
      }
    }
  }

  // -- who runs a queued run -------------------------------------------------------

  /** A run a terminal has claimed is never executed by a queue worker, before, during or after its wait. */
  lemma {:induction false} ClaimedRunsAreNotServed(events: seq<Event>, w: Pid, id: RunId)
    requires Possible(events) && NewIds(events)
    requires w in Reached(events).procs && Reached(events).procs[w].serving
    requires Reached(events).procs[w].pc.Executing() && Reached(events).procs[w].pc.id == id
    ensures id !in Reached(events).ownerFiles
    ensures forall p, v :: p in Reached(events).procs ==> Reached(events).procs[p].claim != Some(Owner(id, v))
  {
    Always(events);
    var s := Reached(events);
    assert OwnerSane(s, s.procs[w]);
    forall p, v | p in s.procs ensures s.procs[p].claim != Some(Owner(id, v)) {
      assert OwnerSane(s, s.procs[p]);
    }
  }

  /** `owner_state` concludes "gone" only about a run no live terminal has claimed, probes or not. */
  lemma {:induction false} GoneMeansGone(events: seq<Event>, p: Pid, id: RunId)
    requires Possible(events) && NewIds(events)
    requires p in Reached(events).procs && Reached(events).procs[p].finding == Gone(id)
    ensures forall q, v :: q in Reached(events).procs ==> Reached(events).procs[q].claim != Some(Owner(id, v))
  {
    Always(events);
    assert OwnerSane(Reached(events), Reached(events).procs[p]);
    assert forall q :: q in Reached(events).procs ==> !Claims(Reached(events).procs[q], id);
  }

  /** A run `drop_abandoned` cancelled never had, and never gets, its trainer started. */
  lemma DroppedRunsNeverTrain(events: seq<Event>, id: RunId)
    requires Possible(events) && NewIds(events)
    ensures id in Reached(events).dropped ==> id !in Reached(events).trained
  {
    Always(events);
  }

  /** A live executor of a run is the only one. */
  lemma OneExecutorPerRun(events: seq<Event>, p: Pid, q: Pid)
    requires Possible(events) && NewIds(events)
    requires p in Reached(events).procs && Reached(events).procs[p].pc.Executing()
    requires q in Reached(events).procs && Reached(events).procs[q].pc.Executing()
    requires Reached(events).procs[p].pc.id == Reached(events).procs[q].pc.id
    ensures p == q
  {
    Always(events);
    var s := Reached(events);
    assert OwnerSane(s, s.procs[p]) && OwnerSane(s, s.procs[q]);
    if s.procs[p].serving {
      OneWorker(events, p, q);
    } else {
      var l := s.procs[p].claim.value;
      assert Backed(s, p) && Backed(s, q);
      assert Holds(s.procs[p], l) && Holds(s.procs[q], l);
    }
  }

  // -- cancelling ------------------------------------------------------------------

  /** Somebody asked for the run to be cancelled before the last look at its mark. */
  ghost predicate CancelledInTime(s: State, id: RunId) {
    id in s.runs && s.runs[id].marked && id !in s.trained && forall p :: p in s.procs ==> s.procs[p].pc != Launching(id)
  }

  lemma StaysCancelled(s: State, e: Event, id: RunId)
    requires Enabled(s, e) && CancelledInTime(s, id)
    ensures CancelledInTime(After(s, e), id)
  {
    if e.Step? {
      MarkIsSeen(s, e.p, e.a);
      hide Act, Can;
    }
  }

  /** No step takes a mark away, or starts a trainer over one that was there at the last look. */
  lemma MarkIsSeen(s: State, p: Pid, a: Action)
    requires p in s.procs && Can(s, p, a)
    ensures var id, o := Subject(s.procs[p], a), Act(s, p, a);
      && (o.row.Some? ==> (a.Create? && id !in s.runs) || (id in s.runs && (s.runs[id].marked ==> o.row.value.marked)))
      && (o.proc.pc.Launching? ==> o.proc.pc == s.procs[p].pc || (o.proc.pc.id in s.runs && !s.runs[o.proc.pc.id].marked))
      && (o.history == Trained ==> s.procs[p].pc == Launching(id))
  {
  }

  /** A run that somebody cancels while it is queued, waiting, taking the GPU or staging never gets its
      trainer started, whatever else happens. */
  lemma {:induction false} CancelledInTimeNeverTrains(events: seq<Event>, n: nat, id: RunId)
    requires Possible(events) && 0 < n <= |events| && events[n - 1] == Cancel(id) && Possible(events[..n])
    requires id !in Reached(events[..n]).trained
    requires forall p :: p in Reached(events[..n]).procs ==> Reached(events[..n]).procs[p].pc != Launching(id)
    ensures CancelledInTime(Reached(events), id) && id !in Reached(events).trained
    decreases |events|
  {
    var before, e := events[..|events| - 1], events[|events| - 1];
    if n == |events| {
      assert events[..n] == events;
    } else {
      assert before[..n] == events[..n];
      CancelledInTimeNeverTrains(before, n, id);
      StaysCancelled(Reached(before), e, id);
    }
  }

  /** An executor that finds the mark while it waits leaves the queue without the GPU, and its row says so. */
  lemma WaitersSeeTheMark(events: seq<Event>, p: Pid, id: RunId) returns (longer: seq<Event>)
    requires Possible(events) && p in Reached(events).procs && Reached(events).procs[p].pc == Waiting(id)
    requires id in Reached(events).runs && Reached(events).runs[id].marked && !Reached(events).runs[id].state.Terminal()
    ensures longer == events + [Step(p, Check), Step(p, CancelSelf)] && Possible(longer)
    ensures var s := Reached(events);
      Reached(longer) == At(s, p, Left(id)).(runs := s.runs[id := s.runs[id].(state := Cancelled)])
  {
    longer := Then(events, Step(p, Check));
    assert Reached(longer) == At(Reached(events), p, Cancelling(id));
    longer := Then(longer, Step(p, CancelSelf));
    assert longer == events + [Step(p, Check), Step(p, CancelSelf)];
  }

  /** What can become of a row: it stays, with its time of submission and any mark; a mark comes from
      cancelling or dropping; and its state changes only as the event says, on the row the event is about. */
  lemma RowsChange(s: State, e: Event, id: RunId)
    requires Enabled(s, e) && id in s.runs
    ensures id in After(s, e).runs
    ensures var r, r' := s.runs[id], After(s, e).runs[id];
      && r'.submittedAt == r.submittedAt
      && (r'.marked <==> r.marked || e == Cancel(id) || (e.Step? && e.a.DropGone? && s.procs[e.p].finding == Confirmed(id)))
      && r'.state == Becomes(s, e, id)
  {
    if e.Step? {
      StepTells(s, e.p, e.a);
      hide Act, Can, Told;
    }
  }

  lemma StepTells(s: State, p: Pid, a: Action)
    requires p in s.procs && Can(s, p, a)
    ensures var q, x, o := s.procs[p], Subject(s.procs[p], a), Act(s, p, a);
      && (a.Create? ==> o.row.Some? && x !in s.runs)
      && (a.DropGone? ==> q.finding == Confirmed(x) && x in s.runs && o.row == Some(s.runs[x].(marked := true, state := Cancelled)))
      && (!a.Create? && !a.DropGone? && o.row.Some? ==> !q.pc.Idle? && !q.pc.Serving? && q.pc.id == x && x in s.runs)
      && (!a.Create? && !a.DropGone? && !q.pc.Idle? && !q.pc.Serving? && q.pc.id in s.runs ==>
            var r := s.runs[q.pc.id]; if o.row.Some? then o.row.value == r.(state := Told(r, a)) else Told(r, a) == r.state)
  {
  }

  function Becomes(s: State, e: Event, id: RunId): RunState
    requires id in s.runs && (e.Step? ==> e.p in s.procs)
  {
    var r := s.runs[id];
    if e == Cancel(id) && r.state == Queued then Cancelled
    else if e == Recover(id) then Failed
    else if e.Step? && e.a.DropGone? && s.procs[e.p].finding == Confirmed(id) then Cancelled
    else if e.Step? && !s.procs[e.p].pc.Idle? && !s.procs[e.p].pc.Serving? && s.procs[e.p].pc.id == id then Told(r, e.a)
    else r.state
  }

  /** The state an executor's step leaves its row in. */
  function Told(r: Run, a: Action): RunState {
    match a
    case BeginStaging => Staging
    case Launch => Running
    case Exit(state) => state
    case GiveUp(state) => if r.state == Cancelled then Cancelled else state
    case CheckMark => if r.marked then Cancelled else r.state
    case CancelSelf => Cancelled
    case MarkFailed => Failed
    case _ => r.state
  }

  /** A run can be cancelled until it has ended, and is recovered only after it had begun; a worker marks
      as failed only one that has not ended. */
  lemma WhenRowsMayChange(s: State, p: Pid, id: RunId)
    ensures Enabled(s, Cancel(id)) <==> id in s.runs && s.runs[id].state in {Queued, Staging, Running, Publishing}
    ensures Enabled(s, Recover(id)) <==> id in s.runs && s.runs[id].state in {Staging, Running, Publishing}
    ensures p in s.procs && s.procs[p].pc == Left(id) ==>
      (Enabled(s, Step(p, MarkFailed)) <==> id in s.runs && s.runs[id].state in {Queued, Staging, Running, Publishing})
  {
  }

  /** A run that has ended is not executed again: its executor turns away at once, or when it next looks. */
  lemma EndedRunsAreLeft(s: State, p: Pid, id: RunId)
    requires p in s.procs && id in s.runs && s.runs[id].state in {Succeeded, Failed, Cancelled}
    ensures s.procs[p].pc == Entering(id) ==> Enabled(s, Step(p, Enter)) && After(s, Step(p, Enter)) == At(s, p, Left(id))
    ensures s.procs[p].pc == Waiting(id) ==> Enabled(s, Step(p, Check)) && After(s, Step(p, Check)) == At(s, p, Left(id))
  {
  }

  /** An idle process begins to serve exactly when nobody holds the worker lock, and then holds it. */
  lemma ServesWhenNobodyDoes(s: State, p: Pid)
    requires p in s.procs && s.procs[p].pc == Idle
    ensures Enabled(s, Step(p, Serve))
    ensures After(s, Step(p, Serve)) == if Worker in s.locks then s
      else s.(procs := s.procs[p := s.procs[p].(pc := Serving, serving := true)], locks := s.locks[Worker := Holder(p, false)])
  {
  }

  // -- one turn, from the queue to the end -------------------------------------------

  /** A worker executes a queued run exactly when nobody owns it. */
  lemma WorkersExamine(events: seq<Event>, w: Pid, id: RunId) returns (longer: seq<Event>)
    requires Possible(events) && w in Reached(events).procs && Reached(events).procs[w].pc == Serving && QueuedIn(Reached(events), id)
    ensures longer == events + [Step(w, ListQueue(id)), Step(w, Examine)] && Possible(longer)
    ensures var s := Reached(events); Reached(longer) == At(s, w, if id in s.ownerFiles then Serving else Entering(id))
  {
    longer := Then(events, Step(w, ListQueue(id)));
    assert Reached(longer) == At(Reached(events), w, Picked(id));
    longer := Then(longer, Step(w, Examine));
    assert longer == events + [Step(w, ListQueue(id)), Step(w, Examine)];
  }

  lemma Joins(s: State, p: Pid, id: RunId)
    requires p in s.procs && s.procs[p].pc == Entering(id) && id in s.runs && !s.runs[id].state.Terminal()
    ensures Enabled(s, Step(p, Enter)) && After(s, Step(p, Enter)) == At(s, p, Waiting(id))
  {
  }

  lemma ReadsItsRow(s: State, p: Pid, id: RunId)
    requires p in s.procs && s.procs[p].pc == Waiting(id) && id in s.runs && !s.runs[id].state.Terminal() && !s.runs[id].marked
    ensures Enabled(s, Step(p, Check)) && After(s, Step(p, Check)) == At(s, p, Checked(id, s.runs[id].state == Queued))
  {
  }

  lemma SeesTheWayClear(s: State, p: Pid, id: RunId)
    requires p in s.procs && s.procs[p].pc == Checked(id, true) && id in s.runs
    requires forall r :: r in s.runs && QueuedIn(s, r) ==> !Before(TurnOf(s, r), TurnOf(s, id))
    ensures Enabled(s, Step(p, LookAhead)) && After(s, Step(p, LookAhead)) == At(s, p, Looked(id, true))
  {
  }

  lemma TakesTheGpu(s: State, p: Pid, id: RunId)
    requires p in s.procs && s.procs[p].pc == Looked(id, true) && QueuedIn(s, id) && Gpu !in s.locks
    ensures Enabled(s, Step(p, TryGpu))
    ensures After(s, Step(p, TryGpu))
         == At(s, p, Holding(id)).(locks := s.locks[Gpu := Holder(p, false)], acquired := s.acquired + [Turn(s.runs[id].submittedAt, id)])
  {
  }

  lemma ReadsTheQueue(events: seq<Event>, p: Pid, id: RunId) returns (longer: seq<Event>)
    requires Possible(events) && p in Reached(events).procs && Reached(events).procs[p].pc == Entering(id) && QueuedIn(Reached(events), id)
    requires !Reached(events).runs[id].marked
    requires forall r :: r in Reached(events).runs && QueuedIn(Reached(events), r) ==> !Before(TurnOf(Reached(events), r), TurnOf(Reached(events), id))
    ensures longer == events + [Step(p, Enter), Step(p, Check), Step(p, LookAhead)] && Possible(longer)
    ensures Reached(longer) == At(Reached(events), p, Looked(id, true)) && (NewIds(events) ==> NewIds(longer))
  {
    hide After, Enabled, Possible, Reached, NewIds;
    Joins(Reached(events), p, id);
    longer := Then(events, Step(p, Enter));
    ReadsItsRow(Reached(longer), p, id);
    longer := Then(longer, Step(p, Check));
    SeesTheWayClear(Reached(longer), p, id);
    longer := Then(longer, Step(p, LookAhead));
    assert longer == events + [Step(p, Enter), Step(p, Check), Step(p, LookAhead)];
  }

  /** With nobody ahead, no mark and the GPU free, an executor takes the GPU in its turn. */
  lemma TakesItsTurn(events: seq<Event>, p: Pid, id: RunId) returns (longer: seq<Event>)
    requires Possible(events) && p in Reached(events).procs && Reached(events).procs[p].pc == Entering(id) && QueuedIn(Reached(events), id)
    requires !Reached(events).runs[id].marked && Gpu !in Reached(events).locks
    requires forall r :: r in Reached(events).runs && QueuedIn(Reached(events), r) ==> !Before(TurnOf(Reached(events), r), TurnOf(Reached(events), id))
    ensures longer == events + [Step(p, Enter), Step(p, Check), Step(p, LookAhead), Step(p, TryGpu)] && Possible(longer)
    ensures var s := Reached(events);
      Reached(longer) == At(s, p, Holding(id)).(locks := s.locks[Gpu := Holder(p, false)],
                                                acquired := s.acquired + [Turn(s.runs[id].submittedAt, id)])
    ensures NewIds(events) ==> NewIds(longer)
  {
    hide After, Enabled, Possible, Reached, NewIds;
    var s := Reached(events);
    longer := ReadsTheQueue(events, p, id);
    TakesTheGpu(Reached(longer), p, id);
    longer := Then(longer, Step(p, TryGpu));
    assert longer == events + [Step(p, Enter), Step(p, Check), Step(p, LookAhead), Step(p, TryGpu)];
  }

  ghost function InState(s: State, p: Pid, pc: Pc, id: RunId, state: RunState): State
    requires p in s.procs && id in s.runs
  {
    At(s, p, pc).(runs := s.runs[id := s.runs[id].(state := state)])
  }

  lemma Stages(s: State, p: Pid, id: RunId)
    requires p in s.procs && s.procs[p].pc == Holding(id) && id in s.runs
    ensures Enabled(s, Step(p, BeginStaging)) && After(s, Step(p, BeginStaging)) == InState(s, p, Staged(id), id, Staging)
  {
  }

  lemma FindsNoMark(s: State, p: Pid, id: RunId)
    requires p in s.procs && s.procs[p].pc == Staged(id) && id in s.runs && !s.runs[id].marked
    ensures Enabled(s, Step(p, CheckMark)) && After(s, Step(p, CheckMark)) == At(s, p, Launching(id))
  {
  }

  lemma Launches(s: State, p: Pid, id: RunId)
    requires p in s.procs && s.procs[p].pc == Launching(id) && id in s.runs
    ensures Enabled(s, Step(p, Launch)) && After(s, Step(p, Launch)) == InState(s, p, Training(id), id, Running).(trained := s.trained + {id})
  {
  }

  /** From the GPU to the start of its trainer, row and executor in step. */
  lemma StartsItsTrainer(events: seq<Event>, p: Pid, id: RunId) returns (longer: seq<Event>)
    requires Possible(events) && p in Reached(events).procs && Reached(events).procs[p].pc == Holding(id)
    requires id in Reached(events).runs && !Reached(events).runs[id].marked
    ensures longer == events + [Step(p, BeginStaging), Step(p, CheckMark), Step(p, Launch)] && Possible(longer)
    ensures var s := Reached(events); Reached(longer) == InState(s, p, Training(id), id, Running).(trained := s.trained + {id})
    ensures Possible(longer[..|events| + 2]) && Reached(longer[..|events| + 2]) == InState(Reached(events), p, Launching(id), id, Staging)
  {
    hide After, Enabled, Possible, Reached;
    Stages(Reached(events), p, id);
    longer := Then(events, Step(p, BeginStaging));
    FindsNoMark(Reached(longer), p, id);
    longer := Then(longer, Step(p, CheckMark));
    var staged := longer;
    Launches(Reached(longer), p, id);
    longer := Then(longer, Step(p, Launch));
    assert longer == events + [Step(p, BeginStaging), Step(p, CheckMark), Step(p, Launch)] && longer[..|events| + 2] == staged;
  }

  lemma Exits(s: State, p: Pid, id: RunId, state: RunState)
    requires p in s.procs && s.procs[p].pc == Training(id) && id in s.runs && state.Terminal()
    ensures Enabled(s, Step(p, Exit(state))) && After(s, Step(p, Exit(state))) == InState(s, p, Leaving(id), id, state)
  {
  }

  lemma GivesTheGpuBack(s: State, p: Pid, id: RunId)
    requires p in s.procs && s.procs[p].pc == Leaving(id)
    ensures Enabled(s, Step(p, ReleaseGpu)) && After(s, Step(p, ReleaseGpu)) == At(s, p, Left(id)).(locks := s.locks - {Gpu})
  {
  }

  /** A worker goes on serving; a terminal unlocks its owner file and is done. */
  lemma Returns(s: State, p: Pid, id: RunId)
    requires p in s.procs && s.procs[p].pc == Left(id) && (s.procs[p].serving || s.procs[p].claim.Some?)
    ensures Enabled(s, Step(p, Return))
    ensures After(s, Step(p, Return))
         == if s.procs[p].serving then At(s, p, Serving)
            else s.(procs := s.procs[p := s.procs[p].(pc := Idle, claim := None)], locks := s.locks - {s.procs[p].claim.value})
  {
  }

  lemma ServesOrClaims(events: seq<Event>, p: Pid)
    requires Possible(events) && p in Reached(events).procs && Reached(events).procs[p].pc.Executing()
    ensures Reached(events).procs[p].serving || Reached(events).procs[p].claim.Some?
  {
    Always(events);
    assert Backed(Reached(events), p);
  }

  ghost function LeftWith(s: State, p: Pid, id: RunId, state: RunState): State
    requires p in s.procs && id in s.runs
  {
    InState(s, p, Left(id), id, state).(locks := s.locks - {Gpu})
  }

  ghost function Ended(s: State, p: Pid, id: RunId, state: RunState): State
    requires p in s.procs && id in s.runs && (s.procs[p].serving || s.procs[p].claim.Some?)
  {
    var q := s.procs[p];
    s.(runs := s.runs[id := s.runs[id].(state := state)],
       procs := s.procs[p := if q.serving then q.(pc := Serving) else q.(pc := Idle, claim := None)],
       locks := if q.serving then s.locks - {Gpu} else s.locks - {Gpu} - {q.claim.value})
  }

  lemma LeftReturns(s: State, p: Pid, id: RunId, state: RunState)
    requires p in s.procs && id in s.runs && (s.procs[p].serving || s.procs[p].claim.Some?)
    ensures Enabled(LeftWith(s, p, id, state), Step(p, Return))
    ensures After(LeftWith(s, p, id, state), Step(p, Return)) == Ended(s, p, id, state)
  {
    hide After, Enabled;
    Returns(LeftWith(s, p, id, state), p, id);
  }

  lemma ExitsAndGivesBack(events: seq<Event>, p: Pid, id: RunId, state: RunState) returns (longer: seq<Event>)
    requires Possible(events) && p in Reached(events).procs && Reached(events).procs[p].pc == Training(id)
    requires id in Reached(events).runs && state.Terminal()
    ensures longer == events + [Step(p, Exit(state)), Step(p, ReleaseGpu)] && Possible(longer)
    ensures Reached(longer) == LeftWith(Reached(events), p, id, state)
  {
    hide After, Enabled, Possible, Reached;
    Exits(Reached(events), p, id, state);
    longer := Then(events, Step(p, Exit(state)));
    GivesTheGpuBack(Reached(longer), p, id);
    longer := Then(longer, Step(p, ReleaseGpu));
    assert longer == events + [Step(p, Exit(state)), Step(p, ReleaseGpu)];
  }

  /** And to the end: the row says how it ended, the GPU and the owner file are given back, and the
      process is where it came from. */
  lemma EndsItsTurn(events: seq<Event>, p: Pid, id: RunId, state: RunState) returns (longer: seq<Event>)
    requires Possible(events) && p in Reached(events).procs && Reached(events).procs[p].pc == Training(id)
    requires id in Reached(events).runs && state.Terminal()
    ensures longer == events + [Step(p, Exit(state)), Step(p, ReleaseGpu), Step(p, Return)] && Possible(longer)
    ensures Reached(events).procs[p].serving || Reached(events).procs[p].claim.Some?
    ensures Reached(longer) == Ended(Reached(events), p, id, state)
  {
    ServesOrClaims(events, p);
    hide *;
    longer := ExitsAndGivesBack(events, p, id, state);
    var s := Reached(events);
    assert Reached(longer) == LeftWith(s, p, id, state);
    LeftReturns(s, p, id, state);
    longer := Then(longer, Step(p, Return));
    assert longer == events + [Step(p, Exit(state)), Step(p, ReleaseGpu), Step(p, Return)];
  }

  // -- where the guarantees stop ---------------------------------------------------

  /** One more step of a possible history. */
  lemma Then(events: seq<Event>, e: Event) returns (longer: seq<Event>)
    requires Possible(events) && Enabled(Reached(events), e)
    ensures longer == events + [e] && Possible(longer)
    ensures Reached(longer) == After(Reached(events), e)
    ensures NewIds(longer) <==> NewIds(events) && NewId(Reached(events), e)
  {
    longer := events + [e];
    assert longer[..|longer| - 1] == events;
  }

  ghost function Terminal(pc: Pc, id: RunId): Process {
    Process(pc, false, Some(Owner(id, 0)), None, Nothing)
  }

  ghost function At(s: State, p: Pid, pc: Pc): State
    requires p in s.procs
  {
    s.(procs := s.procs[p := s.procs[p].(pc := pc)])
  }

  ghost function Alone(pc: Pc, id: RunId, now: int): State {
    State(now, map[id := Run(now, Queued, false)], map[id := 0], map[Owner(id, 0) := Holder(0, false)],
          map[0 := Terminal(pc, id)], [], {}, {})
  }

  /** The terminal with the larger id submits. */
  lemma LargerIdSubmits(id: RunId, now: int) returns (events: seq<Event>)
    requires 0 <= now
    ensures Possible(events) && NewIds(events) && Reached(events) == Alone(Entering(id), id, now)
  {
    events := Then([], Spawn(0));
    events := Then(events, Step(0, Claim(id)));
    events := Then(events, Step(0, Create(now)));
    assert Reached(events).runs == map[id := Run(now, Queued, false)];
    assert Reached(events).procs == map[0 := Terminal(Entering(id), id)];
  }

  /** It sees nobody ahead. */
  lemma LargerIdLooks(id: RunId, now: int) returns (events: seq<Event>)
    requires 0 <= now
    ensures Possible(events) && NewIds(events) && Reached(events) == Alone(Looked(id, true), id, now)
  {
    events := LargerIdSubmits(id, now);
    events := ReadsTheQueue(events, 0, id);
  }

  lemma SmallerIdClaims(first: RunId, second: RunId, now: int) returns (events: seq<Event>)
    requires first < second && 0 <= now
    ensures Possible(events) && NewIds(events)
    ensures var s := Reached(events);
      && s.clock == now && s.acquired == [] && s.runs == map[second := Run(now, Queued, false)]
      && s.locks == map[Owner(second, 0) := Holder(0, false), Owner(first, 0) := Holder(1, false)]
      && s.procs == map[0 := Terminal(Looked(second, true), second), 1 := Terminal(Claimed(first), first)]
  {
    events := LargerIdLooks(second, now);
    events := Then(events, Spawn(1));
    events := Then(events, Step(1, Claim(first)));
  }

  /** Then the one with the smaller id submits, with the same timestamp. */
  lemma SmallerIdSubmits(first: RunId, second: RunId, now: int) returns (events: seq<Event>)
    requires first < second && 0 <= now
    ensures Possible(events) && NewIds(events)
    ensures var s := Reached(events);
      && s.clock == now && s.acquired == []
      && s.runs == map[second := Run(now, Queued, false), first := Run(now, Queued, false)]
      && s.locks == map[Owner(second, 0) := Holder(0, false), Owner(first, 0) := Holder(1, false)]
      && s.procs == map[0 := Terminal(Looked(second, true), second), 1 := Terminal(Entering(first), first)]
  {
    events := SmallerIdClaims(first, second, now);
    events := Then(events, Step(1, Create(now)));
  }

  ghost predicate SmallerIdNext(s: State, first: RunId, second: RunId, now: int, state: RunState, pc: Pc) {
    && s.acquired == [Turn(now, second)]
    && s.runs == map[second := Run(now, state, false), first := Run(now, Queued, false)]
    && 1 in s.procs && s.procs[1] == Terminal(pc, first)
  }

  /** The larger id takes the GPU. */
  lemma LargerIdTakes(first: RunId, second: RunId, now: int) returns (events: seq<Event>)
    requires first < second && 0 <= now
    ensures Possible(events) && NewIds(events)
    ensures SmallerIdNext(Reached(events), first, second, now, Queued, Entering(first))
    ensures 0 in Reached(events).procs && Reached(events).procs[0] == Terminal(Holding(second), second)
  {
    events := SmallerIdSubmits(first, second, now);
    events := Then(events, Step(0, TryGpu));
    assert Reached(events).acquired == [Turn(now, second)];
  }

  /** It stages, and gives the GPU back. */
  lemma LargerIdGoesFirst(first: RunId, second: RunId, now: int) returns (events: seq<Event>)
    requires first < second && 0 <= now
    ensures Possible(events) && NewIds(events)
    ensures SmallerIdNext(Reached(events), first, second, now, Staging, Entering(first))
    ensures Gpu !in Reached(events).locks
  {
    events := LargerIdStages(first, second, now);
    events := Then(events, Step(0, ReleaseGpu));
  }

  lemma LargerIdStages(first: RunId, second: RunId, now: int) returns (events: seq<Event>)
    requires first < second && 0 <= now
    ensures Possible(events) && NewIds(events)
    ensures SmallerIdNext(Reached(events), first, second, now, Staging, Entering(first))
    ensures Enabled(Reached(events), Step(0, ReleaseGpu))
  {
    events := LargerIdTakes(first, second, now);
    HolderStages(Reached(events), first, second, now);
    events := Then(events, Step(0, BeginStaging));
  }

  lemma HolderStages(s: State, first: RunId, second: RunId, now: int)
    requires first < second && SmallerIdNext(s, first, second, now, Queued, Entering(first))
    requires 0 in s.procs && s.procs[0] == Terminal(Holding(second), second)
    ensures Enabled(s, Step(0, BeginStaging))
    ensures var t := After(s, Step(0, BeginStaging));
      SmallerIdNext(t, first, second, now, Staging, Entering(first)) && Enabled(t, Step(0, ReleaseGpu))
  {
  }

  /** With equal timestamps the GPU can be taken against the id order: the run with the larger id
      looks ahead before the other is inserted. Distinct stamps are needed for the full order. */
  lemma {:induction false} TiesCanInvert(first: RunId, second: RunId, now: int) returns (events: seq<Event>)
    requires first < second && 0 <= now
    ensures Possible(events) && NewIds(events)
    ensures Reached(events).acquired == [Turn(now, second), Turn(now, first)]
    ensures Before(Turn(now, first), Turn(now, second))
  {
    hide After, Enabled, Possible, Reached, NewIds;
    events := LargerIdGoesFirst(first, second, now);
    events := TakesItsTurn(events, 1, first);
  }

  /** A terminal that drew a used id replaces the owner file. */
  lemma CollidingClaim(events: seq<Event>, id: RunId, q: Pid) returns (longer: seq<Event>)
    requires Possible(events) && q !in Reached(events).procs && id in Reached(events).runs
    ensures Possible(longer)
    ensures var s, l := Reached(events), Owner(id, NextVersion(Reached(events), id));
      && l !in s.locks
      && Reached(longer) == s.(procs := s.procs[q := NEWBORN.(pc := Claimed(id), claim := Some(l))],
                               locks := s.locks[l := Holder(q, false)], ownerFiles := s.ownerFiles[id := l.version])
  {
    Always(events);
    VersionIsNew(Reached(events), id);
    longer := Then(events, Spawn(q));
    longer := Then(longer, Step(q, Claim(id)));
  }

  /** It is refused, and unlocks the file it put there. */
  lemma CollidingClaimRefused(events: seq<Event>, id: RunId, q: Pid) returns (longer: seq<Event>)
    requires Possible(events) && q !in Reached(events).procs && id in Reached(events).runs
    ensures Possible(longer)
    ensures var s, s' := Reached(events), Reached(longer);
      s' == s.(procs := s.procs[q := NEWBORN], ownerFiles := s.ownerFiles[id := NextVersion(s, id)])
    ensures Owner(id, NextVersion(Reached(events), id)) !in Reached(events).locks
  {
    longer := CollidingClaim(events, id, q);
    RefusalUndoes(Reached(events), Reached(longer), id, q);
    longer := Then(longer, Step(q, CreateRefused));
  }

  lemma RefusalUndoes(s: State, claimed: State, id: RunId, q: Pid)
    requires q !in s.procs && id in s.runs && Owner(id, NextVersion(s, id)) !in s.locks
    requires var l := Owner(id, NextVersion(s, id));
      claimed == s.(procs := s.procs[q := NEWBORN.(pc := Claimed(id), claim := Some(l))],
                    locks := s.locks[l := Holder(q, false)], ownerFiles := s.ownerFiles[id := l.version])
    ensures Enabled(claimed, Step(q, CreateRefused))
    ensures After(claimed, Step(q, CreateRefused))
         == s.(procs := s.procs[q := NEWBORN], ownerFiles := s.ownerFiles[id := NextVersion(s, id)])
  {
    var after := After(claimed, Step(q, CreateRefused));
    assert after.locks == s.locks;
    assert after.procs == s.procs[q := NEWBORN];
  }

  /** Whoever tests the current, unlocked file of a run finds the run abandoned. */
  lemma ProbeOfFreeFile(events: seq<Event>, id: RunId, q: Pid, l: LockFile) returns (longer: seq<Event>)
    requires Possible(events) && q in Reached(events).procs && Reached(events).procs[q] == NEWBORN
    requires var s := Reached(events); l.Owner? && l.id == id && id in s.ownerFiles && s.ownerFiles[id] == l.version && l !in s.locks
    ensures Possible(longer)
    ensures var s := Reached(events); Reached(longer) == s.(procs := s.procs[q := NEWBORN.(finding := Gone(id))])
  {
    var s := Reached(events);
    longer := Then(events, Step(q, BeginProbe(l)));
    assert Reached(longer) == s.(procs := s.procs[q := NEWBORN.(probing := Some(l))], locks := Reached(longer).locks);
    longer := Then(longer, Step(q, EndProbe));
    assert Reached(longer).locks == s.locks;
    assert Reached(longer).procs == s.procs[q := NEWBORN.(finding := Gone(id))];
  }

  lemma ProbeOfCollidingFile(events: seq<Event>, id: RunId, q: Pid) returns (longer: seq<Event>)
    requires Possible(events) && q !in Reached(events).procs && id in Reached(events).runs
    ensures Possible(longer)
    ensures var s, s' := Reached(events), Reached(longer);
      s' == s.(procs := s.procs[q := NEWBORN.(finding := Gone(id))], ownerFiles := s.ownerFiles[id := NextVersion(s, id)])
  {
    var l := Owner(id, NextVersion(Reached(events), id));
    longer := CollidingClaimRefused(events, id, q);
    longer := ProbeOfFreeFile(longer, id, q, l);
    assert Reached(longer).procs == Reached(events).procs[q := NEWBORN.(finding := Gone(id))];
  }

  /** The fresh-id condition is needed: in any reachable state where a run waits under a live claim,
      a second terminal that draws the same run id makes the waiting run look abandoned, and it is dropped. */
  lemma {:induction false} CollidingIdDropsALiveRun(events: seq<Event>, p: Pid, id: RunId, q: Pid) returns (longer: seq<Event>)
    requires Possible(events)
    requires p in Reached(events).procs && Claims(Reached(events).procs[p], id)
    requires QueuedIn(Reached(events), id)
    requires q !in Reached(events).procs
    ensures Possible(longer)
    ensures id in Reached(longer).dropped && id in Reached(longer).runs && Reached(longer).runs[id].state == Cancelled
    ensures p in Reached(longer).procs && Claims(Reached(longer).procs[p], id)
  {
    longer := ProbeOfCollidingFile(events, id, q);
    longer := Then(longer, Step(q, ConfirmGone));
    assert Reached(longer).procs[q].finding == Confirmed(id);
    longer := Then(longer, Step(q, DropGone));
  }
}
