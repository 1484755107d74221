/** One run from its turn on the GPU to its end: `execute` and `_execute` of `nawat/executor.py`, with
    an exception possible at every call that stages, trains, publishes or settles. */
module Lifecycle {
  import opened Wrappers
  import opened C = Checkpoints
  import H = CheckpointHistory

  datatype State = Queued | Staging | Running | Publishing | Succeeded | Failed | Cancelled

  predicate Terminal(s: State) {
    s in {Succeeded, Failed, Cancelled}
  }

  datatype Outcome<+T> = Returns(value: T) | Raises(error: string)

  /** One staged key: what `resolve` and then `acquire` do. */
  datatype Input = Input(resolve: Outcome<()>, acquire: Outcome<()>)

  /** One directory of the outputs, and what publishing it (upload, verify, reclaim) does. */
  datatype Output = Output(name: string, empty: bool, publish: Outcome<()>)

  /** A call that touches the lineage: an exception can come before it has done so, or after. */
  datatype Passage = Through | RaisesFirst(error: string) | RaisesLast(error: string)

  datatype Policy = Policy(resume: bool, keep: bool, publish: bool)

  const CHECKPOINT_CLASS := "checkpoint"

  /** Everything outside the executor that a run meets, in the order it meets it. */
  datatype World = World(
    turn: bool, cancelledMeanwhile: bool,
    experiment: Outcome<()>, inputs: seq<Input>, plan: Passage,
    markBefore: bool, launch: Outcome<()>, saves: seq<Disk>, exit: Outcome<int>, markAfter: bool,
    outputs: seq<Output>, replicates: bool, settling: Passage, settlingAgain: Passage, record: Outcome<()>)

  // -- how far a run gets ----------------------------------------------------------------

  predicate InputsStage(inputs: seq<Input>) {
    forall i :: i in inputs ==> i.resolve.Returns? && i.acquire.Returns?
  }

  predicate Planned(w: World) {
    w.experiment.Returns? && InputsStage(w.inputs) && w.plan.Through?
  }

  /** The trainer process is started. */
  predicate Starts(w: World) {
    Planned(w) && !w.markBefore && w.launch.Returns?
  }

  /** The trainer ends by itself and nobody asked for it to be cancelled. */
  predicate Finishes(w: World) {
    Starts(w) && w.exit.Returns? && !w.markAfter
  }

  /** Every output class uploads and verifies. */
  predicate AllPublish(outputs: seq<Output>) {
    forall o :: o in outputs && !o.empty ==> o.publish.Returns?
  }

  /** A mark is found at one of the two places that look for it; or the row was already cancelled and
      the run was refused before it touched the row. */
  predicate EndsCancelled(w: World, already: bool) {
    || (Planned(w) && w.markBefore)
    || (Starts(w) && w.exit.Returns? && w.markAfter)
    || (w.experiment.Raises? && already)
  }

  /** The `try` block gets as far as settling: the run was marked, failed by its exit code, or published. */
  predicate Ends(w: World) {
    Planned(w) && (w.markBefore || (Starts(w) && w.exit.Returns? && (w.markAfter || w.exit.value != 0 || AllPublish(w.outputs))))
  }

  predicate Good(w: World) {
    Finishes(w) && w.exit.value == 0 && AllPublish(w.outputs)
  }

  /** The classes published before the first that raises. */
  function PublishedOf(outputs: seq<Output>): seq<string> {
    if outputs == [] || (!outputs[0].empty && outputs[0].publish.Raises?) then []
    else (if outputs[0].empty then [] else [outputs[0].name]) + PublishedOf(outputs[1..])
  }

  /** The outputs a run publishes: none unless its trainer ended by itself. */
  function PublishedBy(w: World): seq<string> {
    if Finishes(w) then PublishedOf(w.outputs) else []
  }

  lemma {:induction false} PublishedFrom(outputs: seq<Output>, i: nat)
    requires i < |outputs| && AllPublish(outputs[..i])
    ensures PublishedOf(outputs) == PublishedOf(outputs[..i]) + PublishedOf(outputs[i..])
    decreases i
  {
    hide *;
    if i == 0 {
      NoOutput();
      assert outputs[0..] == outputs && outputs[..0] == [];
    } else {
      TailPublishes(outputs, i);
      PublishedStep(outputs);
      PublishedStep(outputs[..i]);
      PublishedFrom(outputs[1..], i - 1);
    }
  }

  lemma TailPublishes(outputs: seq<Output>, i: nat)
    requires 0 < i < |outputs| && AllPublish(outputs[..i])
    ensures AllPublish(outputs[1..][..i - 1]) && outputs[..i][0] == outputs[0] && (outputs[0].empty || outputs[0].publish.Returns?)
    ensures outputs[1..][..i - 1] == outputs[..i][1..] && outputs[1..][i - 1..] == outputs[i..]
  {
    assert outputs[0] in outputs[..i];
  }

  lemma PublishedStep(outputs: seq<Output>)
    requires outputs != [] && (outputs[0].empty || outputs[0].publish.Returns?)
    ensures PublishedOf(outputs) == (if outputs[0].empty then [] else [outputs[0].name]) + PublishedOf(outputs[1..])
  {
  }

  lemma NoOutput()
    ensures AllPublish([]) && PublishedOf([]) == []
  {
  }

  lemma NextOutput(outputs: seq<Output>, i: nat)
    requires i < |outputs| && AllPublish(outputs[..i])
    ensures var o := outputs[i];
      if !o.empty && o.publish.Raises? then !AllPublish(outputs) && PublishedOf(outputs) == PublishedOf(outputs[..i])
      else && AllPublish(outputs[..i + 1])
           && PublishedOf(outputs[..i + 1]) == PublishedOf(outputs[..i]) + if o.empty then [] else [o.name]
  {
    var o, more := outputs[i], outputs[..i + 1];
    PublishedFrom(outputs, i);
    PublishedFrom(more, i);
    FirstOutput(outputs[i..]);
    FirstOutput([o]);
    hide PublishedOf;
    assert more[..i] == outputs[..i] && more[i..] == [o] && more == outputs[..i] + [o];
  }

  lemma FirstOutput(outputs: seq<Output>)
    requires outputs != []
    ensures var o := outputs[0];
      && (!o.empty && o.publish.Raises? ==> PublishedOf(outputs) == [])
      && (o.empty || o.publish.Returns? ==> PublishedOf([o]) == if o.empty then [] else [o.name])
  {
    assert [outputs[0]][1..] == [];
  }

  lemma {:induction false} PublishesEveryClass(outputs: seq<Output>)
    requires AllPublish(outputs)
    ensures forall o :: o in outputs && !o.empty ==> o.name in PublishedOf(outputs)
  {
    if outputs != [] {
      assert outputs[0] in outputs;
      PublishesEveryClass(outputs[1..]);
      assert forall o :: o in outputs ==> o == outputs[0] || o in outputs[1..];
    }
  }

  /** The names of the classes that have files. */
  function Classes(outputs: seq<Output>): seq<string> {
    if outputs == [] then [] else (if outputs[0].empty then [] else [outputs[0].name]) + Classes(outputs[1..])
  }

  /** What is published: all classes with files, in order, up to the first that raises. */
  lemma {:induction false} PublishedUpToTheFirstThatRaises(outputs: seq<Output>, n: nat)
    requires n <= |outputs| && forall i :: 0 <= i < n ==> outputs[i].empty || outputs[i].publish.Returns?
    requires n < |outputs| ==> !outputs[n].empty && outputs[n].publish.Raises?
    ensures PublishedOf(outputs) == Classes(outputs[..n])
  {
    if n > 0 {
      PublishedUpToTheFirstThatRaises(outputs[1..], n - 1);
      assert outputs[..n][1..] == outputs[1..][..n - 1];
    }
  }

  /** A run succeeds exactly when nothing raises from the experiment to the exit code zero, nobody asks for
      it to be cancelled, and every class with files is published. Its trainer is started exactly when
      it is planned, not marked, and launched; and it ends cancelled exactly at one of the two marks,
      or when it was refused after somebody had cancelled its row. */
  lemma HowItEnds(w: World, policy: Policy, already: bool)
    ensures var planned := w.experiment.Returns? && w.plan == Through && forall i :: i in w.inputs ==> i.resolve.Returns? && i.acquire.Returns?;
      && (Planned(w) <==> planned) && (InputsStage(w.inputs) <==> forall i :: i in w.inputs ==> i.resolve.Returns? && i.acquire.Returns?)
      && (Starts(w) <==> planned && !w.markBefore && w.launch.Returns?)
      && (Ends(w) <==> planned && (w.markBefore || (w.launch.Returns? && w.exit.Returns?
                       && (w.markAfter || w.exit.value != 0 || forall o :: o in w.outputs ==> o.empty || o.publish.Returns?))))
      && (Good(w) <==> && planned && !w.markBefore && w.launch.Returns? && w.exit == Returns(0) && !w.markAfter
                       && forall o :: o in w.outputs ==> o.empty || o.publish.Returns?)
      && (EndsCancelled(w, already) <==>
            (planned && (w.markBefore || (w.launch.Returns? && w.exit.Returns? && w.markAfter))) || (w.experiment.Raises? && already))
      && (PublishedBy(w) == if planned && !w.markBefore && w.launch.Returns? && w.exit.Returns? && !w.markAfter then PublishedOf(w.outputs) else [])
      && (Discards(w, policy) <==> Good(w) && !policy.keep && !w.settling.RaisesFirst?)
  {
    assert InputsStage(w.inputs) <==> forall i :: i in w.inputs ==> i.resolve.Returns? && i.acquire.Returns?;
  }

  // -- the executor ------------------------------------------------------------------------

  class Run {
    const policy: Policy
    const lineage: Directory
    var state: State
    var exitCode: Option<int>
    var artifacts: seq<string>
    var checkpoint: Option<Checkpoint>
    var leases: set<nat>
    var issued: nat
    var gpu: bool
    var trained: bool
    var published: seq<string>
    ghost var events: seq<H.Event>

    constructor (policy: Policy, lineage: Directory, leases: set<nat>, issued: nat)
      requires forall l :: l in leases ==> l < issued
      ensures Valid() && state == Queued && !gpu && !trained && published == [] && events == []
      ensures this.policy == policy && this.lineage == lineage && this.leases == leases
    {
      this.policy, this.lineage, this.leases, this.issued := policy, lineage, leases, issued;
      state, exitCode, artifacts, checkpoint := Queued, None, [], None;
      gpu, trained, published, events := false, false, [], [];
    }

    ghost predicate Valid()
      reads this
    {
      forall l :: l in leases ==> l < issued
    }

    /** The staging loop: resolve each key, then lease it. */
    method Stage(inputs: seq<Input>) returns (r: Outcome<()>, held: set<nat>)
      requires Valid()
      modifies this`leases, this`issued
      ensures Valid()
      ensures r.Returns? <==> InputsStage(inputs)
      ensures leases == old(leases) + held && held !! old(leases)
      ensures |held| <= |inputs| && (r.Returns? ==> |held| == |inputs|)
    {
      held := {};
      for i := 0 to |inputs|
        invariant |held| == i
        invariant Valid() && leases == old(leases) + held && held !! old(leases) && issued >= old(issued)
        invariant forall l :: l in old(leases) ==> l < old(issued)
        invariant InputsStage(inputs[..i])
      {
        if inputs[i].resolve.Raises? { return Raises(inputs[i].resolve.error), held; }
        if inputs[i].acquire.Raises? { return Raises(inputs[i].acquire.error), held; }
        leases, held := leases + {issued}, held + {issued};
        issued := issued + 1;
        assert inputs[..i + 1] == inputs[..i] + [inputs[i]];
      }
      assert inputs[..|inputs|] == inputs;
      return Returns(()), held;
    }

    /** `_publish_outputs`. */
    method PublishOutputs(outputs: seq<Output>) returns (r: Outcome<seq<string>>)
      modifies this`published
      ensures r.Returns? <==> AllPublish(outputs)
      ensures r.Returns? ==> r.value == PublishedOf(outputs)
      ensures published == old(published) + PublishedOf(outputs)
    {
      hide PublishedOf, AllPublish;
      var done: seq<string> := [];
      NoOutput();
      assert outputs[..0] == [];
      for i := 0 to |outputs|
        invariant AllPublish(outputs[..i])
        invariant done == PublishedOf(outputs[..i])
        invariant published == old(published) + done
      {
        var o := outputs[i];
        NextOutput(outputs, i);
        if !o.empty {
          if o.publish.Raises? { return Raises(o.publish.error); }
          published, done := published + [o.name], done + [o.name];
        }
      }
      assert outputs[..|outputs|] == outputs;
      return Returns(done);
    }

    /** `_settle_checkpoints`, after a plan was made; `before` is the lineage as the run found it. */
    method SettleCheckpoints(how: Passage, replicates: bool, ghost before: Disk) returns (r: Outcome<()>)
      requires Terminal(state) && lineage.disk == H.AfterAll(before, events)
      modifies this`checkpoint, this`artifacts, this`events, lineage
      ensures r.Returns? <==> how.Through?
      ensures events == old(events) + Settling(how, state == Succeeded, policy.keep)
      ensures lineage.disk == H.AfterAll(before, events)
      ensures how.Through? ==> checkpoint == Settled(old(lineage.disk), state == Succeeded, policy.keep).1
      ensures artifacts == old(artifacts) || artifacts == old(artifacts) + [CHECKPOINT_CLASS]
      ensures how.Through? && policy.publish && replicates && Latest(old(lineage.disk)).Some? ==> CHECKPOINT_CLASS in artifacts
    {
      hide Latest, Settled, H.AfterAll;
      SettledMaybe(before, events, Settling(how, state == Succeeded, policy.keep), H.Settle(state == Succeeded, policy.keep));
      if how.RaisesFirst? { return Raises(how.error); }
      var reached := lineage.LatestUsable();
      var newest := lineage.Settle(state == Succeeded, policy.keep);
      events := events + [H.Settle(state == Succeeded, policy.keep)];
      if how.RaisesLast? { return Raises(how.error); }
      checkpoint := newest;
      if reached.Some? && policy.publish && replicates && CHECKPOINT_CLASS !in artifacts {
        artifacts := artifacts + [CHECKPOINT_CLASS];
      }
      return Returns(());
    }

    /** What the trainer does to its lineage until it exits. */
    method Train(saves: seq<Disk>)
      modifies this`events, lineage
      ensures events == old(events) + H.Trains(saves)
      ensures lineage.disk == H.LastSave(old(lineage.disk), saves)
    {
      for i := 0 to |saves|
        invariant lineage.disk == H.LastSave(old(lineage.disk), saves[..i])
        invariant events == old(events) + H.Trains(saves[..i])
      {
        assert saves[..i + 1][..i] == saves[..i];
        lineage.disk := saves[i];
        events := events + [H.Train(saves[i])];
      }
      assert saves[..|saves|] == saves;
    }

    /** `_run_process`. */
    method RunProcess(w: World) returns (r: Outcome<()>)
      requires state == Staging && Planned(w)
      modifies this`state, this`exitCode, this`trained, this`events, lineage
      ensures r.Returns? <==> w.markBefore || (Starts(w) && w.exit.Returns?)
      ensures r.Returns? ==> (state == Cancelled <==> !Finishes(w))
      ensures !Terminal(state) || state == Cancelled
      ensures r.Raises? ==> !Terminal(state)
      ensures Finishes(w) ==> exitCode == Some(w.exit.value)
      ensures trained == (old(trained) || Starts(w))
      ensures events == old(events) + if Starts(w) then H.Trains(w.saves) else []
      ensures lineage.disk == if Starts(w) then H.LastSave(old(lineage.disk), w.saves) else old(lineage.disk)
    {
      if w.markBefore {
        state := Cancelled;
        return Returns(());
      }
      if w.launch.Raises? { return Raises(w.launch.error); }
      trained := true;
      state := Running;
      Train(w.saves);
      if w.exit.Raises? { return Raises(w.exit.error); }
      exitCode := Some(w.exit.value);
      if w.markAfter { state := Cancelled; }
      return Returns(());
    }

    /** The end of a run that was not cancelled: publish, as the exit code says. */
    method Publish(outputs: seq<Output>) returns (r: Outcome<()>)
      modifies this`state, this`artifacts, this`published
      ensures published == old(published) + PublishedOf(outputs)
      ensures r.Returns? <==> exitCode != Some(0) || AllPublish(outputs)
      ensures state == if r.Raises? then Publishing else if exitCode == Some(0) then Succeeded else Failed
      ensures state == Succeeded ==> artifacts == PublishedOf(outputs)
    {
      state := Publishing;
      var out := PublishOutputs(outputs);
      if exitCode == Some(0) {
        if out.Raises? { return Raises(out.error); }
        state, artifacts := Succeeded, out.value;
      } else {
        state := Failed;
        if out.Returns? { artifacts := out.value; }
      }
      return Returns(());
    }

    /** The `try` block of `_execute` up to the plan. */
    method Prepare(w: World) returns (r: Outcome<()>, held: set<nat>)
      requires Valid() && events == []
      modifies this`state, this`leases, this`issued, this`events, lineage
      ensures Valid() && leases == old(leases) + held && held !! old(leases)
      ensures r.Returns? <==> Planned(w)
      ensures state == if w.experiment.Raises? then old(state) else Staging
      ensures events == Started(w, policy) && lineage.disk == H.AfterAll(old(lineage.disk), events)
    {
      held := {};
      PlayedDisk(old(lineage.disk), w, policy);
      if w.experiment.Raises? { return Raises(w.experiment.error), held; }
      state := Staging;
      r, held := Stage(w.inputs);
      if r.Raises? { return; }
      if w.plan.RaisesFirst? { return Raises(w.plan.error), held; }
      var _ := lineage.Prepare(policy.resume);
      events := [H.Start(policy.resume)];
      if w.plan.RaisesLast? { return Raises(w.plan.error), held; }
      return Returns(()), held;
    }

    /** The `try` block of `_execute` up to the settling. */
    method Attempt(w: World) returns (r: Outcome<()>, held: set<nat>, planned: bool)
      requires Valid() && events == [] && state in {Queued, Cancelled}
      modifies this, lineage
      ensures Valid() && gpu == old(gpu) && leases == old(leases) + held && held !! old(leases)
      ensures planned <==> Planned(w)
      ensures trained == (old(trained) || Starts(w))
      ensures published == old(published) + PublishedBy(w)
      ensures r.Returns? <==> Ends(w)
      ensures r.Returns? ==> Terminal(state)
      ensures r.Returns? ==> (state == Succeeded <==> Good(w))
      ensures state == Cancelled <==> EndsCancelled(w, old(state) == Cancelled)
      ensures state == Succeeded ==> exitCode == Some(0) && artifacts == PublishedOf(w.outputs)
      ensures events == Played(w, policy) && lineage.disk == H.AfterAll(old(lineage.disk), events)
    {
      r, held := Prepare(w);
      planned := r.Returns?;
      if r.Raises? { return; }
      PlayedDisk(old(lineage.disk), w, policy);
      r := RunProcess(w);
      if r.Raises? || state == Cancelled { return; }
      r := Publish(w.outputs);
    }

    /** The `except` branches: `_fail`, then settle as a run that did not succeed, if a plan was made. */
    method Fail(planned: bool, w: World, ghost before: Disk) returns (r: Outcome<()>)
      requires lineage.disk == H.AfterAll(before, events)
      modifies this`state, this`checkpoint, this`artifacts, this`events, lineage
      ensures state == if old(state) == Cancelled then Cancelled else Failed
      ensures events == old(events) + if planned then Settling(w.settlingAgain, false, policy.keep) else []
      ensures lineage.disk == H.AfterAll(before, events)
    {
      if state != Cancelled { state := Failed; }
      if !planned { return Returns(()); }
      r := SettleCheckpoints(w.settlingAgain, w.replicates, before);
    }

    /** `_execute` without its `finally`. */
    method Guarded(w: World) returns (r: Outcome<()>, held: set<nat>)
      requires Valid() && events == [] && state in {Queued, Cancelled}
      modifies this, lineage
      ensures Valid() && gpu == old(gpu) && leases == old(leases) + held && held !! old(leases)
      ensures Terminal(state)
      ensures state == Succeeded <==> Good(w) && w.settling.Through?
      ensures state == Cancelled <==> EndsCancelled(w, old(state) == Cancelled)
      ensures trained == (old(trained) || Starts(w))
      ensures published == old(published) + PublishedBy(w)
      ensures state == Succeeded ==> exitCode == Some(0) && PublishedOf(w.outputs) <= artifacts
      ensures events == Course(w, policy) && lineage.disk == H.AfterAll(old(lineage.disk), events)
    {
      hide Played, EndsCancelled, PublishedBy, PublishedOf;
      var planned;
      r, held, planned := Attempt(w);
      if r.Returns? { r := SettleCheckpoints(w.settling, w.replicates, old(lineage.disk)); }
      if r.Raises? { r := Fail(planned, w, old(lineage.disk)); }
    }

    /** `_execute`. */
    method ExecuteTurn(w: World) returns (r: Outcome<()>)
      requires Valid() && events == [] && state in {Queued, Cancelled}
      modifies this, lineage
      ensures Valid() && gpu == old(gpu) && leases == old(leases)
      ensures Terminal(state)
      ensures state == Succeeded <==> Good(w) && w.settling.Through?
      ensures state == Cancelled <==> EndsCancelled(w, old(state) == Cancelled)
      ensures trained == (old(trained) || Starts(w))
      ensures published == old(published) + PublishedBy(w)
      ensures state == Succeeded ==> exitCode == Some(0) && PublishedOf(w.outputs) <= artifacts
      ensures events == Course(w, policy) && lineage.disk == H.AfterAll(old(lineage.disk), events)
    {
      var held;
      r, held := Guarded(w);
      leases := leases - held;
      if r.Returns? && w.record.Raises? { r := Raises(w.record.error); }
    }

    /** `execute`. */
    method Execute(w: World) returns (r: Outcome<()>)
      requires Valid() && events == [] && !gpu && state in {Queued, Succeeded, Failed, Cancelled}
      modifies this, lineage
      ensures Valid() && !gpu && leases == old(leases)
      ensures Terminal(state)
      ensures Terminal(old(state)) ==> r.Raises? && state == old(state) && trained == old(trained) && published == old(published)
      ensures old(state) == Queued && !w.turn ==> state == Cancelled && trained == old(trained) && published == old(published)
      ensures old(state) == Queued && w.turn ==>
                && (state == Succeeded <==> Good(w) && w.settling.Through?)
                && (state == Cancelled <==> EndsCancelled(w, w.cancelledMeanwhile))
                && trained == (old(trained) || Starts(w))
                && published == old(published) + PublishedBy(w)
                && (state == Succeeded ==> exitCode == Some(0) && PublishedOf(w.outputs) <= artifacts)
                && events == Course(w, policy) && lineage.disk == H.AfterAll(old(lineage.disk), events)
    {
      if Terminal(state) { return Raises("already finished"); }
      if !w.turn {
        state := Cancelled;
        return Returns(());
      }
      gpu := true;
      if w.cancelledMeanwhile { state := Cancelled; }
      r := ExecuteTurn(w);
      gpu := false;
    }
  }

  // -- what the lineage goes through ---------------------------------------------------------

  /** The steps of the lineage up to the settling. */
  function Played(w: World, policy: Policy): seq<H.Event> {
    Started(w, policy) + if Starts(w) then H.Trains(w.saves) else []
  }

  function Started(w: World, policy: Policy): seq<H.Event> {
    if w.experiment.Raises? || !InputsStage(w.inputs) || w.plan.RaisesFirst? then [] else [H.Start(policy.resume)]
  }

  function Settling(how: Passage, succeeded: bool, keep: bool): seq<H.Event> {
    if how.RaisesFirst? then [] else [H.Settle(succeeded, keep)]
  }

  function FirstSettling(w: World, policy: Policy): seq<H.Event> {
    if Ends(w) then Settling(w.settling, Good(w), policy.keep) else []
  }

  /** The settling of the `except` branches. */
  function SecondSettling(w: World, policy: Policy): seq<H.Event> {
    if Planned(w) && !(Ends(w) && w.settling.Through?) then Settling(w.settlingAgain, false, policy.keep) else []
  }

  /** Everything a run does to its lineage. */
  function Course(w: World, policy: Policy): seq<H.Event> {
    Played(w, policy) + FirstSettling(w, policy) + SecondSettling(w, policy)
  }

  lemma CourseSettles(disk: Disk, w: World, policy: Policy)
    ensures var played := H.AfterAll(disk, Played(w, policy));
      var first := if FirstSettling(w, policy) == [] then played else H.After(played, H.Settle(Good(w), policy.keep));
      H.AfterAll(disk, Course(w, policy))
      == if SecondSettling(w, policy) == [] then first else H.After(first, H.Settle(false, policy.keep))
  {
    SettledMaybe(disk, Played(w, policy), FirstSettling(w, policy), H.Settle(Good(w), policy.keep));
    SettledMaybe(disk, Played(w, policy) + FirstSettling(w, policy), SecondSettling(w, policy), H.Settle(false, policy.keep));
  }

  lemma SettledMaybe(disk: Disk, es: seq<H.Event>, more: seq<H.Event>, e: H.Event)
    requires e.Settle? && (more == [] || more == [e])
    ensures H.AfterAll(disk, es + more) == if more == [] then H.AfterAll(disk, es) else H.After(H.AfterAll(disk, es), e)
    ensures H.PossibleAll(disk, es) ==> H.PossibleAll(disk, es + more)
  {
    if more == [] {
      assert es + more == es;
    } else {
      H.OneMoreEvent(disk, es, e);
    }
  }

  lemma PlayedDisk(disk: Disk, w: World, policy: Policy)
    ensures H.AfterAll(disk, [H.Start(policy.resume)]) == Prepared(disk, policy.resume)
    ensures H.AfterAll(disk, [H.Start(policy.resume)] + H.Trains(w.saves)) == H.LastSave(Prepared(disk, policy.resume), w.saves)
  {
    assert [] + [H.Start(policy.resume)] == [H.Start(policy.resume)];
    H.OneMoreEvent(disk, [], H.Start(policy.resume));
    H.SavesAreSteps(disk, [H.Start(policy.resume)], w.saves);
  }

  /** What a run leaves of its lineage: prepared if it was staged and got that far, then as the trainer
      last saved it, then settled when the run ends without raising, and settled again as one that did not
      succeed when something raised after the plan. */
  lemma LineageAtTheEnd(disk: Disk, w: World, policy: Policy)
    ensures var staged := w.experiment.Returns? && InputsStage(w.inputs) && !w.plan.RaisesFirst?;
      var started := if staged then Prepared(disk, policy.resume) else disk;
      var played := if Starts(w) && w.saves != [] then w.saves[|w.saves| - 1] else started;
      var first := if Ends(w) && !w.settling.RaisesFirst? then Settled(played, Good(w), policy.keep).0 else played;
      H.AfterAll(disk, Course(w, policy))
      == if Planned(w) && !(Ends(w) && w.settling == Through) && !w.settlingAgain.RaisesFirst? then Settled(first, false, policy.keep).0 else first
  {
    hide Starts, Ends, Good, Prepared, Settled, H.AfterAll;
    CourseSettles(disk, w, policy);
    PlayedAt(disk, w, policy);
  }

  lemma PlayedAt(disk: Disk, w: World, policy: Policy)
    ensures H.AfterAll(disk, Played(w, policy))
      == if Starts(w) && w.saves != [] then w.saves[|w.saves| - 1]
         else if w.experiment.Returns? && InputsStage(w.inputs) && !w.plan.RaisesFirst? then Prepared(disk, policy.resume) else disk
  {
    hide Prepared, H.Trains;
    PlayedDisk(disk, w, policy);
    assert H.AfterAll(disk, []) == disk;
    assert [H.Start(policy.resume)] + [] == [H.Start(policy.resume)];
  }

  /** The settling that removes checkpoints takes place. */
  predicate Discards(w: World, policy: Policy) {
    Good(w) && !policy.keep && !w.settling.RaisesFirst?
  }

  lemma {:induction false} TrainingGivesNothingUp(saves: seq<Disk>)
    ensures forall e :: e in H.Trains(saves) ==> e.Train?
  {
    if saves != [] { TrainingGivesNothingUp(saves[..|saves| - 1]); }
  }

  /** However a run ends, its lineage gives checkpoints up exactly when the run asked for a fresh start
      and got as far as preparing one, or published everything, did not ask to keep them, and settled. */
  lemma GivesUpExactlyForAReason(w: World, policy: Policy)
    ensures H.NeverGivesUp(Course(w, policy)) <==> (policy.resume || Played(w, policy) == []) && !Discards(w, policy)
  {
    TrainingGivesNothingUp(w.saves);
    var played, first, second := Played(w, policy), FirstSettling(w, policy), SecondSettling(w, policy);
    assert forall e :: e in Course(w, policy) <==> e in played || e in first || e in second;
    assert played != [] ==> H.Start(policy.resume) in played;
    assert Discards(w, policy) ==> H.Settle(true, false) in first;
  }

  lemma CourseIsPossible(disk: Disk, w: World, policy: Policy)
    requires H.CarefulSaves(Prepared(disk, policy.resume), w.saves)
    ensures H.PossibleAll(disk, Course(w, policy))
  {
    PlayedIsPossible(disk, w, policy);
    SettledTwice(disk, Played(w, policy), FirstSettling(w, policy), SecondSettling(w, policy), Good(w), policy.keep);
  }

  lemma SettledTwice(disk: Disk, es: seq<H.Event>, first: seq<H.Event>, second: seq<H.Event>, succeeded: bool, keep: bool)
    requires H.PossibleAll(disk, es)
    requires first == [] || first == [H.Settle(succeeded, keep)]
    requires second == [] || second == [H.Settle(false, keep)]
    ensures H.PossibleAll(disk, es + first + second)
  {
    SettledMaybe(disk, es, first, H.Settle(succeeded, keep));
    SettledMaybe(disk, es + first, second, H.Settle(false, keep));
  }

  lemma PlayedIsPossible(disk: Disk, w: World, policy: Policy)
    requires H.CarefulSaves(Prepared(disk, policy.resume), w.saves)
    ensures H.PossibleAll(disk, Played(w, policy))
  {
    var start := [H.Start(policy.resume)];
    PlayedDisk(disk, w, policy);
    H.OneMoreEvent(disk, [], H.Start(policy.resume));
    H.SavesAreSteps(disk, start, w.saves);
    assert [] + start == start && start + [] == start;
  }

  /** A resuming run that fails, is cancelled, raises anywhere, or is cut off by a crash after any of its
      steps, leaves the newest complete checkpoint or a later one, unless it gets to remove them. */
  lemma {:induction false} TrainingIsNotLost(disk: Disk, w: World, policy: Policy, n: nat)
    requires H.DistinctNames(disk) && H.CarefulSaves(Prepared(disk, policy.resume), w.saves)
    requires policy.resume && !Discards(w, policy) && Latest(disk).Some? && n <= |Course(w, policy)|
    ensures var after := H.AfterAll(disk, Course(w, policy)[..n]);
      Latest(after).Some? && Latest(after).value.step >= Latest(disk).value.step
  {
    GivesUpExactlyForAReason(w, policy);
    CourseIsPossible(disk, w, policy);
    H.PossibleSoFar(disk, Course(w, policy), n);
    assert forall e :: e in Course(w, policy)[..n] ==> e in Course(w, policy);
    H.ProgressIsNeverLost(disk, Course(w, policy)[..n]);
  }

  /** And a run that gets to remove them leaves none: for a resuming run the lineage is lost exactly then. */
  lemma {:induction false} LostExactlyWhenDiscarded(disk: Disk, w: World, policy: Policy)
    requires H.DistinctNames(disk) && H.CarefulSaves(Prepared(disk, policy.resume), w.saves)
    requires policy.resume && Latest(disk).Some?
    ensures Latest(H.AfterAll(disk, Course(w, policy))).None? <==> Discards(w, policy)
  {
    if Discards(w, policy) {
      CourseSettles(disk, w, policy);
      LatestIsNewest(Gone);
    } else {
      TrainingIsNotLost(disk, w, policy, |Course(w, policy)|);
      assert Course(w, policy)[..|Course(w, policy)|] == Course(w, policy);
    }
  }
}
