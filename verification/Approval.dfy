/** Approving plans, and the gate in front of every run: `recompute_hash`, `require_approved`, `sign`
    and `approve` of `nawat/lab/experiment.py`, and the approval of sweeps in `nawat/lab/sweep.py`. */
module Approval {
  import opened Wrappers

  /** A piece of code an experiment carries: its name, its hash, and where its copy is. */
  datatype Entry = Entry(name: string, sha: nat, code: string)

  /** What a plan hash is taken over. */
  datatype Material = Material(
    backbone: (string, nat), support: Option<nat>, blocks: map<string, seq<(string, nat)>>, params: string, inputs: string)

  /** What a signature is made over. */
  datatype Signed = Signed(planHash: nat, at: int, approver: string, host: string)

  /** An approval file: what it says, and what its signature, if it has a good one, was made over. */
  datatype ApprovalFile = ApprovalFile(says: Signed, seal: Option<Signed>)

  /** An experiment folder. */
  datatype Experiment = Experiment(
    backbone: Entry, support: Option<Entry>, blocks: map<string, seq<Entry>>, params: string, inputs: string,
    planHash: nat, files: map<string, string>, approval: Option<ApprovalFile>)

  /** The hashes: of a file, of a plan, of a sweep's plan hashes; and the code a person types. */
  datatype Hashes = Hashes(file: string -> nat, plan: Material -> nat, sweep: multiset<nat> -> nat, code: nat -> string)

  ghost predicate Injective(h: Hashes) {
    && (forall a, b :: h.file(a) == h.file(b) ==> a == b)
    && (forall a, b :: h.plan(a) == h.plan(b) ==> a == b)
  }

  datatype Error = Changed | Missing | OtherPlan | Forged | Unverifiable | InSandbox | WrongCode | Unknown

  // -- hashing what is on disk -------------------------------------------------------------

  function Names(entries: seq<Entry>): seq<(string, nat)> {
    seq(|entries|, i requires 0 <= i < |entries| => (entries[i].name, entries[i].sha))
  }

  function MaterialOf(e: Experiment): Material {
    Material((e.backbone.name, e.backbone.sha), if e.support.Some? then Some(e.support.value.sha) else None,
             map slot | slot in e.blocks :: Names(e.blocks[slot]), e.params, e.inputs)
  }

  /** The frozen copy is there and is what the plan recorded. */
  predicate Intact(h: Hashes, e: Experiment, entry: Entry) {
    entry.code in e.files && h.file(e.files[entry.code]) == entry.sha
  }

  predicate AllIntact(h: Hashes, e: Experiment) {
    && Intact(h, e, e.backbone)
    && (e.support.Some? ==> Intact(h, e, e.support.value))
    && forall slot :: slot in e.blocks ==> forall b :: b in e.blocks[slot] ==> Intact(h, e, b)
  }

  /** `recompute_hash`. */
  function Recomputed(h: Hashes, e: Experiment): Result<nat, Error> {
    if AllIntact(h, e) then Ok(h.plan(MaterialOf(e))) else Err(Changed)
  }

  /** Two experiments with the same names, code, parameters and inputs; `run.py` is not compared. */
  ghost predicate Same(d: Experiment, e: Experiment) {
    && d.params == e.params && d.inputs == e.inputs
    && SameCode(d, d.backbone, e, e.backbone) && d.backbone.name == e.backbone.name
    && d.support.Some? == e.support.Some?
    && (d.support.Some? ==> SameCode(d, d.support.value, e, e.support.value))
    && d.blocks.Keys == e.blocks.Keys
    && forall slot :: slot in d.blocks ==> SameBlocks(d, d.blocks[slot], e, e.blocks[slot])
  }

  ghost predicate SameCode(d: Experiment, a: Entry, e: Experiment, b: Entry) {
    a.code in d.files && b.code in e.files && d.files[a.code] == e.files[b.code]
  }

  ghost predicate SameBlocks(d: Experiment, a: seq<Entry>, e: Experiment, b: seq<Entry>) {
    |a| == |b| && forall i :: 0 <= i < |a| ==> a[i].name == b[i].name && SameCode(d, a[i], e, b[i])
  }

  lemma SameMaterialSameCode(h: Hashes, d: Experiment, e: Experiment)
    requires Injective(h) && AllIntact(h, d) && AllIntact(h, e) && MaterialOf(d) == MaterialOf(e)
    ensures Same(d, e)
  {
    var m, n := MaterialOf(d), MaterialOf(e);
    assert m.blocks.Keys == d.blocks.Keys && n.blocks.Keys == e.blocks.Keys;
    forall slot | slot in d.blocks ensures SameBlocks(d, d.blocks[slot], e, e.blocks[slot]) {
      assert m.blocks[slot] == n.blocks[slot];
      SameNamesSameBlocks(h, d, d.blocks[slot], e, e.blocks[slot]);
    }
  }

  lemma SameNamesSameBlocks(h: Hashes, d: Experiment, a: seq<Entry>, e: Experiment, b: seq<Entry>)
    requires Injective(h) && Names(a) == Names(b)
    requires (forall x :: x in a ==> Intact(h, d, x)) && (forall x :: x in b ==> Intact(h, e, x))
    ensures SameBlocks(d, a, e, b)
  {
    assert |a| == |Names(a)| == |Names(b)| == |b|;
    forall i | 0 <= i < |a| ensures a[i].name == b[i].name && SameCode(d, a[i], e, b[i]) {
      assert Names(a)[i] == Names(b)[i] && a[i] in a && b[i] in b;
    }
  }

  /** Two intact experiments have the same plan hash exactly when they have the same names, code, parameters
      and inputs. */
  lemma HashSaysTheSame(h: Hashes, d: Experiment, e: Experiment)
    requires Injective(h) && AllIntact(h, d) && AllIntact(h, e)
    ensures Recomputed(h, d) == Recomputed(h, e) <==> Same(d, e)
  {
    if Recomputed(h, d) == Recomputed(h, e) { SameMaterialSameCode(h, d, e); }
    if Same(d, e) {
      forall slot | slot in d.blocks ensures Names(d.blocks[slot]) == Names(e.blocks[slot]) {
        var a, b := d.blocks[slot], e.blocks[slot];
        assert SameBlocks(d, a, e, b);
        forall i | 0 <= i < |a| ensures a[i].sha == b[i].sha {
          assert a[i] in a && b[i] in b && Intact(h, d, a[i]) && Intact(h, e, b[i]);
        }
      }
      assert MaterialOf(d) == MaterialOf(e);
    }
  }

  // -- the host ----------------------------------------------------------------------------

  /** Where a command runs: inside the sandbox or not, and the plan hash the host says it verified. */
  datatype Place = Place(sandbox: bool, hostVerified: Option<nat>)

  /** The gate of `require_approved`, on a machine with or without the key. */
  predicate Passes(h: Hashes, key: bool, e: Experiment, place: Place) {
    && Recomputed(h, e) == Ok(e.planHash)
    && e.approval.Some? && e.approval.value.says.planHash == e.planHash
    && if key then e.approval.value.seal == Some(e.approval.value.says)
       else !place.sandbox || place.hostVerified == Some(e.planHash)
  }

  class Host {
    const h: Hashes
    var key: bool
    var issued: set<Signed>
    var experiments: map<string, Experiment>

    constructor (h: Hashes, experiments: map<string, Experiment>)
      ensures this.h == h && !key && issued == {} && this.experiments == experiments
    {
      this.h, this.experiments, key, issued := h, experiments, false, {};
    }

    ghost function Now(): State
      reads this
    {
      State(key, issued, experiments)
    }

    /** `require_approved`. */
    method RequireApproved(name: string, place: Place) returns (r: Result<(), Error>)
      requires name in experiments
      ensures r.Ok? <==> Passes(h, key, experiments[name], place)
      ensures var e := experiments[name]; var intact := AllIntact(h, e) && h.plan(MaterialOf(e)) == e.planHash;
        && (r == Err(Changed) <==> !intact)
        && (r == Err(Missing) <==> intact && e.approval.None?)
        && (r == Err(OtherPlan) <==> intact && e.approval.Some? && e.approval.value.says.planHash != e.planHash)
        && (r == Err(Forged) ==> key) && (r == Err(Unverifiable) ==> !key && place.sandbox)
        && (r.Err? ==> r.error in {Changed, Missing, OtherPlan, Forged, Unverifiable})
    {
      var e := experiments[name];
      var current := Recomputed(h, e);
      if current.Err? { return Err(current.error); }
      if current.value != e.planHash { return Err(Changed); }
      if e.approval.None? { return Err(Missing); }
      if e.approval.value.says.planHash != current.value { return Err(OtherPlan); }
      if key {
        if e.approval.value.seal != Some(e.approval.value.says) { return Err(Forged); }
      } else if place.sandbox && place.hostVerified != Some(current.value) {
        return Err(Unverifiable);
      }
      return Ok(());
    }

    /** `sign`, with the key made when there is none. */
    method Sign(says: Signed) returns (seal: Signed)
      modifies this`key, this`issued
      ensures key && issued == old(issued) + {says} && seal == says
    {
      key := true;
      issued := issued + {says};
      seal := says;
    }

    /** `approve`; `stamp` gives the time, the person and the host. */
    method Approve(name: string, typed: string, place: Place, stamp: Signed) returns (r: Result<(), Error>)
      requires name in experiments
      modifies this
      ensures r.Ok? <==> Approves(h, old(experiments), name, typed, place)
      ensures r == Err(InSandbox) <==> place.sandbox
      ensures r == Err(Changed) <==> !place.sandbox && !AllIntact(h, old(experiments)[name])
      ensures r.Err? ==> r.error in {InSandbox, Changed, WrongCode}
      ensures Now() == if r.Ok? then Granted(h, old(Now()), name, stamp) else old(Now())
    {
      if place.sandbox { return Err(InSandbox); }
      var e := experiments[name];
      var current := Recomputed(h, e);
      if current.Err? { return Err(current.error); }
      if typed != h.code(current.value) { return Err(WrongCode); }
      var says := stamp.(planHash := current.value);
      var seal := Sign(says);
      experiments := experiments[name := e.(approval := Some(ApprovalFile(says, Some(seal))))];
      return Ok(());
    }

    /** `combined_hash`. */
    method CombinedHash(names: seq<string>) returns (r: Result<nat, Error>)
      requires forall n :: n in names ==> n in experiments
      ensures r.Ok? <==> forall n :: n in names ==> AllIntact(h, experiments[n])
      ensures r.Ok? ==> r.value == h.sweep(multiset(PlanHashes(h, experiments, names)))
      ensures r.Err? ==> r.error == Changed
    {
      var hashes: seq<nat> := [];
      for i := 0 to |names|
        invariant forall n :: n in names[..i] ==> AllIntact(h, experiments[n])
        invariant hashes == PlanHashes(h, experiments, names[..i])
      {
        assert names[..i + 1] == names[..i] + [names[i]];
        var current := Recomputed(h, experiments[names[i]]);
        if current.Err? {
          assert names[i] in names;
          return Err(Changed);
        }
        hashes := hashes + [current.value];
      }
      assert names[..|names|] == names;
      return Ok(h.sweep(multiset(hashes)));
    }

    /** `approve` of a sweep: one code for all its experiments. */
    method ApproveSweep(names: seq<string>, combined: nat, typed: string, place: Place, stamp: Signed) returns (r: Result<(), Error>)
      requires forall n :: n in names ==> n in experiments
      modifies this
      ensures r.Ok? <==> ApprovesSweep(h, old(experiments), names, combined, typed, place)
      ensures r == Err(InSandbox) <==> place.sandbox
      ensures r.Err? ==> r.error in {InSandbox, Changed, WrongCode}
      ensures Now() == if r.Ok? then GrantedAll(h, old(Now()).(key := true), names, stamp) else old(Now())
    {
      if place.sandbox { return Err(InSandbox); }
      var current := CombinedHash(names);
      if current.Err? { return Err(current.error); }
      if current.value != combined { return Err(Changed); }
      if typed != h.code(current.value) { return Err(WrongCode); }
      key := true;
      ghost var before := Now();
      for i := 0 to |names|
        invariant Now() == GrantedAll(h, before, names[..i], stamp)
        invariant forall n :: n in names ==> n in experiments && AllIntact(h, experiments[n])
      {
        assert names[i] in names && names[..i + 1][..i] == names[..i];
        var e := experiments[names[i]];
        var says := stamp.(planHash := h.plan(MaterialOf(e)));
        var seal := Sign(says);
        experiments := experiments[names[i] := e.(approval := Some(ApprovalFile(says, Some(seal))))];
        Unsealed(h, e, Some(ApprovalFile(says, Some(seal))));
      }
      assert names[..|names|] == names;
      return Ok(());
    }
  }

  lemma Unsealed(h: Hashes, e: Experiment, approval: Option<ApprovalFile>)
    ensures MaterialOf(e.(approval := approval)) == MaterialOf(e)
    ensures AllIntact(h, e.(approval := approval)) == AllIntact(h, e)
  {
    var f := e.(approval := approval);
    assert forall x :: Intact(h, f, x) == Intact(h, e, x);
  }

  function PlanHashes(h: Hashes, experiments: map<string, Experiment>, names: seq<string>): seq<nat>
    requires forall n :: n in names ==> n in experiments
  {
    seq<nat>(|names|, i requires 0 <= i < |names| => (assert names[i] in names; h.plan(MaterialOf(experiments[names[i]]))))
  }

  // -- what approving does -------------------------------------------------------------------

  datatype State = State(key: bool, issued: set<Signed>, experiments: map<string, Experiment>)

  predicate Approves(h: Hashes, experiments: map<string, Experiment>, name: string, typed: string, place: Place) {
    name in experiments && !place.sandbox && AllIntact(h, experiments[name]) && typed == h.code(h.plan(MaterialOf(experiments[name])))
  }

  /** The experiment's approval is written and signed. */
  function Granted(h: Hashes, s: State, name: string, stamp: Signed): State {
    if name !in s.experiments then s
    else
      var e := s.experiments[name];
      var says := stamp.(planHash := h.plan(MaterialOf(e)));
      State(true, s.issued + {says}, s.experiments[name := e.(approval := Some(ApprovalFile(says, Some(says))))])
  }

  function GrantedAll(h: Hashes, s: State, names: seq<string>, stamp: Signed): State {
    if names == [] then s else Granted(h, GrantedAll(h, s, names[..|names| - 1], stamp), names[|names| - 1], stamp)
  }

  predicate ApprovesSweep(h: Hashes, experiments: map<string, Experiment>, names: seq<string>, combined: nat, typed: string, place: Place) {
    && !place.sandbox && (forall n :: n in names ==> n in experiments && AllIntact(h, experiments[n]))
    && h.sweep(multiset(PlanHashes(h, experiments, names))) == combined && typed == h.code(combined)
  }

  // -- any history ---------------------------------------------------------------------------

  /** Approvals, and anything at all written into experiment folders, planning included. */
  datatype Event =
    | Approve(name: string, typed: string, place: Place, stamp: Signed)
    | ApproveSweep(names: seq<string>, combined: nat, typed: string, place: Place, stamp: Signed)
    | Write(name: string, experiment: Option<Experiment>)

  function After(h: Hashes, s: State, e: Event): State {
    match e
    case Approve(name, typed, place, stamp) =>
      if Approves(h, s.experiments, name, typed, place) then Granted(h, s, name, stamp) else s
    case ApproveSweep(names, combined, typed, place, stamp) =>
      if ApprovesSweep(h, s.experiments, names, combined, typed, place) then GrantedAll(h, s.(key := true), names, stamp) else s
    case Write(name, experiment) =>
      s.(experiments := if experiment.Some? then s.experiments[name := experiment.value] else s.experiments - {name})
  }

  function AfterAll(h: Hashes, s: State, es: seq<Event>): State {
    if es == [] then s else After(h, AfterAll(h, s, es[..|es| - 1]), es[|es| - 1])
  }

  /** A history goes on from where it has got. */
  lemma OneMoreEvent(h: Hashes, s: State, es: seq<Event>, e: Event)
    ensures AfterAll(h, s, []) == s && AfterAll(h, s, es + [e]) == After(h, AfterAll(h, s, es), e)
  {
    assert (es + [e])[..|es|] == es;
  }

  /** A good signature in the folder is one of these. */
  predicate SealIn(e: Experiment, issued: set<Signed>) {
    e.approval.Some? && e.approval.value.seal.Some? ==> e.approval.value.seal.value in issued
  }

  /** Every good signature on disk was issued. */
  predicate Sealed(s: State) {
    forall n :: n in s.experiments ==> SealIn(s.experiments[n], s.issued)
  }

  /** Nobody but `sign` makes a good signature: one that is written down was issued before. */
  predicate Ideal(s: State, e: Event) {
    e.Write? && e.experiment.Some? ==> SealIn(e.experiment.value, s.issued)
  }

  ghost predicate IdealAll(h: Hashes, s: State, es: seq<Event>) {
    forall i :: 0 <= i < |es| ==> Ideal(AfterAll(h, s, es[..i]), es[i])
  }

  /** A step in which a person, outside the sandbox, approved the plan of an intact experiment: the code of
      its plan was typed, or that of all the plans of an intact sweep that it is in. */
  ghost predicate Covers(h: Hashes, s: State, e: Event, name: string) {
    && name in s.experiments && AllIntact(h, s.experiments[name])
    && match e
       case Approve(n, typed, place, _) =>
         n == name && !place.sandbox && typed == h.code(h.plan(MaterialOf(s.experiments[name])))
       case ApproveSweep(names, combined, typed, place, _) =>
         && name in names && !place.sandbox && (forall n :: n in names ==> n in s.experiments && AllIntact(h, s.experiments[n]))
         && typed == h.code(combined) && combined == h.sweep(multiset(PlanHashes(h, s.experiments, names)))
       case Write(_, _) => false
  }

  /** An approval takes place only for the code of the plan as it is on disk, typed outside the sandbox;
      then the experiment carries a signed approval of that plan, and nothing else changes. */
  lemma ApprovingTakesTheCode(h: Hashes, s: State, name: string, typed: string, place: Place, stamp: Signed)
    ensures var t := After(h, s, Approve(name, typed, place, stamp));
      if name in s.experiments && !place.sandbox && AllIntact(h, s.experiments[name])
         && typed == h.code(h.plan(MaterialOf(s.experiments[name])))
      then
        var says := Signed(h.plan(MaterialOf(s.experiments[name])), stamp.at, stamp.approver, stamp.host);
        && t.key && t.issued == s.issued + {says} && t.experiments.Keys == s.experiments.Keys
        && t.experiments[name] == s.experiments[name].(approval := Some(ApprovalFile(says, Some(says))))
        && forall n :: n in s.experiments && n != name ==> t.experiments[n] == s.experiments[n]
      else t == s
  {
  }

  /** The same for a sweep: its one code, over the hashes of all its plans as they are on disk. */
  lemma {:induction false} ApprovingASweepTakesTheCode(
    h: Hashes, s: State, names: seq<string>, combined: nat, typed: string, place: Place, stamp: Signed)
    requires forall n :: n in names ==> n in s.experiments
    ensures var t := After(h, s, ApproveSweep(names, combined, typed, place, stamp));
      if !place.sandbox && (forall n :: n in names ==> AllIntact(h, s.experiments[n]))
         && combined == h.sweep(multiset(PlanHashes(h, s.experiments, names))) && typed == h.code(combined)
      then
        && t.key && t.experiments.Keys == s.experiments.Keys
        && (forall n :: n in names ==> IsApproved(h, t.experiments[n], s.experiments[n]))
        && (forall n :: n in s.experiments && n !in names ==> t.experiments[n] == s.experiments[n])
      else t == s
  {
    if ApprovesSweep(h, s.experiments, names, combined, typed, place) {
      forall n | n in s.experiments
        ensures var t := GrantedAll(h, s.(key := true), names, stamp);
          && t.key && t.experiments.Keys == s.experiments.Keys
          && if n in names then IsApproved(h, t.experiments[n], s.experiments[n]) else t.experiments[n] == s.experiments[n]
      {
        GrantedEach(h, s.(key := true), names, stamp, n);
      }
      GrantedEach(h, s.(key := true), names, stamp, "");
    }
  }

  lemma {:induction false} GrantedEach(h: Hashes, s: State, names: seq<string>, stamp: Signed, n: string)
    requires (forall m :: m in names ==> m in s.experiments) && s.key
    ensures var t := GrantedAll(h, s, names, stamp);
      && t.key && t.experiments.Keys == s.experiments.Keys
      && (n in names ==> IsApproved(h, t.experiments[n], s.experiments[n]))
      && (n in s.experiments && n !in names ==> t.experiments[n] == s.experiments[n])
  {
    if names != [] {
      var init, last := names[..|names| - 1], names[|names| - 1];
      GrantedEach(h, s, init, stamp, n);
      assert forall m :: m in names <==> m in init || m == last;
      var t := GrantedAll(h, s, init, stamp);
      if n == last {
        Unsealed(h, s.experiments[n], t.experiments[n].approval);
        Unsealed(h, s.experiments[n], Granted(h, t, last, stamp).experiments[n].approval);
        if n !in init { assert t.experiments[n] == s.experiments[n]; }
      }
    }
  }

  /** Some step covered a plan with this hash. */
  ghost predicate Covered(h: Hashes, s: State, es: seq<Event>, planHash: nat) {
    exists i, name :: 0 <= i < |es| && Covers(h, AfterAll(h, s, es[..i]), es[i], name)
                      && h.plan(MaterialOf(AfterAll(h, s, es[..i]).experiments[name])) == planHash
  }

  ghost predicate Accounted(h: Hashes, start: State, es: seq<Event>, s: State) {
    Sealed(s) && forall f :: f in s.issued ==> Covered(h, start, es, f.planHash)
  }

  lemma CoveredLater(h: Hashes, start: State, es: seq<Event>, e: Event, planHash: nat)
    requires Covered(h, start, es, planHash)
    ensures Covered(h, start, es + [e], planHash)
  {
    var i, name :| 0 <= i < |es| && Covers(h, AfterAll(h, start, es[..i]), es[i], name)
                   && h.plan(MaterialOf(AfterAll(h, start, es[..i]).experiments[name])) == planHash;
    assert (es + [e])[..i] == es[..i] && (es + [e])[i] == es[i];
  }

  lemma CoveredNow(h: Hashes, start: State, es: seq<Event>, e: Event, name: string)
    requires Covers(h, AfterAll(h, start, es), e, name)
    ensures Covered(h, start, es + [e], h.plan(MaterialOf(AfterAll(h, start, es).experiments[name])))
  {
    assert (es + [e])[..|es|] == es && (es + [e])[|es|] == e;
  }

  /** What granting a list leaves: the code of every experiment as it was, and only these signatures added. */
  lemma {:induction false} GrantedAllSigns(h: Hashes, s: State, names: seq<string>, stamp: Signed)
    requires forall n :: n in names ==> n in s.experiments
    ensures var t := GrantedAll(h, s, names, stamp);
      && t.experiments.Keys == s.experiments.Keys
      && (forall n :: n in s.experiments ==> MaterialOf(t.experiments[n]) == MaterialOf(s.experiments[n]))
      && (Sealed(s) ==> Sealed(t))
      && s.issued <= t.issued
      && (forall f :: f in t.issued && f !in s.issued ==> exists n :: n in names && f.planHash == h.plan(MaterialOf(s.experiments[n])))
  {
    if names != [] {
      var init, last := names[..|names| - 1], names[|names| - 1];
      GrantedAllSigns(h, s, init, stamp);
      var t := GrantedAll(h, s, init, stamp);
      assert last in names;
      var says := stamp.(planHash := h.plan(MaterialOf(t.experiments[last])));
      Unsealed(h, t.experiments[last], Some(ApprovalFile(says, Some(says))));
    }
  }

  lemma StepSeals(h: Hashes, s: State, e: Event)
    requires Sealed(s) && Ideal(s, e)
    ensures Sealed(After(h, s, e))
  {
    if e.ApproveSweep? && ApprovesSweep(h, s.experiments, e.names, e.combined, e.typed, e.place) {
      GrantedAllSigns(h, s.(key := true), e.names, e.stamp);
    }
  }

  lemma StepAccounts(h: Hashes, start: State, es: seq<Event>, e: Event)
    requires Accounted(h, start, es, AfterAll(h, start, es)) && Ideal(AfterAll(h, start, es), e)
    ensures Accounted(h, start, es + [e], After(h, AfterAll(h, start, es), e))
  {
    var s := AfterAll(h, start, es);
    var t := After(h, s, e);
    forall f | f in s.issued ensures Covered(h, start, es + [e], f.planHash) {
      CoveredLater(h, start, es, e, f.planHash);
    }
    StepSeals(h, s, e);
    if e.Approve? && Approves(h, s.experiments, e.name, e.typed, e.place) {
      CoveredNow(h, start, es, e, e.name);
    }
    if e.ApproveSweep? && ApprovesSweep(h, s.experiments, e.names, e.combined, e.typed, e.place) {
      GrantedAllSigns(h, s.(key := true), e.names, e.stamp);
      forall f | f in t.issued && f !in s.issued ensures Covered(h, start, es + [e], f.planHash) {
        var n :| n in e.names && f.planHash == h.plan(MaterialOf(s.experiments[n]));
        CoveredNow(h, start, es, e, n);
      }
    }
  }

  lemma {:induction false} HistoryAccounts(h: Hashes, start: State, es: seq<Event>)
    requires Accounted(h, start, [], start) && IdealAll(h, start, es)
    ensures Accounted(h, start, es, AfterAll(h, start, es))
    decreases |es|
  {
    if es != [] {
      var init, last := es[..|es| - 1], es[|es| - 1];
      forall i | 0 <= i < |init| ensures Ideal(AfterAll(h, start, init[..i]), init[i]) {
        assert init[..i] == es[..i] && init[i] == es[i];
      }
      HistoryAccounts(h, start, init);
      assert es[..|init|] == init && init + [last] == es;
      StepAccounts(h, start, init, last);
    }
  }

  /** Where the key is, nothing runs that a person did not approve: whatever was written into the
      folders in between, some earlier approval, of an experiment or of a sweep, was given to a plan
      with the same code, parameters and inputs. */
  lemma {:induction false} OnlyApprovedPlansRun(h: Hashes, start: State, es: seq<Event>, name: string, place: Place)
    requires Injective(h) && start.issued == {} && Sealed(start) && IdealAll(h, start, es)
    requires var s := AfterAll(h, start, es); s.key && name in s.experiments && Passes(h, true, s.experiments[name], place)
    ensures var e := AfterAll(h, start, es).experiments[name];
      exists i, n :: 0 <= i < |es| && Covers(h, AfterAll(h, start, es[..i]), es[i], n)
                     && Same(e, AfterAll(h, start, es[..i]).experiments[n])
  {
    HistoryAccounts(h, start, es);
    var s := AfterAll(h, start, es);
    var e := s.experiments[name];
    assert e.approval.value.seal.value in s.issued;
    assert Covered(h, start, es, e.planHash);
    var i, n :| 0 <= i < |es| && Covers(h, AfterAll(h, start, es[..i]), es[i], n)
                && h.plan(MaterialOf(AfterAll(h, start, es[..i]).experiments[n])) == e.planHash;
    SameMaterialSameCode(h, e, AfterAll(h, start, es[..i]).experiments[n]);
  }

  /** The experiment `of`, with an approval of its plan that is signed. */
  predicate IsApproved(h: Hashes, e: Experiment, of: Experiment) {
    && e == of.(approval := e.approval) && e.approval.Some?
    && e.approval.value.says.planHash == h.plan(MaterialOf(of))
    && e.approval.value.seal == Some(e.approval.value.says)
  }

  lemma GrantKeepsApproved(h: Hashes, s: State, name: string, of: Experiment, other: string, stamp: Signed)
    requires name in s.experiments && IsApproved(h, s.experiments[name], of)
    ensures var t := Granted(h, s, other, stamp); name in t.experiments && IsApproved(h, t.experiments[name], of)
  {
    Unsealed(h, of, s.experiments[name].approval);
  }

  lemma {:induction false} SweepKeepsApproved(h: Hashes, s: State, name: string, of: Experiment, names: seq<string>, stamp: Signed)
    requires name in s.experiments && IsApproved(h, s.experiments[name], of)
    ensures var t := GrantedAll(h, s, names, stamp); name in t.experiments && IsApproved(h, t.experiments[name], of)
  {
    if names != [] {
      var init, last := names[..|names| - 1], names[|names| - 1];
      SweepKeepsApproved(h, s, name, of, init, stamp);
      GrantKeepsApproved(h, GrantedAll(h, s, init, stamp), name, of, last, stamp);
    }
  }

  lemma {:induction false} StaysApproved(h: Hashes, s: State, name: string, of: Experiment, es: seq<Event>)
    requires name in s.experiments && IsApproved(h, s.experiments[name], of)
    requires forall e :: e in es && e.Write? ==> e.name != name
    ensures var t := AfterAll(h, s, es); name in t.experiments && IsApproved(h, t.experiments[name], of)
  {
    if es != [] {
      var init, last := es[..|es| - 1], es[|es| - 1];
      StaysApproved(h, s, name, of, init);
      var t := AfterAll(h, s, init);
      match last
      case Approve(n, _, _, stamp) => GrantKeepsApproved(h, t, name, of, n, stamp);
      case ApproveSweep(names, _, _, _, stamp) => SweepKeepsApproved(h, t.(key := true), name, of, names, stamp);
      case Write(n, _) => assert last in es && n != name;
    }
  }

  /** An approval lasts: whatever else is approved or written meanwhile, the experiment is let through,
      wherever it runs, exactly when its folder was as planned, for as long as nobody writes into it. */
  lemma {:induction false} ApprovedPasses(
    h: Hashes, s: State, name: string, typed: string, place: Place, stamp: Signed, es: seq<Event>, runs: Place)
    requires Approves(h, s.experiments, name, typed, place)
    requires forall e :: e in es && e.Write? ==> e.name != name
    ensures var t := AfterAll(h, After(h, s, Approve(name, typed, place, stamp)), es);
      name in t.experiments
      && (Passes(h, true, t.experiments[name], runs) <==> s.experiments[name].planHash == h.plan(MaterialOf(s.experiments[name])))
  {
    var of, now := s.experiments[name], After(h, s, Approve(name, typed, place, stamp));
    StaysApproved(h, now, name, of, es);
    Unsealed(h, of, AfterAll(h, now, es).experiments[name].approval);
  }

  /** Whatever is written over an approved experiment, keeping its approval: it is let through exactly
      when its plan still is the one approved. */
  lemma AChangedPlanNeedsANewApproval(
    h: Hashes, s: State, name: string, typed: string, place: Place, stamp: Signed, d: Experiment, runs: Place)
    requires Approves(h, s.experiments, name, typed, place)
    ensures var t := After(h, s, Approve(name, typed, place, stamp));
      var e := d.(approval := t.experiments[name].approval);
      var after := After(h, t, Write(name, Some(e)));
      && name in after.experiments && after.key
      && (Passes(h, true, after.experiments[name], runs)
          <==> AllIntact(h, d) && d.planHash == h.plan(MaterialOf(d)) == h.plan(MaterialOf(s.experiments[name])))
      && name !in After(h, after, Write(name, None)).experiments
  {
    Unsealed(h, d, After(h, s, Approve(name, typed, place, stamp)).experiments[name].approval);
  }

  // -- machines without the key ------------------------------------------------------------------

  /** In the sandbox, which has no key, only what the host checked runs: the host hands over the hash of
      a plan it let through, and nothing passes inside but the same names, code, parameters and inputs. */
  lemma SandboxRunsWhatTheHostChecked(h: Hashes, checked: Experiment, at: Place, e: Experiment, handed: Option<nat>)
    requires Injective(h) && Passes(h, true, checked, at)
    requires handed.Some? ==> handed.value == checked.planHash
    ensures Passes(h, false, e, Place(true, handed)) ==> handed.Some? && Same(e, checked)
    ensures handed.Some? && e == checked ==> Passes(h, false, e, Place(true, handed))
  {
    if Passes(h, false, e, Place(true, handed)) { SameMaterialSameCode(h, e, checked); }
  }

  /** Outside the sandbox a machine without the key takes the approval file at its word, signed or not. */
  lemma WithoutTheKeyTheFileIsBelieved(h: Hashes, e: Experiment, seal: Option<Signed>, says: Signed, handed: Option<nat>)
    ensures Passes(h, false, e.(approval := Some(ApprovalFile(says, seal))), Place(false, handed))
       <==> AllIntact(h, e) && e.planHash == h.plan(MaterialOf(e)) == says.planHash
  {
    Unsealed(h, e, Some(ApprovalFile(says, seal)));
  }
}
