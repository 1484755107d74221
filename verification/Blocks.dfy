/** Blocks that experiments are built from, and how their content is kept: `Library` of
    `nawat/lab/blocks.py`, with the locking of `plan_experiment` in `nawat/lab/experiment.py`. */
module Blocks {
  import opened Wrappers

  datatype Ref = Ref(kind: string, name: string)

  datatype Error = NotFound | Broken | Edited | Exists | NoOriginal | NothingToSave | Unfit

  datatype Block = Block(ref: Ref, builtin: bool, content: string, sha: nat)
  datatype Lock = Lock(sha: nat, firstUsedBy: string)

  /** The built-in library, the content hash, and whether a file of a kind imports and meets its contract. */
  datatype Shelf = Shelf(builtin: map<Ref, string>, sha: string -> nat, loads: (string, string) -> bool)

  /** The workspace: block files, the lock table, and the copies of originals by their hash. */
  datatype Lab = Lab(files: map<Ref, string>, locks: map<Ref, Lock>, originals: map<nat, string>)

  /** An experiment's frozen copy of a block, with the hash its plan records. */
  datatype Use = Use(experiment: string, ref: Ref, sha: nat, content: string)

  // -- looking up ------------------------------------------------------------------------

  predicate Present(shelf: Shelf, lab: Lab, ref: Ref) {
    ref in shelf.builtin || ref in lab.files
  }

  /** `get`: built-in names come first. */
  function Get(shelf: Shelf, lab: Lab, ref: Ref): Result<Block, Error> {
    if !Present(shelf, lab, ref) then Err(NotFound)
    else
      var content := if ref in shelf.builtin then shelf.builtin[ref] else lab.files[ref];
      if shelf.loads(ref.kind, content) then Ok(Block(ref, ref in shelf.builtin, content, shelf.sha(content))) else Err(Broken)
  }

  /** `check_unchanged` lets the block through. */
  predicate Unchanged(lab: Lab, b: Block) {
    b.builtin || b.ref !in lab.locks || lab.locks[b.ref].sha == b.sha
  }

  /** `_original_content`. */
  function Original(lab: Lab, b: Block): Option<string> {
    if b.builtin || b.ref !in lab.locks || lab.locks[b.ref].sha !in lab.originals then None
    else Some(lab.originals[lab.locks[b.ref].sha])
  }

  /** `lock`. */
  function Locked(lab: Lab, b: Block, experiment: string): Lab {
    if b.builtin || b.ref in lab.locks then lab
    else lab.(originals := lab.originals[b.sha := b.content], locks := lab.locks[b.ref := Lock(b.sha, experiment)])
  }

  function LockedAll(lab: Lab, blocks: seq<Block>, experiment: string): Lab {
    if blocks == [] then lab
    else Locked(LockedAll(lab, blocks[..|blocks| - 1], experiment), blocks[|blocks| - 1], experiment)
  }

  function UseOf(b: Block, experiment: string): Use {
    Use(experiment, b.ref, b.sha, b.content)
  }

  function Uses(blocks: seq<Block>, experiment: string): seq<Use> {
    seq(|blocks|, i requires 0 <= i < |blocks| => UseOf(blocks[i], experiment))
  }

  /** The first of `refs` that cannot be planned with, and why. */
  predicate Refuses(shelf: Shelf, lab: Lab, refs: seq<Ref>, i: nat, error: Error)
    requires i < |refs|
  {
    && AllPlannable(shelf, lab, refs[..i]) && !Plannable(shelf, lab, refs[i])
    && error == var found := Get(shelf, lab, refs[i]); if found.Err? then found.error else Edited
  }

  predicate Plannable(shelf: Shelf, lab: Lab, ref: Ref) {
    Get(shelf, lab, ref).Ok? && Unchanged(lab, Get(shelf, lab, ref).value)
  }

  predicate AllPlannable(shelf: Shelf, lab: Lab, refs: seq<Ref>) {
    forall r :: r in refs ==> Plannable(shelf, lab, r)
  }

  function Blocks(shelf: Shelf, lab: Lab, refs: seq<Ref>): seq<Block>
    requires AllPlannable(shelf, lab, refs)
  {
    seq(|refs|, i requires 0 <= i < |refs| => (assert refs[i] in refs; Get(shelf, lab, refs[i]).value))
  }

  /** What is there under a name: the built-in block first, then the file. */
  predicate Holds(shelf: Shelf, lab: Lab, ref: Ref, content: string) {
    (ref in shelf.builtin && shelf.builtin[ref] == content) || (ref !in shelf.builtin && ref in lab.files && lab.files[ref] == content)
  }

  predicate Free(shelf: Shelf, lab: Lab, ref: Ref) {
    ref !in shelf.builtin && ref !in lab.files
  }

  // -- the library -------------------------------------------------------------------------

  class Library {
    const shelf: Shelf
    var files: map<Ref, string>
    var locks: map<Ref, Lock>
    var originals: map<nat, string>

    constructor (shelf: Shelf, files: map<Ref, string>)
      ensures this.shelf == shelf && Now() == Lab(files, map[], map[])
    {
      this.shelf, this.files, locks, originals := shelf, files, map[], map[];
    }

    function Now(): Lab
      reads this
    {
      Lab(files, locks, originals)
    }

    method LockBlock(b: Block, experiment: string)
      modifies this
      ensures Now() == Locked(old(Now()), b, experiment)
    {
      if b.builtin || b.ref in locks { return; }
      originals := originals[b.sha := b.content];
      locks := locks[b.ref := Lock(b.sha, experiment)];
    }

    /** The part of `plan_experiment` that chooses, freezes and then locks blocks; `fit` is whether
        everything else about the plan is in order. */
    method Plan(experiment: string, refs: seq<Ref>, fit: bool) returns (r: Result<seq<Use>, Error>)
      modifies this
      ensures r.Ok? <==> AllPlannable(shelf, old(Now()), refs) && fit
      ensures r.Err? ==> Now() == old(Now())
      ensures r.Ok? ==> Now() == LockedAll(old(Now()), Blocks(shelf, old(Now()), refs), experiment)
      ensures r.Ok? ==> r.value == Uses(Blocks(shelf, old(Now()), refs), experiment)
      ensures r.Err? && fit ==> exists i :: 0 <= i < |refs| && Refuses(shelf, Now(), refs, i, r.error)
    {
      var blocks: seq<Block> := [];
      for i := 0 to |refs|
        invariant AllPlannable(shelf, Now(), refs[..i]) && blocks == Blocks(shelf, Now(), refs[..i])
      {
        assert refs[..i + 1] == refs[..i] + [refs[i]];
        var found := Get(shelf, Now(), refs[i]);
        if !Plannable(shelf, Now(), refs[i]) {
          ghost var error := if found.Err? then found.error else Edited;
          assert refs[i] in refs && Refuses(shelf, Now(), refs, i, error);
        }
        if found.Err? { return Err(found.error); }
        if !Unchanged(Now(), found.value) { return Err(Edited); }
        blocks := blocks + [found.value];
      }
      assert refs[..|refs|] == refs;
      if !fit { return Err(Unfit); }
      var uses := Uses(blocks, experiment);
      ghost var before := Now();
      for i := 0 to |blocks|
        invariant Now() == LockedAll(before, blocks[..i], experiment)
      {
        assert blocks[..i + 1][..i] == blocks[..i];
        LockBlock(blocks[i], experiment);
      }
      assert blocks[..|blocks|] == blocks;
      return Ok(uses);
    }

    /** `fork`. */
    method Fork(ref: Ref, name: string) returns (r: Result<Block, Error>)
      modifies this
      ensures (Now(), r) == Forked(shelf, old(Now()), ref, name)
    {
      var source := Get(shelf, Now(), ref);
      if source.Err? { return source; }
      var original := Original(Now(), source.value);
      var target := Ref(ref.kind, name);
      if Present(shelf, Now(), target) { return Err(Exists); }
      files := files[target := if original.Some? then original.value else source.value.content];
      r := Get(shelf, Now(), target);
    }

    /** `save_as`. */
    method SaveAs(ref: Ref, name: string) returns (r: Result<(Block, Block), Error>)
      modifies this
      ensures (Now(), r) == Saved(shelf, old(Now()), ref, name)
    {
      var edited := Get(shelf, Now(), ref);
      if edited.Err? { return Err(edited.error); }
      var original := Original(Now(), edited.value);
      if original.None? { return Err(NoOriginal); }
      if shelf.sha(original.value) == edited.value.sha { return Err(NothingToSave); }
      var target := Ref(ref.kind, name);
      if Present(shelf, Now(), target) { return Err(Exists); }
      files := files[target := edited.value.content];
      files := files[ref := original.value];
      var restored := Get(shelf, Now(), ref);
      if restored.Err? { return Err(restored.error); }
      var kept := Get(shelf, Now(), target);
      if kept.Err? { return Err(kept.error); }
      return Ok((restored.value, kept.value));
    }

    /** `new`, from the starter template of the kind, if there is one. */
    method New(ref: Ref, template: Option<string>) returns (r: Result<Block, Error>)
      modifies this
      ensures Now() == Started(shelf, old(Now()), ref, template)
      ensures Now() == if template.Some? && Free(shelf, old(Now()), ref) then old(Now()).(files := old(files)[ref := template.value]) else old(Now())
      ensures template.None? ==> r == Err(NotFound)
      ensures template.Some? && !Free(shelf, old(Now()), ref) ==> r == Err(Exists)
      ensures template.Some? && Free(shelf, old(Now()), ref) ==>
        r == if shelf.loads(ref.kind, template.value) then Ok(Block(ref, false, template.value, shelf.sha(template.value))) else Err(Broken)
    {
      if template.None? { return Err(NotFound); }
      if Present(shelf, Now(), ref) { return Err(Exists); }
      files := files[ref := template.value];
      r := Get(shelf, Now(), ref);
    }
  }

  function Written(lab: Lab, ref: Ref, content: string): Lab {
    lab.(files := lab.files[ref := content])
  }

  function Forked(shelf: Shelf, lab: Lab, ref: Ref, name: string): (Lab, Result<Block, Error>) {
    var source, target := Get(shelf, lab, ref), Ref(ref.kind, name);
    if source.Err? then (lab, source)
    else if Present(shelf, lab, target) then (lab, Err(Exists))
    else
      var original := Original(lab, source.value);
      var after := Written(lab, target, if original.Some? then original.value else source.value.content);
      (after, Get(shelf, after, target))
  }

  function Saved(shelf: Shelf, lab: Lab, ref: Ref, name: string): (Lab, Result<(Block, Block), Error>) {
    var edited, target := Get(shelf, lab, ref), Ref(ref.kind, name);
    if edited.Err? then (lab, Err(edited.error))
    else
      var original := Original(lab, edited.value);
      if original.None? then (lab, Err(NoOriginal))
      else if shelf.sha(original.value) == edited.value.sha then (lab, Err(NothingToSave))
      else if Present(shelf, lab, target) then (lab, Err(Exists))
      else
        var after := Written(Written(lab, target, edited.value.content), ref, original.value);
        var restored, kept := Get(shelf, after, ref), Get(shelf, after, target);
        (after, if restored.Err? then Err(restored.error) else if kept.Err? then Err(kept.error) else Ok((restored.value, kept.value)))
  }

  function Started(shelf: Shelf, lab: Lab, ref: Ref, template: Option<string>): Lab {
    if template.None? || Present(shelf, lab, ref) then lab else Written(lab, ref, template.value)
  }

  // -- any sequence of plans, edits, forks and saves -------------------------------------------

  datatype Event =
    | Plan(experiment: string, refs: seq<Ref>, fit: bool)
    | Edit(ref: Ref, content: Option<string>)
    | Fork(ref: Ref, name: string)
    | SaveAs(ref: Ref, name: string)
    | New(ref: Ref, template: Option<string>)

  datatype World = World(lab: Lab, uses: set<Use>)

  function After(shelf: Shelf, w: World, e: Event): World {
    match e
    case Plan(experiment, refs, fit) =>
      if AllPlannable(shelf, w.lab, refs) && fit then
        World(LockedAll(w.lab, Blocks(shelf, w.lab, refs), experiment),
              w.uses + set b | b in Blocks(shelf, w.lab, refs) :: UseOf(b, experiment))
      else w
    case Edit(ref, content) =>
      w.(lab := if content.Some? then Written(w.lab, ref, content.value) else w.lab.(files := w.lab.files - {ref}))
    case Fork(ref, name) => w.(lab := Forked(shelf, w.lab, ref, name).0)
    case SaveAs(ref, name) => w.(lab := Saved(shelf, w.lab, ref, name).0)
    case New(ref, template) => w.(lab := Started(shelf, w.lab, ref, template))
  }

  function AfterAll(shelf: Shelf, files: map<Ref, string>, es: seq<Event>): World {
    if es == [] then World(Lab(files, map[], map[]), {})
    else After(shelf, AfterAll(shelf, files, es[..|es| - 1]), es[|es| - 1])
  }

  /** A history goes on from where it has got; edits change one file, and the other events do what the
      library's methods do. */
  lemma OneMoreEvent(shelf: Shelf, files: map<Ref, string>, es: seq<Event>, e: Event)
    ensures AfterAll(shelf, files, []) == World(Lab(files, map[], map[]), {})
    ensures var w, v := AfterAll(shelf, files, es), AfterAll(shelf, files, es + [e]);
      && v == After(shelf, w, e)
      && (!e.Plan? ==> v.uses == w.uses && v.lab.locks == w.lab.locks && v.lab.originals == w.lab.originals)
      && (e.Plan? ==> v.lab.files == w.lab.files)
      && (e.Edit? ==> v.lab.files == if e.content.Some? then w.lab.files[e.ref := e.content.value] else w.lab.files - {e.ref})
      && (e.Fork? ==> v.lab == Forked(shelf, w.lab, e.ref, e.name).0)
      && (e.SaveAs? ==> v.lab == Saved(shelf, w.lab, e.ref, e.name).0)
      && (e.New? ==> v.lab == Started(shelf, w.lab, e.ref, e.template))
  {
    assert (es + [e])[..|es|] == es;
    var lab := AfterAll(shelf, files, es).lab;
    if e.Plan? && AllPlannable(shelf, lab, e.refs) { LockingLeavesFiles(lab, Blocks(shelf, lab, e.refs), e.experiment); }
  }

  lemma {:induction false} LockingLeavesFiles(lab: Lab, blocks: seq<Block>, experiment: string)
    ensures LockedAll(lab, blocks, experiment).files == lab.files
  {
    if blocks != [] { LockingLeavesFiles(lab, blocks[..|blocks| - 1], experiment); }
  }

  /** A block can be planned with exactly when it is there, loads, and was never used with another hash. */
  lemma PlannableExactly(shelf: Shelf, lab: Lab, ref: Ref)
    ensures Plannable(shelf, lab, ref) <==> (exists c ::
        Holds(shelf, lab, ref, c) && shelf.loads(ref.kind, c) && (ref !in shelf.builtin && ref in lab.locks ==> lab.locks[ref].sha == shelf.sha(c)))
  {
    if Present(shelf, lab, ref) {
      assert Holds(shelf, lab, ref, if ref in shelf.builtin then shelf.builtin[ref] else lab.files[ref]);
    }
  }

  /** Why planning stops: the block is missing, does not load, or was edited since it was first used. */
  lemma WhyRefused(shelf: Shelf, lab: Lab, refs: seq<Ref>, i: nat, error: Error)
    requires i < |refs| && Refuses(shelf, lab, refs, i, error)
    ensures error == NotFound <==> Free(shelf, lab, refs[i])
    ensures error == Broken <==> exists c :: Holds(shelf, lab, refs[i], c) && !shelf.loads(refs[i].kind, c)
    ensures error == Edited <==> refs[i] in lab.locks && exists c ::
      Holds(shelf, lab, refs[i], c) && shelf.loads(refs[i].kind, c) && refs[i] !in shelf.builtin && lab.locks[refs[i]].sha != shelf.sha(c)
    ensures error in {NotFound, Broken, Edited} && forall k :: 0 <= k < i ==> Plannable(shelf, lab, refs[k])
  {
    if Present(shelf, lab, refs[i]) {
      assert Holds(shelf, lab, refs[i], if refs[i] in shelf.builtin then shelf.builtin[refs[i]] else lab.files[refs[i]]);
    }
    forall k | 0 <= k < i ensures Plannable(shelf, lab, refs[k]) {
      assert refs[..i][k] in refs[..i];
    }
  }

  /** The hash tells contents apart. */
  ghost predicate Injective(shelf: Shelf) {
    forall a, b :: shelf.sha(a) == shelf.sha(b) ==> a == b
  }

  /** Every lock's original is kept, is what its hash says, and loads. */
  ghost predicate OriginalsKept(shelf: Shelf, lab: Lab) {
    && (forall r :: r in lab.locks ==> r !in shelf.builtin && lab.locks[r].sha in lab.originals
                                       && shelf.loads(r.kind, lab.originals[lab.locks[r].sha]))
    && (forall h :: h in lab.originals ==> shelf.sha(lab.originals[h]) == h)
  }

  /** What a use froze is the built-in file, or the recorded original. */
  ghost predicate Traced(shelf: Shelf, lab: Lab, u: Use) {
    && shelf.sha(u.content) == u.sha
    && if u.ref in shelf.builtin then u.content == shelf.builtin[u.ref]
       else u.ref in lab.locks && lab.locks[u.ref].sha == u.sha
  }

  ghost predicate Kept(shelf: Shelf, w: World) {
    OriginalsKept(shelf, w.lab) && forall u :: u in w.uses ==> Traced(shelf, w.lab, u)
  }

  /** Locks are only added, never changed. */
  predicate Grows(before: Lab, after: Lab) {
    forall r :: r in before.locks ==> r in after.locks && after.locks[r] == before.locks[r]
  }

  ghost predicate Sound(shelf: Shelf, lab: Lab, b: Block) {
    && b.builtin == (b.ref in shelf.builtin) && b.sha == shelf.sha(b.content) && shelf.loads(b.ref.kind, b.content)
    && (b.builtin ==> b.content == shelf.builtin[b.ref])
    && (!b.builtin && b.ref in lab.locks ==> lab.locks[b.ref].sha == b.sha)
  }

  lemma LockKeeps(shelf: Shelf, lab: Lab, b: Block, experiment: string)
    requires Injective(shelf) && OriginalsKept(shelf, lab) && Sound(shelf, lab, b)
    ensures OriginalsKept(shelf, Locked(lab, b, experiment)) && Grows(lab, Locked(lab, b, experiment))
    ensures Traced(shelf, Locked(lab, b, experiment), UseOf(b, experiment))
    ensures forall r :: r in Locked(lab, b, experiment).locks && r !in lab.locks ==> r == b.ref && Locked(lab, b, experiment).locks[r] == Lock(b.sha, experiment)
    ensures Locked(lab, b, experiment).files == lab.files
  {
  }

  predicate Agree(blocks: seq<Block>) {
    forall i, j :: 0 <= i < |blocks| && 0 <= j < |blocks| && blocks[i].ref == blocks[j].ref ==> blocks[i].sha == blocks[j].sha
  }

  /** A lock added since is on one of the blocks, with its hash and in the experiment's name. */
  ghost predicate OnlyOn(before: Lab, after: Lab, blocks: seq<Block>, experiment: string) {
    forall r :: r in after.locks && r !in before.locks ==> exists b :: b in blocks && b.ref == r && after.locks[r] == Lock(b.sha, experiment)
  }

  ghost predicate AllTraced(shelf: Shelf, lab: Lab, blocks: seq<Block>, experiment: string) {
    forall b :: b in blocks ==> Traced(shelf, lab, UseOf(b, experiment))
  }

  lemma {:induction false} LockAllKeeps(shelf: Shelf, lab: Lab, blocks: seq<Block>, experiment: string)
    requires Injective(shelf) && OriginalsKept(shelf, lab) && Agree(blocks) && forall b :: b in blocks ==> Sound(shelf, lab, b)
    ensures var after := LockedAll(lab, blocks, experiment);
      OriginalsKept(shelf, after) && Grows(lab, after) && AllTraced(shelf, after, blocks, experiment) && OnlyOn(lab, after, blocks, experiment) && after.files == lab.files
  {
    hide Locked, OriginalsKept, Traced;
    if blocks != [] {
      var init, last := blocks[..|blocks| - 1], blocks[|blocks| - 1];
      LockAllKeeps(shelf, lab, init, experiment);
      var before := LockedAll(lab, init, experiment);
      StillSound(shelf, lab, before, blocks, experiment);
      LockKeeps(shelf, before, last, experiment);
      TracedStays(shelf, before, Locked(before, last, experiment), init, experiment);
      assert blocks == init + [last];
    }
  }

  lemma StillSound(shelf: Shelf, lab: Lab, before: Lab, blocks: seq<Block>, experiment: string)
    requires blocks != [] && Agree(blocks) && Sound(shelf, lab, blocks[|blocks| - 1])
    requires Grows(lab, before) && OnlyOn(lab, before, blocks[..|blocks| - 1], experiment)
    ensures Sound(shelf, before, blocks[|blocks| - 1])
  {
    var init, last := blocks[..|blocks| - 1], blocks[|blocks| - 1];
    if last.ref in before.locks && last.ref !in lab.locks {
      var b :| b in init && b.ref == last.ref && before.locks[last.ref] == Lock(b.sha, experiment);
      assert b in blocks;
    }
  }

  lemma TracedStays(shelf: Shelf, before: Lab, after: Lab, blocks: seq<Block>, experiment: string)
    requires Grows(before, after) && AllTraced(shelf, before, blocks, experiment)
    ensures AllTraced(shelf, after, blocks, experiment)
  {
    forall b | b in blocks ensures Traced(shelf, after, UseOf(b, experiment)) {
      assert Traced(shelf, before, UseOf(b, experiment));
    }
  }

  /** What `plan_experiment` has chosen when nothing was refused. */
  lemma ChosenAreSound(shelf: Shelf, lab: Lab, refs: seq<Ref>)
    requires AllPlannable(shelf, lab, refs)
    ensures Agree(Blocks(shelf, lab, refs)) && forall b :: b in Blocks(shelf, lab, refs) ==> Sound(shelf, lab, b)
    ensures forall b :: b in Blocks(shelf, lab, refs) ==> b.ref in refs && Holds(shelf, lab, b.ref, b.content)
    ensures forall r :: r in refs ==> exists b :: b in Blocks(shelf, lab, refs) && b.ref == r
  {
    var blocks := Blocks(shelf, lab, refs);
    forall i | 0 <= i < |blocks| ensures Sound(shelf, lab, blocks[i]) && blocks[i].ref == refs[i] && refs[i] in refs && Holds(shelf, lab, refs[i], blocks[i].content) {
      assert Plannable(shelf, lab, refs[i]);
    }
    forall r | r in refs ensures exists b :: b in blocks && b.ref == r {
      var i :| 0 <= i < |refs| && refs[i] == r;
      assert blocks[i] in blocks;
    }
  }

  lemma PlanKeeps(shelf: Shelf, w: World, experiment: string, refs: seq<Ref>)
    requires Injective(shelf) && Kept(shelf, w) && AllPlannable(shelf, w.lab, refs)
    ensures Kept(shelf, After(shelf, w, Plan(experiment, refs, true)))
  {
    var blocks := Blocks(shelf, w.lab, refs);
    ChosenAreSound(shelf, w.lab, refs);
    LockAllKeeps(shelf, w.lab, blocks, experiment);
    var after := After(shelf, w, Plan(experiment, refs, true));
    forall u | u in after.uses ensures Traced(shelf, after.lab, u) {
      if u in w.uses { assert Traced(shelf, w.lab, u); }
    }
  }

  lemma {:induction false} HistoryKeeps(shelf: Shelf, files: map<Ref, string>, es: seq<Event>)
    requires Injective(shelf)
    ensures Kept(shelf, AfterAll(shelf, files, es))
    decreases |es|
  {
    if es != [] {
      var w, e := AfterAll(shelf, files, es[..|es| - 1]), es[|es| - 1];
      HistoryKeeps(shelf, files, es[..|es| - 1]);
      if e.Plan? && AllPlannable(shelf, w.lab, e.refs) && e.fit {
        PlanKeeps(shelf, w, e.experiment, e.refs);
      } else {
        assert After(shelf, w, e).lab.locks == w.lab.locks && After(shelf, w, e).lab.originals == w.lab.originals;
        assert After(shelf, w, e).uses == w.uses;
        OnlyFilesChange(shelf, w, After(shelf, w, e));
      }
    }
  }

  lemma OnlyFilesChange(shelf: Shelf, w: World, v: World)
    requires Kept(shelf, w) && v.uses == w.uses && v.lab.locks == w.lab.locks && v.lab.originals == w.lab.originals
    ensures Kept(shelf, v)
  {
    forall u | u in v.uses ensures Traced(shelf, v.lab, u) {
      assert Traced(shelf, w.lab, u);
    }
  }

  /** Whatever is edited in between, every experiment that ever used a block used the same content. */
  lemma OneContentPerName(shelf: Shelf, files: map<Ref, string>, es: seq<Event>, u: Use, v: Use)
    requires Injective(shelf) && u in AfterAll(shelf, files, es).uses && v in AfterAll(shelf, files, es).uses && u.ref == v.ref
    ensures u.sha == v.sha && u.content == v.content
  {
    HistoryKeeps(shelf, files, es);
    var w := AfterAll(shelf, files, es);
    assert Traced(shelf, w.lab, u) && Traced(shelf, w.lab, v);
  }

  /** What an experiment used can always be had back from the recorded original. */
  lemma OriginalIsRecoverable(shelf: Shelf, files: map<Ref, string>, es: seq<Event>, u: Use)
    requires Injective(shelf) && u in AfterAll(shelf, files, es).uses && u.ref !in shelf.builtin
    ensures var lab := AfterAll(shelf, files, es).lab;
      u.ref in lab.locks && lab.locks[u.ref].sha in lab.originals && lab.originals[lab.locks[u.ref].sha] == u.content
  {
    HistoryKeeps(shelf, files, es);
    var w := AfterAll(shelf, files, es);
    assert Traced(shelf, w.lab, u);
  }

  /** An edited block cannot be planned with; one never used, or put back as it was, can. */
  lemma PlannableExactlyWhenAsUsed(shelf: Shelf, files: map<Ref, string>, es: seq<Event>, u: Use)
    requires Injective(shelf) && u in AfterAll(shelf, files, es).uses && u.ref !in shelf.builtin
    ensures var lab := AfterAll(shelf, files, es).lab;
      Plannable(shelf, lab, u.ref) <==> u.ref in lab.files && lab.files[u.ref] == u.content
  {
    HistoryKeeps(shelf, files, es);
    OriginalIsRecoverable(shelf, files, es, u);
  }

  /** A used block can be saved under another name exactly when its file is there, differs from what
      was used, still loads, and the name is free. The original is then back under its own name, ready
      to plan with, the edit is under the new one, and no other file changes; otherwise nothing does. */
  lemma SavingRestores(shelf: Shelf, files: map<Ref, string>, es: seq<Event>, u: Use, name: string)
    requires Injective(shelf) && u in AfterAll(shelf, files, es).uses && u.ref !in shelf.builtin
    ensures var lab := AfterAll(shelf, files, es).lab;
      var (after, r) := Saved(shelf, lab, u.ref, name);
      && (r.Ok? <==> u.ref in lab.files && lab.files[u.ref] != u.content && shelf.loads(u.ref.kind, lab.files[u.ref])
                     && Free(shelf, lab, Ref(u.ref.kind, name)))
      && (r.Err? ==> after == lab)
      && (r.Ok? ==> && r.value.0.content == u.content && r.value.1.content == lab.files[u.ref]
                    && after == lab.(files := lab.files[u.ref := u.content][Ref(u.ref.kind, name) := lab.files[u.ref]])
                    && Plannable(shelf, after, u.ref))
  {
    HistoryKeeps(shelf, files, es);
    OriginalIsRecoverable(shelf, files, es, u);
    var lab, target := AfterAll(shelf, files, es).lab, Ref(u.ref.kind, name);
    if u.ref in lab.files && target != u.ref {
      assert lab.files[target := lab.files[u.ref]][u.ref := u.content] == lab.files[u.ref := u.content][target := lab.files[u.ref]];
    }
  }

  /** Forking a used block needs its file to load and the name to be free. It copies what was used,
      edited since or not, and leaves the source alone. */
  lemma ForkCopiesTheOriginal(shelf: Shelf, files: map<Ref, string>, es: seq<Event>, u: Use, name: string)
    requires Injective(shelf) && u in AfterAll(shelf, files, es).uses && u.ref !in shelf.builtin
    ensures var lab, target := AfterAll(shelf, files, es).lab, Ref(u.ref.kind, name);
      var (after, r) := Forked(shelf, lab, u.ref, name);
      && (r.Ok? <==> u.ref in lab.files && shelf.loads(u.ref.kind, lab.files[u.ref]) && Free(shelf, lab, target))
      && (r.Ok? ==> r.value == Block(target, false, u.content, shelf.sha(u.content)) && after == lab.(files := lab.files[target := u.content]))
      && (r.Err? ==> after == lab)
  {
    HistoryKeeps(shelf, files, es);
    OriginalIsRecoverable(shelf, files, es, u);
  }

  /** A block that is built in, or that no experiment has used, is forked as it stands; it has no
      original, so no edit of it can be saved. */
  lemma ForkOfAnUnusedBlock(shelf: Shelf, lab: Lab, ref: Ref, name: string)
    requires ref in shelf.builtin || ref !in lab.locks
    ensures var (after, r) := Forked(shelf, lab, ref, name);
      var target := Ref(ref.kind, name);
      && (r.Ok? <==> !Free(shelf, lab, ref) && (forall c :: Holds(shelf, lab, ref, c) ==> shelf.loads(ref.kind, c)) && Free(shelf, lab, target))
      && (r.Err? ==> after == lab)
      && (r == Err(NotFound) <==> Free(shelf, lab, ref))
      && (r == Err(Exists) <==> !Free(shelf, lab, target) && exists c :: Holds(shelf, lab, ref, c) && shelf.loads(ref.kind, c))
      && (r.Ok? ==> && Holds(shelf, lab, ref, r.value.content) && r.value == Block(target, false, r.value.content, shelf.sha(r.value.content))
                    && after == lab.(files := lab.files[target := r.value.content]))
    ensures var (after, r) := Saved(shelf, lab, ref, name);
      after == lab && r.Err? && r.error in {NotFound, Broken, NoOriginal} && (r.error == NotFound <==> Free(shelf, lab, ref))
  {
    if Present(shelf, lab, ref) {
      assert Holds(shelf, lab, ref, if ref in shelf.builtin then shelf.builtin[ref] else lab.files[ref]);
    }
  }

  /** A plan that goes through freezes what is there under each name, with its hash, for this
      experiment. It locks exactly the names not locked before, on that hash and in its own name,
      keeps each of their contents as an original, and leaves the files alone. Any other changes nothing. */
  lemma PlanFreezesWhatIsThere(shelf: Shelf, w: World, experiment: string, refs: seq<Ref>, fit: bool)
    requires Injective(shelf) && Kept(shelf, w)
    ensures var v := After(shelf, w, Plan(experiment, refs, fit));
      if fit && forall r :: r in refs ==> Plannable(shelf, w.lab, r) then
        && v.lab.files == w.lab.files
        && w.uses <= v.uses && (forall u :: u in v.uses && u !in w.uses ==> u.experiment == experiment && u.ref in refs)
        && (forall r, c :: r in refs && Holds(shelf, w.lab, r, c) ==> Use(experiment, r, shelf.sha(c), c) in v.uses)
        && (forall r :: r in w.lab.locks ==> r in v.lab.locks && v.lab.locks[r] == w.lab.locks[r])
        && (forall r :: r in v.lab.locks && r !in w.lab.locks ==> r in refs)
        && (forall r :: r in refs && r !in shelf.builtin && r !in w.lab.locks ==>
              r in w.lab.files && r in v.lab.locks && v.lab.locks[r] == Lock(shelf.sha(w.lab.files[r]), experiment)
              && v.lab.locks[r].sha in v.lab.originals && v.lab.originals[v.lab.locks[r].sha] == w.lab.files[r])
      else v == w
  {
    if fit && AllPlannable(shelf, w.lab, refs) {
      var v, blocks := After(shelf, w, Plan(experiment, refs, fit)), Blocks(shelf, w.lab, refs);
      ChosenAreSound(shelf, w.lab, refs);
      LockAllKeeps(shelf, w.lab, blocks, experiment);
      PlanKeeps(shelf, w, experiment, refs);
      forall r, c | r in refs && Holds(shelf, w.lab, r, c) ensures Use(experiment, r, shelf.sha(c), c) in v.uses {
        var b :| b in blocks && b.ref == r;
        assert UseOf(b, experiment) in v.uses;
      }
      forall r | r in refs && r !in shelf.builtin && r !in w.lab.locks
        ensures r in w.lab.files && r in v.lab.locks && v.lab.locks[r] == Lock(shelf.sha(w.lab.files[r]), experiment)
      {
        var b :| b in blocks && b.ref == r;
        assert Traced(shelf, v.lab, UseOf(b, experiment));
        var d :| d in blocks && d.ref == r && v.lab.locks[r] == Lock(d.sha, experiment);
      }
    }
  }

  /** A lock once set stays as it is, with the experiment that first used the block. */
  lemma {:induction false} LocksNeverChange(shelf: Shelf, files: map<Ref, string>, es: seq<Event>, k: nat, r: Ref)
    requires Injective(shelf) && k <= |es| && r in AfterAll(shelf, files, es[..k]).lab.locks
    ensures r in AfterAll(shelf, files, es).lab.locks && AfterAll(shelf, files, es).lab.locks[r] == AfterAll(shelf, files, es[..k]).lab.locks[r]
    decreases |es|
  {
    hide LockedAll, Get, Original, Plannable, Blocks, Kept;
    if k == |es| {
      assert es[..k] == es;
    } else {
      var init, e := es[..|es| - 1], es[|es| - 1];
      assert init[..k] == es[..k];
      LocksNeverChange(shelf, files, init, k, r);
      HistoryKeeps(shelf, files, init);
      if e.Plan? {
        PlanFreezesWhatIsThere(shelf, AfterAll(shelf, files, init), e.experiment, e.refs, e.fit);
      }
    }
  }
}
