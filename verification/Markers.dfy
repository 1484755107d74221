/** Rebuilding the artifact rows from the directories themselves: `_walk_markers` and `reconcile` of
    `nawat/cache.py`. */
module Markers {
  import opened Wrappers
  import K = Keys

  const MAX_WALK_DEPTH := 6

  /** Names from the cache root down. */
  type Path = seq<string>
  type Manifest = map<string, nat>

  /** What a marker file says: a key; nothing that can be read as JSON with a key; or something that
      reading it as a key raises on. */
  datatype Marker = Marker(key: K.Key) | Unreadable | Malformed

  /** A directory: its marker, what `scan_local` sees below it, whether it can be listed, and its
      subdirectories in the order they are listed. */
  datatype Dir = Dir(marker: Option<Marker>, files: Manifest, readable: bool, children: seq<Child>)
  datatype Child = Child(name: string, dir: Dir)

  /** Entries the walk enters: not the platform's own, and not the staging or checkpoint roots. */
  predicate Enters(skip: set<Path>, path: Path) {
    path != [] && !(".nawat" <= path[|path| - 1]) && path !in skip
  }

  // -- the walk ----------------------------------------------------------------------

  datatype Frame = Frame(path: Path, dir: Dir)

  /** The frames pushed for a listing. */
  function Pushed(skip: set<Path>, path: Path, children: seq<Child>): seq<Frame> {
    if children == [] then []
    else
      var last := children[|children| - 1];
      Pushed(skip, path, children[..|children| - 1])
      + if Enters(skip, path + [last.name]) then [Frame(path + [last.name], last.dir)] else []
  }

  /** The markers below a directory in the order the walk meets them: last listed first. */
  function Below(skip: set<Path>, path: Path, dir: Dir): seq<Frame>
    decreases dir, 1, 0
  {
    if dir.marker.Some? then [Frame(path, dir)]
    else if |path| >= MAX_WALK_DEPTH || !dir.readable then []
    else BelowAll(skip, path, dir, dir.children)
  }

  function BelowAll(skip: set<Path>, path: Path, parent: Dir, children: seq<Child>): seq<Frame>
    requires forall c :: c in children ==> c.dir < parent
    decreases parent, 0, |children|
  {
    if children == [] then []
    else
      var last := children[|children| - 1];
      (if Enters(skip, path + [last.name]) then Below(skip, path + [last.name], last.dir) else [])
      + BelowAll(skip, path, parent, children[..|children| - 1])
  }

  function OfStack(skip: set<Path>, stack: seq<Frame>): seq<Frame> {
    if stack == [] then []
    else
      var top := stack[|stack| - 1];
      Below(skip, top.path, top.dir) + OfStack(skip, stack[..|stack| - 1])
  }

  /** Directories under a directory, itself included: what the walk uses up. */
  function Weight(dir: Dir): nat
    decreases dir, 1, 0
  {
    1 + WeightAll(dir, dir.children)
  }

  function WeightAll(parent: Dir, children: seq<Child>): nat
    requires forall c :: c in children ==> c.dir < parent
    decreases parent, 0, |children|
  {
    if children == [] then 0
    else Weight(children[|children| - 1].dir) + WeightAll(parent, children[..|children| - 1])
  }

  function StackWeight(stack: seq<Frame>): nat {
    if stack == [] then 0 else Weight(stack[|stack| - 1].dir) + StackWeight(stack[..|stack| - 1])
  }

  /** The stack with a listing pushed onto it, without the last entry of the listing. */
  lemma PushedSplits(skip: set<Path>, path: Path, stack: seq<Frame>, children: seq<Child>)
    requires children != []
    ensures var last := children[|children| - 1]; var below := stack + Pushed(skip, path, children[..|children| - 1]);
      stack + Pushed(skip, path, children)
      == if Enters(skip, path + [last.name]) then below + [Frame(path + [last.name], last.dir)] else below
  {
    var init := Pushed(skip, path, children[..|children| - 1]);
    assert init + [] == init;
  }

  lemma LastChildFirst(skip: set<Path>, path: Path, parent: Dir, children: seq<Child>)
    requires (forall c :: c in children ==> c.dir < parent) && children != []
    ensures var last := children[|children| - 1]; var rest := BelowAll(skip, path, parent, children[..|children| - 1]);
      BelowAll(skip, path, parent, children)
      == if Enters(skip, path + [last.name]) then Below(skip, path + [last.name], last.dir) + rest else rest
  {
    var rest := BelowAll(skip, path, parent, children[..|children| - 1]);
    assert [] + rest == rest;
  }

  lemma {:induction false} PushedOnto(skip: set<Path>, path: Path, parent: Dir, stack: seq<Frame>, children: seq<Child>)
    requires forall c :: c in children ==> c.dir < parent
    ensures OfStack(skip, stack + Pushed(skip, path, children)) == BelowAll(skip, path, parent, children) + OfStack(skip, stack)
    decreases |children|
  {
    if children == [] {
      assert stack + [] == stack && BelowAll(skip, path, parent, children) == [];
      return;
    }
    hide *;
    var init, last := children[..|children| - 1], children[|children| - 1];
    PushedOnto(skip, path, parent, stack, init);
    PushedSplits(skip, path, stack, children);
    LastChildFirst(skip, path, parent, children);
    if Enters(skip, path + [last.name]) {
      OneMoreFrame(skip, stack + Pushed(skip, path, init), Frame(path + [last.name], last.dir));
      InTurn(Below(skip, path + [last.name], last.dir), BelowAll(skip, path, parent, init), OfStack(skip, stack));
    }
  }

  lemma InTurn(a: seq<Frame>, b: seq<Frame>, c: seq<Frame>)
    ensures a + (b + c) == (a + b) + c
  {
  }

  lemma {:induction false} PushedWeighs(skip: set<Path>, path: Path, parent: Dir, stack: seq<Frame>, children: seq<Child>)
    requires forall c :: c in children ==> c.dir < parent
    ensures StackWeight(stack + Pushed(skip, path, children)) <= WeightAll(parent, children) + StackWeight(stack)
    decreases |children|
  {
    if children == [] {
      assert stack + [] == stack;
    } else {
      var init, last := children[..|children| - 1], children[|children| - 1];
      PushedWeighs(skip, path, parent, stack, init);
      PushedSplits(skip, path, stack, children);
      OneMoreFrame(skip, stack + Pushed(skip, path, init), Frame(path + [last.name], last.dir));
    }
  }

  lemma OneMoreFrame(skip: set<Path>, stack: seq<Frame>, frame: Frame)
    ensures OfStack(skip, stack + [frame]) == Below(skip, frame.path, frame.dir) + OfStack(skip, stack)
    ensures StackWeight(stack + [frame]) == Weight(frame.dir) + StackWeight(stack)
  {
    assert (stack + [frame])[..|stack|] == stack;
  }

  /** `_walk_markers`, with its explicit stack. */
  method WalkMarkers(root: Dir, skip: set<Path>) returns (found: seq<Frame>)
    ensures found == Below(skip, [], root)
    ensures forall p, d :: Frame(p, d) in found <==> Shallowest(skip, root, p, d)
    ensures Distinguishable(root) ==> DistinctPaths(found)
  {
    hide Shallowest, Pushed, Distinguishable, DistinctPaths;
    found := [];
    var stack := [Frame([], root)];
    assert OfStack(skip, stack) == Below(skip, [], root) + OfStack(skip, stack[..0]);
    while stack != []
      invariant found + OfStack(skip, stack) == Below(skip, [], root)
      decreases StackWeight(stack)
    {
      var top := stack[|stack| - 1];
      stack := stack[..|stack| - 1];
      if top.dir.marker.Some? {
        found := found + [top];
        continue;
      }
      if |top.path| >= MAX_WALK_DEPTH || !top.dir.readable { continue; }
      PushedOnto(skip, top.path, top.dir, stack, top.dir.children);
      PushedWeighs(skip, top.path, top.dir, stack, top.dir.children);
      stack := stack + Pushed(skip, top.path, top.dir.children);
    }
    forall p, d ensures Frame(p, d) in found <==> Shallowest(skip, root, p, d) {
      ShallowestIsFound(skip, root, p, d);
    }
    if Distinguishable(root) { FoundAreDistinct(skip, [], root); }
  }

  // -- what it finds -------------------------------------------------------------------

  /** The directory that `path` leads to from `dir`. */
  ghost predicate LeadsTo(dir: Dir, path: Path, d: Dir)
    decreases |path|
  {
    if path == [] then dir == d
    else exists c :: c in dir.children && c.name == path[0] && LeadsTo(c.dir, path[1..], d)
  }

  /** A way from `dir`, standing at `base`, to `d`, through unmarked listable directories the walk enters. */
  ghost predicate OpenWay(skip: set<Path>, base: Path, dir: Dir, path: Path, d: Dir)
    decreases |path|
  {
    if path == [] then dir == d
    else
      && dir.marker.None? && dir.readable && |base| < MAX_WALK_DEPTH
      && exists c :: c in dir.children && c.name == path[0] && Enters(skip, base + [c.name])
           && OpenWay(skip, base + [c.name], c.dir, path[1..], d)
  }

  /** A way from `dir` to `d` with nothing marked above `d` and everything above it listable. */
  ghost predicate Way(dir: Dir, path: Path, d: Dir)
    decreases |path|
  {
    if path == [] then dir == d
    else dir.marker.None? && dir.readable && exists c :: c in dir.children && c.name == path[0] && Way(c.dir, path[1..], d)
  }

  /** A marked directory at most six names down, with nothing marked above it and everything above it
      listable, neither at nor below a skipped path or one of the platform's own directories. */
  ghost predicate Shallowest(skip: set<Path>, root: Dir, path: Path, d: Dir) {
    && |path| <= 6 && d.marker.Some? && Way(root, path, d)
    && (forall i :: 0 < i <= |path| ==> path[..i] !in skip) && (forall name :: name in path ==> !(".nawat" <= name))
  }

  ghost predicate Entered(skip: set<Path>, base: Path, path: Path) {
    forall i :: |base| < i <= |base + path| ==> Enters(skip, (base + path)[..i])
  }

  lemma {:induction false} OpenIsEntered(skip: set<Path>, base: Path, dir: Dir, path: Path, d: Dir)
    requires |base + path| <= MAX_WALK_DEPTH
    ensures OpenWay(skip, base, dir, path, d) <==> Way(dir, path, d) && Entered(skip, base, path)
    decreases |path|
  {
    hide Enters;
    if path != [] {
      var on := base + [path[0]];
      assert on + path[1..] == base + path && (base + path)[..|on|] == on;
      assert Entered(skip, base, path) <==> Enters(skip, on) && Entered(skip, on, path[1..]);
      forall c | c in dir.children && c.name == path[0]
        ensures OpenWay(skip, on, c.dir, path[1..], d) <==> Way(c.dir, path[1..], d) && Entered(skip, on, path[1..])
      {
        OpenIsEntered(skip, on, c.dir, path[1..], d);
      }
    }
  }

  lemma ShallowestIsFound(skip: set<Path>, root: Dir, path: Path, d: Dir)
    ensures Frame(path, d) in Below(skip, [], root) <==> Shallowest(skip, root, path, d)
  {
    hide Below, OpenWay, Way;
    FoundAreShallowest(skip, [], root, path, d);
    assert [] + path == path;
    if |path| <= MAX_WALK_DEPTH { OpenIsEntered(skip, [], root, path, d); }
    NamesOnTheWay(skip, path);
  }

  lemma NamesOnTheWay(skip: set<Path>, path: Path)
    ensures Entered(skip, [], path) <==> (forall i :: 0 < i <= |path| ==> path[..i] !in skip) && (forall name :: name in path ==> !(".nawat" <= name))
  {
    var base: Path := [];
    assert base + path == path;
    forall i | 0 < i <= |path| ensures Enters(skip, (base + path)[..i]) <==> path[..i] !in skip && !(".nawat" <= path[i - 1]) {
      assert path[..i][i - 1] == path[i - 1];
    }
    if Entered(skip, base, path) {
      forall name | name in path ensures !(".nawat" <= name) {
        var j :| 0 <= j < |path| && path[j] == name;
        assert Enters(skip, (base + path)[..j + 1]);
      }
      forall i | 0 < i <= |path| ensures path[..i] !in skip {
        assert Enters(skip, (base + path)[..i]);
      }
    } else {
      var i :| 0 < i <= |path| && !Enters(skip, (base + path)[..i]);
      assert path[i - 1] in path;
    }
  }

  lemma {:induction false} BelowAllHas(skip: set<Path>, base: Path, parent: Dir, children: seq<Child>, f: Frame)
    requires forall c :: c in children ==> c.dir < parent
    ensures f in BelowAll(skip, base, parent, children)
       <==> exists c :: c in children && Enters(skip, base + [c.name]) && f in Below(skip, base + [c.name], c.dir)
    decreases |children|
  {
    if children != [] {
      var init, last := children[..|children| - 1], children[|children| - 1];
      BelowAllHas(skip, base, parent, init, f);
      assert forall c :: c in children <==> c in init || c == last;
    }
  }

  lemma {:induction false} FoundAreShallowest(skip: set<Path>, base: Path, dir: Dir, path: Path, d: Dir)
    requires |base| <= MAX_WALK_DEPTH
    ensures Frame(base + path, d) in Below(skip, base, dir)
       <==> |base + path| <= MAX_WALK_DEPTH && d.marker.Some? && OpenWay(skip, base, dir, path, d)
    decreases |path|
  {
    var f := Frame(base + path, d);
    if dir.marker.Some? {
      assert f == Frame(base, dir) <==> path == [] && d == dir by { if base + path == base { assert |path| == 0; } }
    } else if |base| >= MAX_WALK_DEPTH || !dir.readable {
    } else {
      BelowAllHas(skip, base, dir, dir.children, f);
      if path == [] {
        forall c | c in dir.children && Enters(skip, base + [c.name])
          ensures f !in Below(skip, base + [c.name], c.dir)
        {
          BelowIsBelow(skip, base + [c.name], c.dir);
        }
      } else {
        forall c | c in dir.children && Enters(skip, base + [c.name])
          ensures f in Below(skip, base + [c.name], c.dir)
             <==> c.name == path[0] && |base + path| <= MAX_WALK_DEPTH && d.marker.Some? && OpenWay(skip, base + [c.name], c.dir, path[1..], d)
        {
          if c.name == path[0] {
            FoundAreShallowest(skip, base + [c.name], c.dir, path[1..], d);
            assert base + [c.name] + path[1..] == base + path;
          } else {
            BelowIsBelow(skip, base + [c.name], c.dir);
            assert f.path[|base|] == path[0];
          }
        }
      }
    }
  }

  /** Everything found below a directory lies inside it. */
  lemma {:induction false} BelowIsBelow(skip: set<Path>, base: Path, dir: Dir)
    ensures forall f :: f in Below(skip, base, dir) ==> base <= f.path && f.dir.marker.Some?
    decreases dir, 1, 0
  {
    if dir.marker.None? && |base| < MAX_WALK_DEPTH && dir.readable {
      BelowAllIsBelow(skip, base, dir, dir.children);
    }
  }

  lemma {:induction false} BelowAllIsBelow(skip: set<Path>, base: Path, parent: Dir, children: seq<Child>)
    requires forall c :: c in children ==> c.dir < parent
    ensures forall f :: f in BelowAll(skip, base, parent, children) ==>
              f.dir.marker.Some? && exists c :: c in children && base + [c.name] <= f.path
    decreases parent, 0, |children|
  {
    if children != [] {
      var init, last := children[..|children| - 1], children[|children| - 1];
      BelowIsBelow(skip, base + [last.name], last.dir);
      BelowAllIsBelow(skip, base, parent, init);
      assert last in children;
      forall f | f in BelowAll(skip, base, parent, children)
        ensures f.dir.marker.Some? && exists c :: c in children && base + [c.name] <= f.path
      {
        if f in BelowAll(skip, base, parent, init) {
          var c :| c in init && base + [c.name] <= f.path;
          assert c in children;
        }
      }
    }
  }

  /** A directory never lists the same name twice. */
  ghost predicate Distinguishable(dir: Dir)
    decreases dir
  {
    && (forall i, j :: 0 <= i < j < |dir.children| ==> dir.children[i].name != dir.children[j].name)
    && (forall c :: c in dir.children ==> Distinguishable(c.dir))
  }

  ghost predicate DistinctPaths(found: seq<Frame>) {
    forall i, j :: 0 <= i < j < |found| ==> found[i].path != found[j].path
  }

  lemma ConcatIsDistinct(a: seq<Frame>, b: seq<Frame>)
    requires DistinctPaths(a) && DistinctPaths(b)
    requires forall f, g :: f in a && g in b ==> f.path != g.path
    ensures DistinctPaths(a + b)
  {
    var c := a + b;
    forall i, j | 0 <= i < j < |c| ensures c[i].path != c[j].path {
      if i < |a| <= j { assert c[i] in a && c[j] in b; }
    }
  }

  lemma {:induction false} FoundAreDistinct(skip: set<Path>, base: Path, dir: Dir)
    requires Distinguishable(dir)
    ensures DistinctPaths(Below(skip, base, dir))
    decreases dir, 1, 0
  {
    if dir.marker.None? && |base| < MAX_WALK_DEPTH && dir.readable {
      AllFoundAreDistinct(skip, base, dir, dir.children);
    }
  }

  lemma {:induction false} AllFoundAreDistinct(skip: set<Path>, base: Path, parent: Dir, children: seq<Child>)
    requires forall c :: c in children ==> c.dir < parent
    requires forall c :: c in children ==> Distinguishable(c.dir)
    requires forall i, j :: 0 <= i < j < |children| ==> children[i].name != children[j].name
    ensures DistinctPaths(BelowAll(skip, base, parent, children))
    decreases parent, 0, |children|
  {
    if children != [] {
      var init, last := children[..|children| - 1], children[|children| - 1];
      AllFoundAreDistinct(skip, base, parent, init);
      FoundAreDistinct(skip, base + [last.name], last.dir);
      BelowIsBelow(skip, base + [last.name], last.dir);
      BelowAllIsBelow(skip, base, parent, init);
      var here, there := Below(skip, base + [last.name], last.dir), BelowAll(skip, base, parent, init);
      forall f, g | f in here && g in there ensures f.path != g.path {
        var c :| c in init && base + [c.name] <= g.path;
        assert f.path[|base|] == last.name && g.path[|base|] == c.name;
      }
      if Enters(skip, base + [last.name]) {
        ConcatIsDistinct(here, there);
      } else {
        assert [] + there == there;
      }
    }
  }
}
