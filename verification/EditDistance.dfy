/** Levenshtein distance of `nawat/lab/support.py`: the two-row table behind the
    character and word error rates, against edit scripts. */
module EditDistance {
  /** One step of a script read left to right over a source and a target sequence. */
  datatype Edit<T> =
    | Keep(x: T)
    | Insert(y: T)
    | Delete(x: T)
    | Substitute(x: T, y: T)

  /** What one edit takes from the source, what it gives to the target, and its cost. */
  function Consumes<T>(e: Edit<T>): seq<T> {
    match e
    case Keep(x) => [x]
    case Insert(_) => []
    case Delete(x) => [x]
    case Substitute(x, _) => [x]
  }

  function Produces<T>(e: Edit<T>): seq<T> {
    match e
    case Keep(x) => [x]
    case Insert(y) => [y]
    case Delete(_) => []
    case Substitute(_, y) => [y]
  }

  function Price<T>(e: Edit<T>): nat {
    if e.Keep? then 0 else 1
  }

  function Source<T>(script: seq<Edit<T>>): seq<T> {
    if script == [] then [] else Source(script[..|script| - 1]) + Consumes(script[|script| - 1])
  }

  function Target<T>(script: seq<Edit<T>>): seq<T> {
    if script == [] then [] else Target(script[..|script| - 1]) + Produces(script[|script| - 1])
  }

  function Cost<T>(script: seq<Edit<T>>): nat {
    if script == [] then 0 else Cost(script[..|script| - 1]) + Price(script[|script| - 1])
  }

  predicate Turns<T(==)>(script: seq<Edit<T>>, a: seq<T>, b: seq<T>) {
    Source(script) == a && Target(script) == b
  }

  function Min3(x: nat, y: nat, z: nat): nat {
    if x <= y && x <= z then x else if y <= z then y else z
  }

  /** The table entry for a prefix pair, by its recurrence on the last elements. */
  function Distance<T(==)>(a: seq<T>, b: seq<T>): nat
    decreases |a| + |b|
  {
    if |a| == 0 then |b|
    else if |b| == 0 then |a|
    else
      var a', b' := a[..|a| - 1], b[..|b| - 1];
      Min3(Distance(a', b) + 1,
           Distance(a, b') + 1,
           Distance(a', b') + if a[|a| - 1] != b[|b| - 1] then 1 else 0)
  }

  lemma Snoc<T>(script: seq<Edit<T>>, e: Edit<T>)
    ensures Source(script + [e]) == Source(script) + Consumes(e)
    ensures Target(script + [e]) == Target(script) + Produces(e)
    ensures Cost(script + [e]) == Cost(script) + Price(e)
  {
    assert (script + [e])[..|script|] == script;
  }

  /** The last step of a cheapest way from `a` to `b`. */
  lemma LastEdit<T>(a: seq<T>, b: seq<T>) returns (a': seq<T>, b': seq<T>, e: Edit<T>)
    requires a != [] || b != []
    ensures a == a' + Consumes(e) && b == b' + Produces(e)
    ensures |a'| + |b'| < |a| + |b|
    ensures Distance(a, b) == Distance(a', b') + Price(e)
  {
    if |a| == 0 {
      a', b', e := a, b[..|b| - 1], Insert(b[|b| - 1]);
    } else if |b| == 0 {
      a', b', e := a[..|a| - 1], b, Delete(a[|a| - 1]);
    } else if Distance(a, b) == Distance(a, b[..|b| - 1]) + 1 {
      a', b', e := a, b[..|b| - 1], Insert(b[|b| - 1]);
    } else if Distance(a, b) == Distance(a[..|a| - 1], b) + 1 {
      a', b', e := a[..|a| - 1], b, Delete(a[|a| - 1]);
    } else {
      a', b' := a[..|a| - 1], b[..|b| - 1];
      e := if a[|a| - 1] == b[|b| - 1] then Keep(a[|a| - 1]) else Substitute(a[|a| - 1], b[|b| - 1]);
    }
  }

  /** Some script has exactly the table's cost. */
  lemma {:induction false} Best<T>(a: seq<T>, b: seq<T>) returns (script: seq<Edit<T>>)
    ensures Turns(script, a, b)
    ensures Cost(script) == Distance(a, b)
    decreases |a| + |b|
  {
    if a == [] && b == [] {
      script := [];
    } else {
      var a', b', e := LastEdit(a, b);
      script := Best(a', b');
      Snoc(script, e);
      script := script + [e];
    }
  }

  /** No script beats the table. */
  lemma {:induction false} NoScriptIsCheaper<T>(script: seq<Edit<T>>)
    ensures Distance(Source(script), Target(script)) <= Cost(script)
    decreases |script|
  {
    if script != [] {
      var rest, e := script[..|script| - 1], script[|script| - 1];
      NoScriptIsCheaper(rest);
      OneMoreEdit(Source(rest), Target(rest), e);
    }
  }

  lemma OneMoreEdit<T>(a: seq<T>, b: seq<T>, e: Edit<T>)
    ensures Distance(a + Consumes(e), b + Produces(e)) <= Distance(a, b) + Price(e)
  {
    var a', b' := a + Consumes(e), b + Produces(e);
    if !e.Insert? { assert a'[..|a'| - 1] == a; } else { assert a' == a; }
    if !e.Delete? { assert b'[..|b'| - 1] == b; } else { assert b' == b; }
    if |a| == 0 && e.Insert? { assert Distance(a', b') == |b'|; }
  }

  lemma TableEntry<T>(a: seq<T>, b: seq<T>, i: nat, j: nat)
    requires i < |a| && j < |b|
    ensures Distance(a[..i + 1], b[..j + 1])
         == Min3(Distance(a[..i], b[..j + 1]) + 1,
                 Distance(a[..i + 1], b[..j]) + 1,
                 Distance(a[..i], b[..j]) + if a[i] != b[j] then 1 else 0)
  {
    assert a[..i + 1][..i] == a[..i] && b[..j + 1][..j] == b[..j];
  }

  /** The first `n` entries of row `i` of the table. */
  ghost predicate IsRow<T>(row: seq<nat>, a: seq<T>, b: seq<T>, i: nat, n: nat)
    requires i <= |a| && n <= |b| + 1
  {
    |row| == n && forall j :: 0 <= j < n ==> row[j] == Distance(a[..i], b[..j])
  }

  lemma NextEntry<T>(a: seq<T>, b: seq<T>, i: nat, j: nat, previous: seq<nat>, current: seq<nat>)
    requires i < |a| && j < |b| && IsRow(previous, a, b, i, |b| + 1) && IsRow(current, a, b, i + 1, j + 1)
    ensures IsRow(current + [Min3(previous[j + 1] + 1, current[j] + 1, previous[j] + if a[i] != b[j] then 1 else 0)], a, b, i + 1, j + 2)
  {
    TableEntry(a, b, i, j);
  }

  /** The program's loop: one row of the table at a time, two rows kept.
      Its result is the least cost over all scripts turning `a` into `b`. */
  method EditDistance<T(==)>(a: seq<T>, b: seq<T>) returns (d: nat)
    ensures d == Distance(a, b)
    ensures exists script :: Turns(script, a, b) && Cost(script) == d
    ensures forall script :: Turns(script, a, b) ==> d <= Cost(script)
  {
    var previous: seq<nat> := seq(|b| + 1, j => j);
    for i := 0 to |a|
      invariant IsRow(previous, a, b, i, |b| + 1)
    {
      var current: seq<nat> := [i + 1];
      for j := 0 to |b|
        invariant IsRow(current, a, b, i + 1, j + 1)
      {
        NextEntry(a, b, i, j, previous, current);
        current := current + [Min3(previous[j + 1] + 1, current[j] + 1, previous[j] + if a[i] != b[j] then 1 else 0)];
      }
      previous := current;
    }
    assert a[..|a|] == a && b[..|b|] == b;
    d := previous[|b|];
    DistanceIsLeast(a, b);
  }

  /** The distance is the cost of the cheapest script. */
  lemma DistanceIsLeast<T>(a: seq<T>, b: seq<T>)
    ensures exists script :: Turns(script, a, b) && Cost(script) == Distance(a, b)
    ensures forall script :: Turns(script, a, b) ==> Distance(a, b) <= Cost(script)
  {
    var _ := Best(a, b);
    forall script | Turns(script, a, b) ensures Distance(a, b) <= Cost(script) {
      NoScriptIsCheaper(script);
    }
  }

  // -- the distance is a metric ------------------------------------------------

  /** A script of cost zero only keeps. */
  lemma {:induction false} FreeScriptKeeps<T>(script: seq<Edit<T>>)
    requires Cost(script) == 0
    ensures Source(script) == Target(script)
    decreases |script|
  {
    if script != [] { FreeScriptKeeps(script[..|script| - 1]); }
  }

  lemma {:induction false} KeepingIsFree<T>(a: seq<T>)
    ensures Distance(a, a) == 0
    decreases |a|
  {
    if a != [] { KeepingIsFree(a[..|a| - 1]); }
  }

  lemma {:induction false} ZeroExactlyOnEqual<T>(a: seq<T>, b: seq<T>)
    ensures Distance(a, b) == 0 <==> a == b
  {
    if a == b {
      KeepingIsFree(a);
    } else if Distance(a, b) == 0 {
      var script := Best(a, b);
      FreeScriptKeeps(script);
    }
  }

  lemma {:induction false} Symmetric<T>(a: seq<T>, b: seq<T>)
    ensures Distance(a, b) == Distance(b, a)
    decreases |a| + |b|
  {
    if |a| > 0 && |b| > 0 {
      Symmetric(a[..|a| - 1], b);
      Symmetric(a, b[..|b| - 1]);
      Symmetric(a[..|a| - 1], b[..|b| - 1]);
    }
  }

  /** Every single change costs one: another element in a place, one element left out, one put in. */
  lemma OneChangeCostsOne<T>(a: seq<T>, i: nat, x: T)
    requires i < |a|
    ensures a[i] != x ==> Distance(a, a[i := x]) == 1
    ensures Distance(a, a[..i] + a[i + 1..]) == 1 == Distance(a[..i] + a[i + 1..], a)
  {
    AtMostOne(a, i, x);
    ZeroExactlyOnEqual(a, a[i := x]);
    ZeroExactlyOnEqual(a, a[..i] + a[i + 1..]);
    assert |a[..i] + a[i + 1..]| == |a| - 1;
    Symmetric(a, a[..i] + a[i + 1..]);
  }

  lemma {:induction false} AtMostOne<T>(a: seq<T>, i: nat, x: T)
    requires i < |a|
    ensures Distance(a, a[i := x]) <= 1 && Distance(a, a[..i] + a[i + 1..]) <= 1
    decreases |a|
  {
    hide Distance;
    var init, last := a[..|a| - 1], a[|a| - 1];
    assert init + [last] == a;
    if i == |a| - 1 {
      KeepingIsFree(init);
      OneMoreEdit(init, init, Substitute(last, x));
      OneMoreEdit(init, init, Delete(last));
      assert a[i := x] == init + [x] && a[..i] + a[i + 1..] == init + [];
    } else {
      AtMostOne(init, i, x);
      OneMoreEdit(init, init[i := x], Keep(last));
      OneMoreEdit(init, init[..i] + init[i + 1..], Keep(last));
      assert a[i := x] == init[i := x] + [last];
      assert a[..i] + a[i + 1..] == init[..i] + init[i + 1..] + [last];
    }
  }

  /** The length of one side is at most the distance and the length of the other. */
  lemma {:induction false} LengthsBound<T>(a: seq<T>, b: seq<T>)
    ensures |a| <= Distance(a, b) + |b| && |b| <= Distance(a, b) + |a| && Distance(a, b) <= |a| + |b|
    decreases |a| + |b|
  {
    if a != [] && b != [] {
      LengthsBound(a[..|a| - 1], b);
      LengthsBound(a, b[..|b| - 1]);
      LengthsBound(a[..|a| - 1], b[..|b| - 1]);
    }
  }

  /** The four entries of a table around one corner, and the two elements compared there. */
  datatype Corner<T> = Corner(here: nat, up: nat, left: nat, diagonal: nat, x: T, y: T)

  ghost predicate IsCorner<T>(q: Corner<T>) {
    q.here == Min3(q.up + 1, q.left + 1, q.diagonal + if q.x != q.y then 1 else 0)
  }

  function CornerOf<T(==)>(a: seq<T>, b: seq<T>): (q: Corner<T>)
    requires a != [] && b != []
    ensures IsCorner(q)
  {
    var a', b' := a[..|a| - 1], b[..|b| - 1];
    Corner(Distance(a, b), Distance(a', b), Distance(a, b'), Distance(a', b'), a[|a| - 1], b[|b| - 1])
  }

  /** The triangle inequality at a corner, from the corners around it. */
  lemma FromNeighbours<T>(ab: Corner<T>, bc: Corner<T>, ac: Corner<T>)
    requires IsCorner(ab) && IsCorner(bc) && IsCorner(ac)
    requires ab.x == ac.x && ab.y == bc.x && bc.y == ac.y
    requires ac.up <= ab.up + bc.here && ac.left <= ab.here + bc.left && ac.here <= ab.left + bc.up
    requires ac.up <= ab.diagonal + bc.up && ac.left <= ab.left + bc.diagonal && ac.diagonal <= ab.diagonal + bc.diagonal
    ensures ac.here <= ab.here + bc.here
  {
  }

  lemma {:induction false} Triangle<T>(a: seq<T>, b: seq<T>, c: seq<T>)
    ensures Distance(a, c) <= Distance(a, b) + Distance(b, c)
    decreases |a| + |b| + |c|
  {
    if a == [] || b == [] || c == [] {
      LengthsBound(a, b);
      LengthsBound(b, c);
      LengthsBound(a, c);
    } else {
      var a', b', c' := a[..|a| - 1], b[..|b| - 1], c[..|c| - 1];
      Triangle(a', b, c);
      Triangle(a, b, c');
      Triangle(a, b', c);
      Triangle(a', b', c);
      Triangle(a, b', c');
      Triangle(a', b', c');
      FromNeighbours(CornerOf(a, b), CornerOf(b, c), CornerOf(a, c));
    }
  }
}
