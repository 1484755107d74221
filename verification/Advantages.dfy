/** Totals and group-relative advantages of scored completions: `_flush` and `_advantages` of
    `nawat/lab/trace.py`, over the reals. The square root is a parameter. */
module Advantages {
  import opened Wrappers

  /** A score: missing (`None` or not a number), or a number. */
  datatype Score = Missing | Num(value: real)

  datatype Scale = ByGroup | ByBatch | Unscaled

  const EPSILON := 0.0001

  ghost predicate Root(root: real -> real) {
    forall x :: root(x) >= 0.0
  }

  // -- totals ------------------------------------------------------------------------------

  function Weighted(weights: seq<real>, vals: seq<Score>): real
    requires |weights| == |vals|
  {
    if vals == [] then 0.0
    else
      var k := |vals| - 1;
      Weighted(weights[..k], vals[..k]) + if vals[k].Num? then weights[k] * vals[k].value else 0.0
  }

  /** The weighted sum of the scores that are there; none when none is. */
  function Total(weights: seq<real>, vals: seq<Score>): Option<real>
    requires |weights| == |vals|
  {
    if vals != [] && forall v :: v in vals ==> v.Missing? then None else Some(Weighted(weights, vals))
  }

  // -- advantages ----------------------------------------------------------------------------

  function Present(totals: seq<Option<real>>): seq<real> {
    if totals == [] then []
    else
      var k := |totals| - 1;
      Present(totals[..k]) + if totals[k].Some? then [totals[k].value] else []
  }

  function Sum(v: seq<real>): real {
    if v == [] then 0.0 else Sum(v[..|v| - 1]) + v[|v| - 1]
  }

  function Mean(v: seq<real>): real
    requires v != []
  {
    Sum(v) / |v| as real
  }

  function Square(d: real): real {
    d * d
  }

  function SumOfSquares(v: seq<real>, mean: real): real {
    if v == [] then 0.0
    else
      SumOfSquares(v[..|v| - 1], mean) + Square(v[|v| - 1] - mean)
  }

  /** `_std`, the sample deviation. */
  function Std(v: seq<real>, root: real -> real): real {
    if |v| < 2 then 0.0 else root(SumOfSquares(v, Mean(v)) / (|v| - 1) as real)
  }

  /** What a total is divided by. */
  function Divisor(group: seq<real>, batch: seq<real>, scale: Scale, root: real -> real): (d: real)
    requires Root(root)
    ensures d > 0.0
  {
    match scale
    case ByGroup => Std(group, root) + EPSILON
    case ByBatch => Std(batch, root) + EPSILON
    case Unscaled => 1.0
  }

  function Min(a: nat, b: nat): nat { if a < b then a else b }

  /** The group that starts at `start`. */
  function GroupFrom(totals: seq<Option<real>>, size: nat, start: nat): seq<Option<real>>
    requires start <= |totals|
  {
    totals[start..Min(start + size, |totals|)]
  }

  lemma {:induction false} PresentWhenSome(totals: seq<Option<real>>, i: nat)
    requires i < |totals| && totals[i].Some?
    ensures Present(totals) != []
  {
    if i < |totals| - 1 { PresentWhenSome(totals[..|totals| - 1], i); }
  }

  /** The advantage of member `k` of a group within a batch. */
  function Advantage(group: seq<Option<real>>, k: nat, batch: seq<Option<real>>, scale: Scale, root: real -> real): (a: Option<real>)
    requires Root(root) && k < |group|
    ensures a.None? <==> group[k].None?
  {
    if group[k].None? then None
    else
      PresentWhenSome(group, k);
      Some((group[k].value - Mean(Present(group))) / Divisor(Present(group), Present(batch), scale, root))
  }

  lemma StartsBefore(size: nat, j: nat)
    requires size >= 1
    ensures j == j / size * size + j % size && 0 <= j / size * size <= j
  {
  }

  /** The advantage of completion `j`: member `j % size` of group `j / size`. */
  function AdvantageAt(totals: seq<Option<real>>, size: nat, scale: Scale, root: real -> real, j: nat): Option<real>
    requires size >= 1 && Root(root) && j < |totals|
  {
    StartsBefore(size, j);
    Advantage(GroupFrom(totals, size, j / size * size), j % size, totals, scale, root)
  }

  lemma AtLeast(a: int, b: int)
    requires a >= 1 && b >= 0
    ensures a * b >= b
  {
    assert a * b == (a - 1) * b + b;
  }

  lemma DivideBack(q: nat, size: nat, k: nat)
    requires k < size
    ensures (q * size + k) / size == q && (q * size + k) % size == k
  {
    var n := q * size + k;
    StartsBefore(size, n);
    var d := n / size;
    assert (d - q) * size == d * size - q * size && (q - d) * size == q * size - d * size;
    if d > q { AtLeast(d - q, size); }
    if d < q { AtLeast(q - d, size); }
  }

  /** The advantages of a group within a batch. */
  function AllOf(group: seq<Option<real>>, batch: seq<Option<real>>, scale: Scale, root: real -> real): seq<Option<real>>
    requires Root(root)
  {
    seq(|group|, k requires 0 <= k < |group| => Advantage(group, k, batch, scale, root))
  }

  /** The inner loop of `_advantages`: one group, given what is present of the batch. */
  method OfGroup(group: seq<Option<real>>, batch: seq<Option<real>>, scale: Scale, root: real -> real) returns (out: seq<Option<real>>)
    requires Root(root)
    ensures out == AllOf(group, batch, scale, root)
  {
    out := [];
    var valid, all := Present(group), Present(batch);
    for k := 0 to |group|
      invariant out == AllOf(group, batch, scale, root)[..k]
    {
      var advantage: Option<real> := None;
      if group[k].Some? {
        PresentWhenSome(group, k);
        advantage := Some((group[k].value - Mean(valid)) / Divisor(valid, all, scale, root));
      }
      out := out + [advantage];
    }
  }

  lemma MemberOf(totals: seq<Option<real>>, size: nat, scale: Scale, root: real -> real, q: nat, k: nat)
    requires size >= 1 && Root(root) && k < size && q * size + k < |totals|
    ensures AdvantageAt(totals, size, scale, root, q * size + k) == AllOf(GroupFrom(totals, size, q * size), totals, scale, root)[k]
  {
    DivideBack(q, size, k);
  }

  lemma PartOf(totals: seq<Option<real>>, size: nat, scale: Scale, root: real -> real, q: nat, start: nat)
    requires size >= 1 && Root(root) && start == q * size && start <= |totals|
    ensures var part := AllOf(GroupFrom(totals, size, start), totals, scale, root);
      && |part| == Min(size, |totals| - start) && (q + 1) * size == start + size
      && forall j :: start <= j < start + |part| ==> part[j - start] == AdvantageAt(totals, size, scale, root, j)
  {
    hide Advantage, AdvantageAt;
    var part := AllOf(GroupFrom(totals, size, start), totals, scale, root);
    forall j | start <= j < start + |part| ensures part[j - start] == AdvantageAt(totals, size, scale, root, j) {
      MemberOf(totals, size, scale, root, q, j - start);
    }
  }

  /** `_advantages`, group by group. */
  method ComputeAdvantages(totals: seq<Option<real>>, size: nat, scale: Scale, root: real -> real) returns (out: seq<Option<real>>)
    requires size >= 1 && Root(root)
    ensures |out| == |totals| && forall j :: 0 <= j < |totals| ==> out[j] == AdvantageAt(totals, size, scale, root, j)
  {
    hide Advantage, AdvantageAt, AllOf, GroupFrom;
    out := [];
    var start := 0;
    ghost var q := 0;
    while start < |totals|
      invariant start == q * size && |out| == Min(start, |totals|)
      invariant forall j :: 0 <= j < |out| ==> out[j] == AdvantageAt(totals, size, scale, root, j)
    {
      var part := OfGroup(GroupFrom(totals, size, start), totals, scale, root);
      PartOf(totals, size, scale, root, q, start);
      out := out + part;
      start, q := start + size, q + 1;
    }
  }

  // -- what they are for -----------------------------------------------------------------------

  /** Each value less `m`, divided by `d`. */
  function Centred(v: seq<real>, m: real, d: real): seq<real>
    requires d > 0.0
  {
    seq(|v|, i requires 0 <= i < |v| => (v[i] - m) / d)
  }

  lemma AddQuotients(a: real, b: real, d: real)
    requires d > 0.0
    ensures a / d + b / d == (a + b) / d
  {
  }

  lemma {:induction false} SumCentred(v: seq<real>, m: real, d: real)
    requires d > 0.0
    ensures Sum(Centred(v, m, d)) == (Sum(v) - |v| as real * m) / d
  {
    if v != [] {
      var init, last := v[..|v| - 1], v[|v| - 1];
      SumCentred(init, m, d);
      assert Centred(v, m, d)[..|v| - 1] == Centred(init, m, d);
      CentreOne(Sum(init), |init| as real, last, m, d);
      assert |v| as real == |init| as real + 1.0;
    }
  }

  lemma CentreOne(s: real, n: real, x: real, m: real, d: real)
    requires d > 0.0
    ensures (s - n * m) / d + (x - m) / d == (s + x - (n + 1.0) * m) / d
  {
    assert (n + 1.0) * m == n * m + m;
    AddQuotients(s - n * m, x - m, d);
  }

  /** The advantages that are there: the totals that are there, centred. */
  lemma {:induction false} PresentOfPart(part: seq<Option<real>>, m: real, d: real, out: seq<Option<real>>)
    requires d > 0.0 && |out| == |part|
    requires forall k :: 0 <= k < |part| ==> out[k] == if part[k].None? then None else Some((part[k].value - m) / d)
    ensures Present(out) == Centred(Present(part), m, d)
  {
    if part != [] {
      PresentOfPart(part[..|part| - 1], m, d, out[..|out| - 1]);
    }
  }

  /** The advantages of a group sum to zero, whatever they are scaled by. */
  lemma GroupSumsToZero(group: seq<Option<real>>, batch: seq<Option<real>>, scale: Scale, root: real -> real)
    requires Root(root)
    ensures Sum(Present(AllOf(group, batch, scale, root))) == 0.0
  {
    var v, out := Present(group), AllOf(group, batch, scale, root);
    var d := Divisor(v, Present(batch), scale, root);
    var m := if v == [] then 0.0 else Mean(v);
    forall k | 0 <= k < |group| ensures out[k] == if group[k].None? then None else Some((group[k].value - m) / d) {
      if group[k].Some? { PresentWhenSome(group, k); }
    }
    PresentOfPart(group, m, d, out);
    CentredOnMean(v, d);
  }

  /** Centred on their mean, values sum to zero. */
  lemma CentredOnMean(v: seq<real>, d: real)
    requires d > 0.0
    ensures Sum(Centred(v, if v == [] then 0.0 else Mean(v), d)) == 0.0
  {
    if v != [] {
      SumCentred(v, Mean(v), d);
      var n, s := |v| as real, Sum(v);
      assert n * (s / n) == s;
    }
  }

  function Shift(t: Option<real>, c: real): Option<real> {
    if t.None? then None else Some(t.value + c)
  }

  function Shifted(totals: seq<Option<real>>, c: real): seq<Option<real>> {
    seq(|totals|, k requires 0 <= k < |totals| => Shift(totals[k], c))
  }

  function Raised(v: seq<real>, c: real): seq<real> {
    seq(|v|, k requires 0 <= k < |v| => v[k] + c)
  }

  lemma {:induction false} PresentShifts(totals: seq<Option<real>>, c: real)
    ensures Present(Shifted(totals, c)) == Raised(Present(totals), c)
  {
    if totals != [] {
      PresentShifts(totals[..|totals| - 1], c);
      assert Shifted(totals, c)[..|totals| - 1] == Shifted(totals[..|totals| - 1], c);
    }
  }

  lemma {:induction false} SumRaises(v: seq<real>, c: real)
    ensures Sum(Raised(v, c)) == Sum(v) + |v| as real * c
  {
    if v != [] {
      SumRaises(v[..|v| - 1], c);
      assert Raised(v, c)[..|v| - 1] == Raised(v[..|v| - 1], c);
      assert |v| as real * c == |v[..|v| - 1]| as real * c + c;
    }
  }

  lemma {:induction false} SquaresStay(v: seq<real>, m: real, c: real)
    ensures SumOfSquares(Raised(v, c), m + c) == SumOfSquares(v, m)
  {
    if v != [] {
      SquaresStay(v[..|v| - 1], m, c);
      assert Raised(v, c)[..|v| - 1] == Raised(v[..|v| - 1], c);
    }
  }

  lemma DeviationStays(v: seq<real>, c: real, root: real -> real)
    ensures v != [] ==> Mean(Raised(v, c)) == Mean(v) + c
    ensures Std(Raised(v, c), root) == Std(v, root)
  {
    if v != [] {
      SumRaises(v, c);
      var n := |v| as real;
      AddQuotients(Sum(v), n * c, n);
      assert (n * c) / n == c;
      SquaresStay(v, Mean(v), c);
    }
  }

  /** Raising every total of a batch by the same amount changes no advantage. */
  lemma ShiftChangesNothing(group: seq<Option<real>>, batch: seq<Option<real>>, c: real, scale: Scale, root: real -> real)
    requires Root(root)
    ensures AllOf(Shifted(group, c), Shifted(batch, c), scale, root) == AllOf(group, batch, scale, root)
  {
    PresentShifts(group, c);
    PresentShifts(batch, c);
    DeviationStays(Present(group), c, root);
    DeviationStays(Present(batch), c, root);
    forall k | 0 <= k < |group|
      ensures Advantage(Shifted(group, c), k, Shifted(batch, c), scale, root) == Advantage(group, k, batch, scale, root)
    {
      if group[k].Some? { PresentWhenSome(group, k); }
    }
  }

  /** Unless they are scaled by the batch, only its own totals count for a group: raising them alone
      changes no advantage either. */
  lemma OnlyItsOwnGroupCounts(group: seq<Option<real>>, batch: seq<Option<real>>, other: seq<Option<real>>, c: real, scale: Scale, root: real -> real)
    requires Root(root) && scale != ByBatch
    ensures AllOf(Shifted(group, c), other, scale, root) == AllOf(group, batch, scale, root)
  {
    ShiftChangesNothing(group, batch, c, scale, root);
    forall k | 0 <= k < |group|
      ensures Advantage(Shifted(group, c), k, other, scale, root) == Advantage(Shifted(group, c), k, Shifted(batch, c), scale, root)
    {
    }
  }

  lemma DividingKeepsOrder(x: real, y: real, d: real)
    requires d > 0.0
    ensures x / d < y / d <==> x < y
  {
    var q, r := x / d, y / d;
    assert q * d == x && r * d == y;
    SignOfProduct(r - q, d);
    assert (r - q) * d == r * d - q * d;
  }

  lemma SignOfProduct(a: real, d: real)
    requires d > 0.0
    ensures a > 0.0 <==> a * d > 0.0
  {
  }

  /** Within a group, a better total is a better advantage, and only that. */
  lemma {:induction false} OrderIsKept(group: seq<Option<real>>, i: nat, j: nat, batch: seq<Option<real>>, scale: Scale, root: real -> real)
    requires Root(root) && i < |group| && j < |group| && group[i].Some? && group[j].Some?
    ensures Advantage(group, i, batch, scale, root).value < Advantage(group, j, batch, scale, root).value
       <==> group[i].value < group[j].value
  {
    PresentWhenSome(group, i);
    var m, d := Mean(Present(group)), Divisor(Present(group), Present(batch), scale, root);
    DividingKeepsOrder(group[i].value - m, group[j].value - m, d);
  }

  // -- what is counted, and by what it is divided -----------------------------------------------

  /** What a score adds to the total. */
  function Worth(weight: real, v: Score): real {
    if v.Num? then weight * v.value else 0.0
  }

  /** There is no total exactly when scores are due and all are missing. The total of zeros is zero, and
      changing one score changes it by what that score adds: its weight times it, or nothing. */
  lemma TotalIsTheWeightedSum(weights: seq<real>, vals: seq<Score>, i: nat, v: Score)
    requires |weights| == |vals| && i < |vals|
    ensures Total(weights, vals).None? <==> forall k :: 0 <= k < |vals| ==> vals[k].Missing?
    ensures (forall k :: 0 <= k < |vals| ==> vals[k] == Num(0.0)) ==> Total(weights, vals) == Some(0.0)
    ensures Total(weights, vals).Some? && Total(weights, vals[i := v]).Some? ==>
      Total(weights, vals[i := v]).value == Total(weights, vals).value - Worth(weights[i], vals[i]) + Worth(weights[i], v)
  {
    hide Weighted, Worth;
    OneScore(weights, vals, i, v);
    assert vals[i] in vals;
    if forall k :: 0 <= k < |vals| ==> vals[k] == Num(0.0) { ZerosCount(weights, vals); }
  }

  lemma {:induction false} OneScore(weights: seq<real>, vals: seq<Score>, i: nat, v: Score)
    requires |weights| == |vals| && i < |vals|
    ensures Weighted(weights, vals[i := v]) == Weighted(weights, vals) - Worth(weights[i], vals[i]) + Worth(weights[i], v)
  {
    var k := |vals| - 1;
    if i < k {
      OneScore(weights[..k], vals[..k], i, v);
      assert vals[i := v][..k] == vals[..k][i := v];
    } else {
      assert vals[i := v][..k] == vals[..k];
    }
  }

  lemma {:induction false} ZerosCount(weights: seq<real>, vals: seq<Score>)
    requires |weights| == |vals| && forall k :: 0 <= k < |vals| ==> vals[k] == Num(0.0)
    ensures Weighted(weights, vals) == 0.0
  {
    if vals != [] { ZerosCount(weights[..|vals| - 1], vals[..|vals| - 1]); }
  }

  lemma {:induction false} PresentJoins(a: seq<Option<real>>, b: seq<Option<real>>, x: real)
    ensures Present(a + b) == Present(a) + Present(b) && Present([Some(x)]) == [x] && Present([None]) == []
  {
    if b == [] {
      assert a + b == a;
    } else {
      var k := |b| - 1;
      PresentJoins(a, b[..k], x);
      assert (a + b)[..|a + b| - 1] == a + b[..k];
    }
  }

  lemma {:induction false} SumJoins(a: seq<real>, b: seq<real>, x: real)
    ensures Sum(a + b) == Sum(a) + Sum(b) && Sum([x]) == x
  {
    if b == [] {
      assert a + b == a;
    } else {
      var k := |b| - 1;
      SumJoins(a, b[..k], x);
      assert (a + b)[..|a + b| - 1] == a + b[..k];
    }
  }

  /** The squares of the differences between `x` and each of `v`. */
  function SquaresFrom(v: seq<real>, x: real): seq<real> {
    seq(|v|, i requires 0 <= i < |v| => Square(v[i] - x))
  }

  /** The squares of the differences of every two values, summed. */
  function PairSquares(v: seq<real>): real {
    if v == [] then 0.0 else PairSquares(v[..|v| - 1]) + Sum(SquaresFrom(v[..|v| - 1], v[|v| - 1]))
  }

  lemma {:induction false} SquaresAreSummed(v: seq<real>, x: real)
    ensures Sum(SquaresFrom(v, x)) == SumOfSquares(v, x)
  {
    hide Square;
    if v != [] {
      var k := |v| - 1;
      SquaresAreSummed(v[..k], x);
      assert SquaresFrom(v, x)[..k] == SquaresFrom(v[..k], x);
    }
  }

  /** The sum of the squared deviations from `m` of `n` values with sum `s` and sum of squares `q`. */
  function About(n: real, q: real, s: real, m: real): real {
    q - 2.0 * m * s + n * (m * m)
  }

  /** The sum of the squared differences of every two of them. */
  function Among(n: real, q: real, s: real): real {
    n * q - s * s
  }

  lemma OneMoreAbout(n: real, q: real, s: real, x: real, m: real)
    ensures About(0.0, 0.0, 0.0, m) == 0.0
    ensures About(n, q, s, m) + Square(x - m) == About(n + 1.0, q + Square(x - 0.0), s + x, m)
  {
    assert (x - m) * (x - m) == x * x - 2.0 * m * x + m * m;
    assert 2.0 * m * (s + x) == 2.0 * m * s + 2.0 * m * x;
  }

  lemma OneMoreAmong(n: real, q: real, s: real, x: real)
    ensures Among(0.0, 0.0, 0.0) == 0.0
    ensures Among(n, q, s) + About(n, q, s, x) == Among(n + 1.0, q + Square(x - 0.0), s + x)
  {
    assert (n + 1.0) * (q + x * x) == n * q + n * (x * x) + q + x * x;
    assert (s + x) * (s + x) == s * s + 2.0 * x * s + x * x;
  }

  lemma {:induction false} SquaresExpand(v: seq<real>, m: real)
    ensures SumOfSquares(v, m) == About(|v| as real, SumOfSquares(v, 0.0), Sum(v), m)
  {
    hide Square, About, Among;
    if v == [] {
      OneMoreAbout(0.0, 0.0, 0.0, 0.0, m);
    } else {
      var init := v[..|v| - 1];
      SquaresExpand(init, m);
      OneMoreAbout(|init| as real, SumOfSquares(init, 0.0), Sum(init), v[|v| - 1], m);
    }
  }

  lemma {:induction false} PairsExpand(v: seq<real>)
    ensures PairSquares(v) == Among(|v| as real, SumOfSquares(v, 0.0), Sum(v))
  {
    hide Square, About, Among;
    if v == [] {
      OneMoreAmong(0.0, 0.0, 0.0, 0.0);
    } else {
      var init, x := v[..|v| - 1], v[|v| - 1];
      PairsExpand(init);
      SquaresAreSummed(init, x);
      SquaresExpand(init, x);
      OneMoreAmong(|init| as real, SumOfSquares(init, 0.0), Sum(init), x);
    }
  }

  /** The squared deviations from the mean are the squared differences of every two values, over
      their number. */
  lemma SpreadIsPairwise(v: seq<real>)
    requires v != []
    ensures |v| as real * SumOfSquares(v, Mean(v)) == PairSquares(v)
  {
    hide *;
    TimesMean(v);
    SquaresExpand(v, Mean(v));
    PairsExpand(v);
    Spread(|v| as real, SumOfSquares(v, 0.0), Sum(v), Mean(v));
  }

  lemma TimesMean(v: seq<real>)
    requires v != []
    ensures |v| as real * Mean(v) == Sum(v)
  {
    hide Sum;
  }

  lemma Spread(n: real, q: real, s: real, m: real)
    requires n * m == s
    ensures n * About(n, q, s, m) == Among(n, q, s)
  {
    assert n * (2.0 * m * s) == 2.0 * (n * m) * s;
    assert n * (n * (m * m)) == (n * m) * (n * m);
  }

  /** The sample deviation by differences of pairs. */
  function Deviation(v: seq<real>, root: real -> real): real {
    if |v| < 2 then 0.0 else root(PairSquares(v) / (|v| * (|v| - 1)) as real)
  }

  lemma DeviationIsPairwise(v: seq<real>, root: real -> real)
    ensures Std(v, root) == Deviation(v, root)
  {
    hide Mean, SumOfSquares, PairSquares;
    if |v| >= 2 {
      SpreadIsPairwise(v);
      PairsOf(|v|);
      CancelFactor(|v| as real, SumOfSquares(v, Mean(v)), (|v| - 1) as real, PairSquares(v), (|v| * (|v| - 1)) as real);
    }
  }

  lemma PairsOf(n: nat)
    requires n >= 1
    ensures (n * (n - 1)) as real == n as real * (n - 1) as real
  {
  }

  lemma CancelFactor(n: real, s: real, k: real, p: real, d: real)
    requires n > 0.0 && k > 0.0 && p == n * s && d == n * k
    ensures d > 0.0 && p / d == s / k
  {
    var q := s / k;
    assert q * k == s;
    assert p == n * (q * k) == q * d;
  }

  /** What an advantage is: the total less the mean of the group's totals that are there, over the
      deviation of the group or of the batch and a ten-thousandth, or over nothing. */
  lemma AdvantageExactly(group: seq<Option<real>>, k: nat, batch: seq<Option<real>>, scale: Scale, root: real -> real)
    requires Root(root) && k < |group|
    ensures var a, own, all := Advantage(group, k, batch, scale, root), Present(group), Present(batch);
      if group[k].None? then a == None
      else && a.Some? && own != []
           && |own| as real * a.value * (match scale case ByGroup => Deviation(own, root) + 0.0001
                                                     case ByBatch => Deviation(all, root) + 0.0001 case Unscaled => 1.0)
              == |own| as real * group[k].value - Sum(own)
  {
    hide Present, Sum, Std, Deviation;
    if group[k].Some? {
      PresentWhenSome(group, k);
      var own, all := Present(group), Present(batch);
      DeviationIsPairwise(own, root);
      DeviationIsPairwise(all, root);
      DividedBack(|own| as real, Sum(own), group[k].value, Mean(own), Divisor(own, all, scale, root), Advantage(group, k, batch, scale, root).value);
    }
  }

  /** Whose group: the completions before `j` back to the last multiple of the size, and those after
      it up to the next or to the end. */
  lemma GroupOfPlace(totals: seq<Option<real>>, size: nat, scale: Scale, root: real -> real, j: nat)
    requires size >= 1 && Root(root) && j < |totals|
    ensures var first := j - j % size;
      var group := if first + size <= |totals| then totals[first..first + size] else totals[first..];
      j % size < |group| && AdvantageAt(totals, size, scale, root, j) == Advantage(group, j % size, totals, scale, root)
  {
    hide Advantage;
    StartsBefore(size, j);
    var first := j - j % size;
    assert GroupFrom(totals, size, first) == if first + size <= |totals| then totals[first..first + size] else totals[first..];
  }

  lemma DividedBack(n: real, s: real, t: real, m: real, d: real, a: real)
    requires n > 0.0 && d > 0.0 && m == s / n && a == (t - m) / d
    ensures n * a * d == n * t - s
  {
    assert n * m == s;
    assert a * d == t - m;
    assert n * a * d == n * (a * d) == n * t - n * m;
  }
}
