/** Audio codes as tokens: the loops of `nawat/lab/library/dataset/tts-snac.py`. */
module Codec {
  import opened Wrappers

  const BAND := 4096

  // -- interleaving ----------------------------------------------------------------------

  /** One frame: a code of the first level, two of the second, four of the third. */
  datatype Codes = Codes(coarse: seq<int>, middle: seq<int>, fine: seq<int>)

  /** Each level holds twice as many codes as the one before. */
  predicate Aligned(c: Codes) {
    |c.middle| == 2 * |c.coarse| && |c.fine| == 4 * |c.coarse|
  }

  /** The loop reads no further than the levels reach. */
  predicate Reaches(c: Codes) {
    |c.middle| >= 2 * |c.coarse| && |c.fine| >= 4 * |c.coarse|
  }

  /** The tokens of frame `i`. */
  predicate IsFrame(tokens: seq<int>, c: Codes, i: nat, start: int)
    requires Reaches(c) && i < |c.coarse| && 7 * i + 7 <= |tokens|
  {
    && tokens[7 * i] == c.coarse[i] + start
    && tokens[7 * i + 1] == c.middle[2 * i] + start + BAND
    && tokens[7 * i + 2] == c.fine[4 * i] + start + 2 * BAND
    && tokens[7 * i + 3] == c.fine[4 * i + 1] + start + 3 * BAND
    && tokens[7 * i + 4] == c.middle[2 * i + 1] + start + 4 * BAND
    && tokens[7 * i + 5] == c.fine[4 * i + 2] + start + 5 * BAND
    && tokens[7 * i + 6] == c.fine[4 * i + 3] + start + 6 * BAND
  }

  predicate Interleaves(tokens: seq<int>, c: Codes, start: int) {
    Reaches(c) && |tokens| == 7 * |c.coarse| && forall i :: 0 <= i < |c.coarse| ==> IsFrame(tokens, c, i, start)
  }

  /** The loop of `tokenise_audio`; reading past a level raises, and the row is skipped. */
  method Interleave(c: Codes, start: int) returns (tokens: Option<seq<int>>)
    ensures tokens.Some? <==> Reaches(c)
    ensures tokens.Some? ==> Interleaves(tokens.value, c, start)
  {
    var all: seq<int> := [];
    for i := 0 to |c.coarse|
      invariant |c.middle| >= 2 * i && |c.fine| >= 4 * i
      invariant |all| == 7 * i
      invariant forall k :: 0 <= k < i ==>
        IsFrame(all, Codes(c.coarse[..i], c.middle[..2 * i], c.fine[..4 * i]), k, start)
    {
      if |c.middle| < 2 * i + 2 || |c.fine| < 4 * i + 4 { return None; }
      ghost var before := all;
      all := all + [c.coarse[i] + start,
                    c.middle[2 * i] + start + BAND,
                    c.fine[4 * i] + start + 2 * BAND,
                    c.fine[4 * i + 1] + start + 3 * BAND,
                    c.middle[2 * i + 1] + start + 4 * BAND,
                    c.fine[4 * i + 2] + start + 5 * BAND,
                    c.fine[4 * i + 3] + start + 6 * BAND];
      ghost var now := Codes(c.coarse[..i + 1], c.middle[..2 * i + 2], c.fine[..4 * i + 4]);
      forall k | 0 <= k < i + 1 ensures IsFrame(all, now, k, start) {
        if k < i {
          EarlierFrame(before, all, Codes(c.coarse[..i], c.middle[..2 * i], c.fine[..4 * i]), now, k, start);
        }
      }
    }
    ghost var read := Codes(c.coarse[..|c.coarse|], c.middle[..2 * |c.coarse|], c.fine[..4 * |c.coarse|]);
    forall i | 0 <= i < |c.coarse| ensures IsFrame(all, c, i, start) {
      EarlierFrame(all, all, read, c, i, start);
    }
    return Some(all);
  }

  /** The seven tokens of frame `i`: bands of 4096 in the order coarse, middle, fine, fine, middle, fine, fine. */
  function Layout(c: Codes, i: nat, start: int): seq<int>
    requires Reaches(c) && i < |c.coarse|
  {
    [start + c.coarse[i], start + 4096 + c.middle[2 * i], start + 8192 + c.fine[4 * i], start + 12288 + c.fine[4 * i + 1],
     start + 16384 + c.middle[2 * i + 1], start + 20480 + c.fine[4 * i + 2], start + 24576 + c.fine[4 * i + 3]]
  }

  lemma FramesAreLaidOut(tokens: seq<int>, c: Codes, start: int)
    requires |c.middle| >= 2 * |c.coarse| && |c.fine| >= 4 * |c.coarse|
    ensures Interleaves(tokens, c, start)
       <==> |tokens| == 7 * |c.coarse| && forall i :: 0 <= i < |c.coarse| ==> tokens[7 * i..7 * i + 7] == Layout(c, i, start)
  {
    if |tokens| == 7 * |c.coarse| {
      forall i | 0 <= i < |c.coarse| ensures IsFrame(tokens, c, i, start) <==> tokens[7 * i..7 * i + 7] == Layout(c, i, start) {
        var frame := tokens[7 * i..7 * i + 7];
        assert frame == [frame[0], frame[1], frame[2], frame[3], frame[4], frame[5], frame[6]];
      }
    }
  }

  lemma EarlierFrame(before: seq<int>, all: seq<int>, was: Codes, now: Codes, k: nat, start: int)
    requires Reaches(was) && Reaches(now) && k < |was.coarse| && 7 * k + 7 <= |before|
    requires before <= all && was.coarse <= now.coarse && was.middle <= now.middle && was.fine <= now.fine
    requires IsFrame(before, was, k, start)
    ensures IsFrame(all, now, k, start)
  {
  }

  /** The levels back from the tokens. */
  function Separate(tokens: seq<int>, start: int): Codes
    requires |tokens| % 7 == 0
  {
    var n := |tokens| / 7;
    Codes(
      seq(n, i requires 0 <= i < n => tokens[7 * i] - start),
      seq(2 * n, j requires 0 <= j < 2 * n =>
        if j % 2 == 0 then tokens[7 * (j / 2) + 1] - start - BAND else tokens[7 * (j / 2) + 4] - start - 4 * BAND),
      seq(4 * n, j requires 0 <= j < 4 * n => tokens[7 * (j / 4) + FinePlace(j % 4)] - start - FinePlace(j % 4) * BAND))
  }

  /** Where in a frame the fine codes stand. */
  function FinePlace(r: nat): (p: nat)
    requires r < 4
    ensures p < 7
  {
    if r == 0 then 2 else if r == 1 then 3 else if r == 2 then 5 else 6
  }

  /** Nothing is lost: the codes come back from the tokens. */
  lemma CodesComeBack(c: Codes, tokens: seq<int>, start: int)
    requires Aligned(c) && Interleaves(tokens, c, start)
    ensures Separate(tokens, start) == c
  {
    var back, n := Separate(tokens, start), |c.coarse|;
    forall i | 0 <= i < n ensures back.coarse[i] == c.coarse[i] {
      assert IsFrame(tokens, c, i, start);
    }
    forall j | 0 <= j < 2 * n ensures back.middle[j] == c.middle[j] {
      MiddleComesBack(c, tokens, start, j);
    }
    forall j | 0 <= j < 4 * n ensures back.fine[j] == c.fine[j] {
      FineComesBack(c, tokens, start, j);
    }
  }

  lemma MiddleComesBack(c: Codes, tokens: seq<int>, start: int, j: nat)
    requires Aligned(c) && Interleaves(tokens, c, start) && j < |c.middle|
    ensures Separate(tokens, start).middle[j] == c.middle[j]
  {
    assert IsFrame(tokens, c, j / 2, start) && j == 2 * (j / 2) + j % 2;
  }

  lemma FineComesBack(c: Codes, tokens: seq<int>, start: int, j: nat)
    requires Aligned(c) && Interleaves(tokens, c, start) && j < |c.fine|
    ensures Separate(tokens, start).fine[j] == c.fine[j]
  {
    assert IsFrame(tokens, c, j / 4, start) && j == 4 * (j / 4) + j % 4;
  }

  /** And every list of whole frames is the interleaving of the codes taken from it. */
  lemma {:induction false} TokensComeBack(tokens: seq<int>, start: int)
    requires |tokens| % 7 == 0
    ensures Aligned(Separate(tokens, start)) && Interleaves(tokens, Separate(tokens, start), start)
  {
    var c := Separate(tokens, start);
    forall i | 0 <= i < |c.coarse| ensures IsFrame(tokens, c, i, start) {
      assert (2 * i) / 2 == i && (2 * i + 1) / 2 == i && (2 * i) % 2 == 0 && (2 * i + 1) % 2 == 1;
      assert (4 * i) / 4 == i && (4 * i + 1) / 4 == i && (4 * i + 2) / 4 == i && (4 * i + 3) / 4 == i;
      assert (4 * i) % 4 == 0 && (4 * i + 1) % 4 == 1 && (4 * i + 2) % 4 == 2 && (4 * i + 3) % 4 == 3;
    }
  }

  predicate IsCode(x: int) { 0 <= x < BAND }

  predicate AllCodes(c: Codes) {
    (forall x :: x in c.coarse ==> IsCode(x)) && (forall x :: x in c.middle ==> IsCode(x)) && (forall x :: x in c.fine ==> IsCode(x))
  }

  /** Each token lies in the band of its place in the frame, so the token alone says its place. */
  predicate InOwnBand(tokens: seq<int>, start: int) {
    forall j :: 0 <= j < |tokens| ==> start + (j % 7) * BAND <= tokens[j] < start + (j % 7 + 1) * BAND
  }

  lemma FrameOf(tokens: seq<int>, c: Codes, j: nat, start: int)
    requires Aligned(c) && Interleaves(tokens, c, start) && j < |tokens|
    ensures exists x :: (x in c.coarse || x in c.middle || x in c.fine) && tokens[j] == x + start + (j % 7) * BAND
  {
    var i := j / 7;
    assert IsFrame(tokens, c, i, start) && j == 7 * i + j % 7;
    assert c.coarse[i] in c.coarse && c.middle[2 * i] in c.middle && c.middle[2 * i + 1] in c.middle;
    assert c.fine[4 * i] in c.fine && c.fine[4 * i + 1] in c.fine && c.fine[4 * i + 2] in c.fine && c.fine[4 * i + 3] in c.fine;
  }

  lemma TokenOf(tokens: seq<int>, c: Codes, x: int, start: int)
    requires Aligned(c) && Interleaves(tokens, c, start) && (x in c.coarse || x in c.middle || x in c.fine)
    ensures exists j :: 0 <= j < |tokens| && tokens[j] == x + start + (j % 7) * BAND
  {
    var at: nat;
    if x in c.coarse {
      var i :| 0 <= i < |c.coarse| && c.coarse[i] == x;
      assert IsFrame(tokens, c, i, start);
      at := 7 * i;
    } else if x in c.middle {
      at := MiddleToken(tokens, c, x, start);
    } else {
      at := FineToken(tokens, c, x, start);
    }
    assert tokens[at] == x + start + (at % 7) * BAND;
  }

  lemma MiddleToken(tokens: seq<int>, c: Codes, x: int, start: int) returns (at: nat)
    requires Aligned(c) && Interleaves(tokens, c, start) && x in c.middle
    ensures at < |tokens| && tokens[at] == x + start + (at % 7) * BAND
  {
    var j :| 0 <= j < |c.middle| && c.middle[j] == x;
    assert IsFrame(tokens, c, j / 2, start) && j == 2 * (j / 2) + j % 2;
    var p := if j % 2 == 0 then 1 else 4;
    at := 7 * (j / 2) + p;
    PlaceInFrame(j / 2, p);
  }

  lemma FineToken(tokens: seq<int>, c: Codes, x: int, start: int) returns (at: nat)
    requires Aligned(c) && Interleaves(tokens, c, start) && x in c.fine
    ensures at < |tokens| && tokens[at] == x + start + (at % 7) * BAND
  {
    var j :| 0 <= j < |c.fine| && c.fine[j] == x;
    var i, r := j / 4, j % 4;
    assert IsFrame(tokens, c, i, start) && j == 4 * i + r;
    at := FineOfFrame(tokens, c, i, r, start);
  }

  lemma FineOfFrame(tokens: seq<int>, c: Codes, i: nat, r: nat, start: int) returns (at: nat)
    requires i < |c.coarse| && r < 4 && Reaches(c) && 7 * i + 7 <= |tokens| && IsFrame(tokens, c, i, start)
    ensures at < |tokens| && tokens[at] == c.fine[4 * i + r] + start + (at % 7) * BAND
  {
    var p := FinePlace(r);
    at := 7 * i + p;
    PlaceInFrame(i, p);
  }

  lemma PlaceInFrame(i: nat, p: nat)
    requires p < 7
    ensures (7 * i + p) % 7 == p
  {
  }

  /** The bands are kept apart exactly by codes below 4096. */
  lemma OwnBandsExactly(tokens: seq<int>, c: Codes, start: int)
    requires Aligned(c) && Interleaves(tokens, c, start)
    ensures InOwnBand(tokens, start) <==> AllCodes(c)
  {
    if AllCodes(c) {
      forall j | 0 <= j < |tokens| ensures start + (j % 7) * BAND <= tokens[j] < start + (j % 7 + 1) * BAND {
        FrameOf(tokens, c, j, start);
      }
    }
    if InOwnBand(tokens, start) {
      forall x | x in c.coarse || x in c.middle || x in c.fine ensures IsCode(x) {
        TokenOf(tokens, c, x, start);
      }
    }
  }

  // -- dropping repeated frames --------------------------------------------------------------

  /** The frames among the first `k` that open a run: the first, and any whose first code differs from
      that of the frame before it. */
  function Openers(vals: seq<int>, k: nat): (kept: seq<int>)
    requires 7 * k <= |vals|
    ensures |kept| % 7 == 0 && |kept| <= 7 * k
  {
    if k == 0 then []
    else Openers(vals, k - 1) + if k == 1 || vals[7 * (k - 1)] != vals[7 * (k - 2)] then vals[7 * (k - 1)..7 * k] else []
  }

  lemma FirstFrame(vals: seq<int>)
    requires |vals| >= 7
    ensures Openers(vals, 1) == vals[..7]
  {
    assert Openers(vals, 0) == [] && vals[..7] == vals[0..7];
    assert Openers(vals, 1) == [] + vals[0..7];
  }

  lemma NextFrame(vals: seq<int>, k: nat, i: nat, kept: seq<int>)
    requires 1 <= k && i == 7 * k && i + 7 <= |vals| && kept == Openers(vals, k)
    requires |kept| >= 7 && kept[|kept| - 7] == vals[i - 7]
    ensures var more := if vals[i] != kept[|kept| - 7] then kept + vals[i..i + 7] else kept;
      more == Openers(vals, k + 1) && more[|more| - 7] == vals[i]
  {
    OpenersNext(vals, k, i);
    hide *;
    if vals[i] == vals[i - 7] {
      assert kept + [] == kept;
    } else {
      StartOfLast(kept, vals[i..i + 7]);
    }
  }

  lemma OpenersNext(vals: seq<int>, k: nat, i: nat)
    requires 1 <= k && i == 7 * k && i + 7 <= |vals|
    ensures Openers(vals, k + 1) == Openers(vals, k) + if vals[i] != vals[i - 7] then vals[i..i + 7] else []
  {
    assert 7 * (k + 1) == i + 7 && 7 * (k + 1 - 2) == i - 7;
  }

  lemma StartOfLast(kept: seq<int>, frame: seq<int>)
    requires |frame| == 7
    ensures (kept + frame)[|kept + frame| - 7] == frame[0]
  {
  }

  /** The loop of `dedupe`, over `n` whole frames. */
  method KeepOpeners(vals: seq<int>, ghost n: nat) returns (kept: seq<int>)
    requires |vals| == 7 * n && n >= 1
    ensures kept == Openers(vals, n)
  {
    hide *;
    kept := vals[..7];
    var i := 7;
    ghost var k := 1;
    FirstFrame(vals);
    while i < |vals|
      invariant 1 <= k <= n && i == 7 * k
      invariant kept == Openers(vals, k)
      invariant |kept| >= 7 && kept[|kept| - 7] == vals[i - 7]
    {
      NextFrame(vals, k, i, kept);
      if vals[i] != kept[|kept| - 7] {
        kept := kept + vals[i..i + 7];
      }
      i, k := i + 7, k + 1;
    }
  }

  /** `dedupe`; a length that is not whole frames raises. */
  method Dedupe(vals: seq<int>) returns (result: Option<seq<int>>)
    ensures result.None? <==> |vals| % 7 != 0
    ensures result.Some? ==> result.value == Openers(vals, |vals| / 7)
  {
    if |vals| % 7 != 0 { return None; }
    if vals == [] { return Some([]); }
    var kept := KeepOpeners(vals, |vals| / 7);
    return Some(kept);
  }

  function FirstCode(vals: seq<int>, k: nat): int
    requires 7 * k < |vals|
  {
    vals[7 * k]
  }

  /** No two neighbouring frames share their first code. */
  ghost predicate NoRuns(vals: seq<int>)
    requires |vals| % 7 == 0
  {
    forall j, k :: 0 <= j && k == j + 1 && k < |vals| / 7 ==> FirstCode(vals, j) != FirstCode(vals, k)
  }

  lemma {:induction false} LastOpener(vals: seq<int>, k: nat)
    requires 0 < k && 7 * k <= |vals|
    ensures var kept := Openers(vals, k); |kept| >= 7 && kept[|kept| - 7] == vals[7 * (k - 1)]
  {
    if k > 1 { LastOpener(vals, k - 1); }
  }

  lemma NoRunsAfter(before: seq<int>, frame: seq<int>)
    requires |before| % 7 == 0 && |before| >= 7 && |frame| == 7 && NoRuns(before)
    requires frame[0] != before[|before| - 7]
    ensures NoRuns(before + frame)
  {
    var n, now := |before| / 7, before + frame;
    assert |before| == 7 * n && |now| == 7 * (n + 1);
    forall i, j | 0 <= i && j == i + 1 && j < |now| / 7 ensures FirstCode(now, i) != FirstCode(now, j) {
      assert now[7 * i] == before[7 * i];
      if j < n {
        assert now[7 * j] == before[7 * j] && FirstCode(before, i) != FirstCode(before, j);
      } else {
        assert j == n && now[7 * n] == frame[0];
      }
    }
  }

  lemma {:induction false} OpenersHaveNoRuns(vals: seq<int>, k: nat)
    requires 7 * k <= |vals|
    ensures NoRuns(Openers(vals, k))
  {
    if k > 0 {
      OpenersHaveNoRuns(vals, k - 1);
      if k > 1 {
        LastOpener(vals, k - 1);
        var before := Openers(vals, k - 1);
        if vals[7 * (k - 1)] == vals[7 * (k - 2)] {
          assert before + [] == before;
        } else {
          NoRunsAfter(before, vals[7 * (k - 1)..7 * k]);
        }
      }
    }
  }

  lemma {:induction false} WithoutRunsAllOpen(vals: seq<int>, k: nat)
    requires |vals| % 7 == 0 && NoRuns(vals) && 7 * k <= |vals|
    ensures Openers(vals, k) == vals[..7 * k]
  {
    if k > 0 {
      WithoutRunsAllOpen(vals, k - 1);
      ItOpens(vals, k);
      hide Openers, NoRuns;
      assert vals[..7 * k] == vals[..7 * (k - 1)] + vals[7 * (k - 1)..7 * k];
    }
  }

  lemma ItOpens(vals: seq<int>, k: nat)
    requires |vals| % 7 == 0 && NoRuns(vals) && 0 < k && 7 * k <= |vals|
    ensures Openers(vals, k) == Openers(vals, k - 1) + vals[7 * (k - 1)..7 * k]
  {
    assert k > 1 ==> FirstCode(vals, k - 2) != FirstCode(vals, k - 1);
  }

  /** How many runs begin among the first `k` frames. */
  function Runs(vals: seq<int>, k: nat): nat
    requires 7 * k <= |vals|
  {
    if k == 0 then 0
    else if k > 1 && vals[7 * k - 7] == vals[7 * k - 14] then Runs(vals, k - 1)
    else Runs(vals, k - 1) + 1
  }

  lemma RunsNext(vals: seq<int>, k: nat)
    requires 1 <= k && 7 * k <= |vals|
    ensures var opens := k == 1 || vals[7 * k - 7] != vals[7 * k - 14];
      && Openers(vals, k) == Openers(vals, k - 1) + (if opens then vals[7 * k - 7..7 * k] else [])
      && Runs(vals, k) == Runs(vals, k - 1) + (if opens then 1 else 0) && Runs(vals, 0) == 0 && Openers(vals, 0) == []
  {
    assert 7 * (k - 1) == 7 * k - 7 && 7 * (k - 2) == 7 * k - 14;
  }

  /** What is kept is one frame for each run, the first of it, in order and whole. */
  lemma {:induction false} EachRunIsKeptOnce(vals: seq<int>, k: nat, i: nat)
    requires i < k && 7 * k <= |vals|
    ensures |Openers(vals, k)| == 7 * Runs(vals, k)
    ensures i == 0 || vals[7 * i] != vals[7 * i - 7] ==>
      Runs(vals, i) < Runs(vals, k) && Openers(vals, k)[7 * Runs(vals, i)..7 * Runs(vals, i) + 7] == vals[7 * i..7 * i + 7]
  {
    if k > 1 { EachRunIsKeptOnce(vals, k - 1, if i < k - 1 then i else 0); }
    RunsNext(vals, k);
    hide Openers, Runs;
    var before, kept := Openers(vals, k - 1), Openers(vals, k);
    assert |before| == 7 * Runs(vals, k - 1) && before <= kept;
    if i < k - 1 && (i == 0 || vals[7 * i] != vals[7 * i - 7]) {
      assert kept[7 * Runs(vals, i)..7 * Runs(vals, i) + 7] == before[7 * Runs(vals, i)..7 * Runs(vals, i) + 7];
    }
  }

  /** Doing it again changes nothing, and it changes nothing exactly when there are no runs. */
  lemma DedupeIsIdempotent(vals: seq<int>)
    requires |vals| % 7 == 0
    ensures var once := Openers(vals, |vals| / 7); Openers(once, |once| / 7) == once
    ensures Openers(vals, |vals| / 7) == vals <==> NoRuns(vals)
  {
    var once := Openers(vals, |vals| / 7);
    OpenersHaveNoRuns(vals, |vals| / 7);
    WithoutRunsAllOpen(once, |once| / 7);
    assert once[..7 * (|once| / 7)] == once && vals[..7 * (|vals| / 7)] == vals;
    if NoRuns(vals) { WithoutRunsAllOpen(vals, |vals| / 7); }
  }

  /** Every frame of the input is preceded by, or is, a kept frame with its first code; so no sound is
      lost, only how long it lasts. */
  lemma {:induction false} NoFirstCodeIsLost(vals: seq<int>, k: nat, i: nat)
    requires 7 * k <= |vals| && i < k
    ensures exists j :: 0 <= j && 7 * j < |Openers(vals, k)| && FirstCode(Openers(vals, k), j) == FirstCode(vals, i)
  {
    LastOpener(vals, k);
    if i == k - 1 {
      var kept := Openers(vals, k);
      var j := |kept| / 7 - 1;
      assert 7 * j == |kept| - 7 && FirstCode(kept, j) == FirstCode(vals, i);
    } else {
      NoFirstCodeIsLost(vals, k - 1, i);
      var before := Openers(vals, k - 1);
      var j :| 0 <= j && 7 * j < |before| && FirstCode(before, j) == FirstCode(vals, i);
      assert FirstCode(Openers(vals, k), j) == FirstCode(before, j);
    }
  }
}
