/** The values of a sweep axis: `split_values` of `nawat/lab/sweep.py`. */
module Sweep {
  import K = Keys

  /** Bracket depth, and the quote that is open. */
  datatype Scan = Scan(depth: int, quote: string)

  const REST := Scan(0, "")

  predicate Quoted(st: Scan) { st.quote != "" }

  predicate IsQuote(c: char) { c == '"' || c == '\'' }

  /** A comma that separates: outside quotes and brackets. */
  predicate Cuts(st: Scan, c: char) {
    !Quoted(st) && c == ',' && st.depth == 0
  }

  function Step(st: Scan, c: char): Scan {
    if Quoted(st) then (if [c] == st.quote then st.(quote := "") else st)
    else if IsQuote(c) then st.(quote := [c])
    else if c == '[' || c == '{' then st.(depth := st.depth + 1)
    else if c == ']' || c == '}' then st.(depth := st.depth - 1)
    else st
  }

  function After(st: Scan, s: string): Scan
    decreases |s|
  {
    if s == [] then st else After(Step(st, s[0]), s[1..])
  }

  /** No comma of `s` separates. */
  predicate Quiet(st: Scan, s: string)
    decreases |s|
  {
    s == [] || (!Cuts(st, s[0]) && Quiet(Step(st, s[0]), s[1..]))
  }

  /** The text between separating commas. */
  function Pieces(st: Scan, s: string): (parts: seq<string>)
    ensures |parts| > 0
    decreases |s|
  {
    if s == [] then [[]]
    else
      var rest := Pieces(Step(st, s[0]), s[1..]);
      if Cuts(st, s[0]) then [[]] + rest else [[s[0]] + rest[0]] + rest[1..]
  }

  function Trim(s: string): string {
    K.Strip(s, K.IsSpace)
  }

  /** What a piece gives: its trimmed text, or nothing when that is blank. */
  function Value(piece: string): seq<string> {
    var t := Trim(piece);
    if t == [] then [] else [t]
  }

  function Values(parts: seq<string>): seq<string> {
    if parts == [] then [] else Value(parts[0]) + Values(parts[1..])
  }

  function Split(text: string): seq<string> {
    Values(Pieces(REST, text))
  }

  function Join(values: seq<string>): string {
    if values == [] then [] else if |values| == 1 then values[0] else values[0] + "," + Join(values[1..])
  }

  // -- the loop ------------------------------------------------------------------------

  lemma Regroup(a: seq<string>, b: seq<string>, c: seq<string>)
    ensures a + (b + c) == (a + b) + c
  {
  }

  lemma {:induction false} ValuesInTurn(a: seq<string>, b: seq<string>)
    ensures Values(a + b) == Values(a) + Values(b)
  {
    hide Value;
    if a == [] {
      assert a + b == b;
    } else {
      ValuesInTurn(a[1..], b);
      assert (a + b)[1..] == a[1..] + b && (a + b)[0] == a[0];
      Regroup(Value(a[0]), Values(a[1..]), Values(b));
    }
  }

  function Trimmed(parts: seq<string>): seq<string> {
    seq(|parts|, i requires 0 <= i < |parts| => Trim(parts[i]))
  }

  /** The pieces of a text whose first pieces are closed and whose current one is open. */
  function Assembled(closed: seq<string>, current: string, rest: seq<string>): seq<string>
    requires rest != []
  {
    closed + [current + rest[0]] + rest[1..]
  }

  /** `split_values`. */
  method SplitValues(text: string) returns (values: seq<string>)
    ensures values == Split(text)
  {
    var out: seq<string>, current: string, st := [], [], REST;
    ghost var closed: seq<string> := [];
    NothingYet(text);
    for i := 0 to |text|
      invariant out == Trimmed(closed)
      invariant Assembled(closed, current, Pieces(st, text[i..])) == Pieces(REST, text)
    {
      var ch := text[i];
      OneMore(closed, current, st, text[i..]);
      assert text[i..][1..] == text[i + 1..];
      if Cuts(st, ch) {
        TrimmedSnoc(closed, current);
        out := out + [Trim(current)];
        closed := closed + [current];
        current := [];
      } else {
        current := current + [ch];
      }
      st := Step(st, ch);
    }
    LastPiece(closed, current, st, text);
    if current != [] { out := out + [Trim(current)]; }
    values := Nonempty(out);
  }

  lemma NothingYet(text: string)
    ensures Assembled([], [], Pieces(REST, text[0..])) == Pieces(REST, text)
  {
    var parts := Pieces(REST, text);
    assert text[0..] == text && [] + parts[0] == parts[0];
    assert [] + [parts[0]] + parts[1..] == parts;
  }

  lemma TrimmedSnoc(parts: seq<string>, p: string)
    ensures Trimmed(parts + [p]) == Trimmed(parts) + [Trim(p)]
  {
  }

  lemma OneMore(closed: seq<string>, current: string, st: Scan, s: string)
    requires s != []
    ensures var rest := Pieces(Step(st, s[0]), s[1..]);
      Assembled(closed, current, Pieces(st, s))
      == if Cuts(st, s[0]) then Assembled(closed + [current], [], rest) else Assembled(closed, current + [s[0]], rest)
  {
    var rest := Pieces(Step(st, s[0]), s[1..]);
    PieceCloses(closed, current, rest);
    PieceGoesOn(closed, current, s[0], rest);
  }

  lemma PieceCloses(closed: seq<string>, current: string, rest: seq<string>)
    requires rest != []
    ensures Assembled(closed, current, [[]] + rest) == Assembled(closed + [current], [], rest)
  {
    assert ([[]] + rest)[1..] == rest && current + [] == current && [] + rest[0] == rest[0];
    assert rest == [rest[0]] + rest[1..];
  }

  lemma PieceGoesOn(closed: seq<string>, current: string, c: char, rest: seq<string>)
    requires rest != []
    ensures Assembled(closed, current, [[c] + rest[0]] + rest[1..]) == Assembled(closed, current + [c], rest)
  {
    assert current + ([c] + rest[0]) == (current + [c]) + rest[0];
    assert ([[c] + rest[0]] + rest[1..])[1..] == rest[1..];
  }

  function Kept(values: seq<string>): seq<string> {
    if values == [] then []
    else Kept(values[..|values| - 1]) + if values[|values| - 1] == [] then [] else [values[|values| - 1]]
  }

  method Nonempty(out: seq<string>) returns (values: seq<string>)
    ensures values == Kept(out)
  {
    values := [];
    for i := 0 to |out|
      invariant values == Kept(out[..i])
    {
      assert out[..i + 1][..i] == out[..i];
      if out[i] != [] { values := values + [out[i]]; }
    }
    assert out[..|out|] == out;
  }

  lemma {:induction false} KeptAreValues(parts: seq<string>)
    ensures Kept(Trimmed(parts)) == Values(parts)
  {
    hide Kept, Trimmed, Values, Trim;
    if parts == [] {
      NothingKept();
      return;
    }
    var init, last := parts[..|parts| - 1], parts[|parts| - 1];
    KeptAreValues(init);
    assert init + [last] == parts;
    TrimmedSnoc(init, last);
    KeptSnoc(Trimmed(init), Trim(last));
    ValuesSnoc(init, last);
  }

  lemma NothingKept()
    ensures Kept(Trimmed([])) == Values([])
  {
  }

  lemma KeptSnoc(values: seq<string>, v: string)
    ensures Kept(values + [v]) == Kept(values) + if v == [] then [] else [v]
  {
    assert (values + [v])[..|values|] == values;
  }

  lemma ValuesSnoc(parts: seq<string>, p: string)
    ensures Values(parts + [p]) == Values(parts) + Value(p)
  {
    ValuesInTurn(parts, [p]);
    var none: seq<string> := [];
    assert [p][1..] == none && Values(none) == none;
    assert Values([p]) == Value(p) + none == Value(p);
  }

  lemma LastPiece(closed: seq<string>, current: string, st: Scan, text: string)
    requires Assembled(closed, current, Pieces(st, text[|text|..])) == Pieces(REST, text)
    ensures Kept(if current != [] then Trimmed(closed) + [Trim(current)] else Trimmed(closed)) == Split(text)
  {
    assert text[|text|..] == [] && current + [] == current;
    var none: seq<string> := [[]];
    assert Pieces(st, []) == none && none[1..] == [];
    assert Pieces(REST, text) == closed + [current] + [] == closed + [current];
    KeptAreValues(closed + [current]);
    TrimmedSnoc(closed, current);
    if current == [] {
      assert Trim([]) == [];
      assert (Trimmed(closed) + [[]])[..|closed|] == Trimmed(closed);
    }
  }

  // -- splitting undoes joining --------------------------------------------------------------

  /** The first piece runs up to the first separating comma. */
  lemma {:induction false} FirstPiece(st: Scan, s: string)
    ensures var first := Pieces(st, s)[0];
      && first <= s && Quiet(st, first)
      && if |first| == |s| then Pieces(st, s) == [first]
         else Cuts(After(st, first), s[|first|]) && Pieces(st, s)[1..] == Pieces(REST, s[|first| + 1..])
    decreases |s|
  {
    if s != [] {
      var rest := Pieces(Step(st, s[0]), s[1..]);
      if Cuts(st, s[0]) {
        assert ([[]] + rest)[1..] == rest && Step(st, s[0]) == REST;
      } else {
        FirstPiece(Step(st, s[0]), s[1..]);
        var first := [s[0]] + rest[0];
        assert first[1..] == rest[0];
        assert Pieces(st, s)[1..] == rest[1..];
        if |rest[0]| < |s[1..]| {
          assert s[1..][|rest[0]| + 1..] == s[|first| + 1..];
        }
      }
    }
  }

  /** Quiet text goes in front of the first of the pieces that follow. */
  lemma {:induction false} QuietStart(st: Scan, a: string, s: string, rest: seq<string>)
    requires Quiet(st, a) && Pieces(After(st, a), s) == [[]] + rest
    ensures Pieces(st, a + s) == [a] + rest
    decreases |a|
  {
    if a == [] {
      assert a + s == s;
    } else {
      QuietStart(Step(st, a[0]), a[1..], s, rest);
      PieceGrows(st, a[0], a[1..] + s, a[1..], rest);
      assert [a[0]] + (a[1..] + s) == a + s && [a[0]] + a[1..] == a;
    }
  }

  lemma PieceGrows(st: Scan, c: char, s: string, first: string, rest: seq<string>)
    requires !Cuts(st, c) && Pieces(Step(st, c), s) == [first] + rest
    ensures Pieces(st, [c] + s) == [[c] + first] + rest
  {
    assert ([c] + s)[1..] == s && ([first] + rest)[1..] == rest;
  }

  lemma EmptyPiece(st: Scan, s: string)
    requires s == [] || Cuts(st, s[0])
    ensures Pieces(st, s) == [[]] + if s == [] then [] else Pieces(REST, s[1..])
  {
    assert s != [] ==> Step(st, s[0]) == REST;
  }

  lemma {:induction false} TrimLeftKeeps(s: string)
    ensures var t := K.StripLeft(s, K.IsSpace);
      |t| <= |s| && s == s[..|s| - |t|] + t && (t != [] ==> !K.IsSpace(t[0])) && forall i :: 0 <= i < |s| - |t| ==> K.IsSpace(s[i])
  {
    if s != [] && K.IsSpace(s[0]) {
      TrimLeftKeeps(s[1..]);
      assert forall i :: 1 <= i < |s| ==> s[i] == s[1..][i - 1];
    }
  }

  lemma {:induction false} TrimRightKeeps(s: string)
    ensures var t := K.StripRight(s, K.IsSpace);
      t <= s && (t != [] ==> !K.IsSpace(t[|t| - 1])) && forall i :: |t| <= i < |s| ==> K.IsSpace(s[i])
  {
    if s != [] && K.IsSpace(s[|s| - 1]) {
      var init := s[..|s| - 1];
      TrimRightKeeps(init);
      assert forall i :: 0 <= i < |init| ==> s[i] == init[i];
    }
  }

  predicate Tidy(v: string) {
    v != [] && !K.IsSpace(v[0]) && !K.IsSpace(v[|v| - 1])
  }

  lemma TidyIsTrimmed(v: string)
    ensures Trim(v) != [] ==> Tidy(Trim(v))
    ensures Tidy(v) ==> Trim(v) == v
  {
    var t := K.StripLeft(v, K.IsSpace);
    TrimLeftKeeps(v);
    TrimRightKeeps(t);
  }

  lemma {:induction false} ValuesAreTidy(parts: seq<string>)
    ensures forall v :: v in Values(parts) ==> Tidy(v)
  {
    if parts != [] {
      TidyIsTrimmed(parts[0]);
      ValuesAreTidy(parts[1..]);
    }
  }

  /** Where a piece starts, no comma separates; so none starts a trimmed one either. */
  lemma {:induction false} NoLeadingComma(p: string)
    requires Quiet(REST, p)
    ensures K.StripLeft(p, K.IsSpace) != [] ==> K.StripLeft(p, K.IsSpace)[0] != ','
  {
    if p != [] && K.IsSpace(p[0]) {
      assert Step(REST, p[0]) == REST;
      NoLeadingComma(p[1..]);
    }
  }

  lemma {:induction false} NoValueStartsWithComma(s: string)
    ensures forall v :: v in Split(s) ==> v != [] && v[0] != ','
    decreases |s|
  {
    var parts := Pieces(REST, s);
    FirstPiece(REST, s);
    FirstValueHasNone(parts[0]);
    ValuesOfFirst(parts);
    hide Pieces, Value, Values;
    if |parts[0]| < |s| {
      NoValueStartsWithComma(s[|parts[0]| + 1..]);
      assert Split(s) == Value(parts[0]) + Split(s[|parts[0]| + 1..]);
    }
  }

  lemma FirstValueHasNone(p: string)
    requires Quiet(REST, p)
    ensures forall v :: v in Value(p) ==> v != [] && v[0] != ','
  {
    NoLeadingComma(p);
    TrimRightKeeps(K.StripLeft(p, K.IsSpace));
  }

  lemma ValuesOfFirst(parts: seq<string>)
    requires parts != []
    ensures Values(parts) == Value(parts[0]) + Values(parts[1..]) && (|parts| == 1 ==> Values(parts) == Value(parts[0]))
  {
  }

  /** Nothing a value needs of the state is left behind it. */
  predicate Closed(v: string) {
    After(REST, v) == REST
  }

  /** The lists that survive: values trimmed and not empty, with no separating comma inside, and every
      value but the last leaving no quote or bracket open, and none closed too often. */
  predicate Splittable(values: seq<string>) {
    values == []
    || (Tidy(values[0]) && Quiet(REST, values[0]) && (|values| > 1 ==> Closed(values[0])) && Splittable(values[1..]))
  }

  /** A text that starts where a tidy one does loses nothing in front. */
  lemma TrimsToItself(p: string, v: string)
    requires p != [] && Tidy(v) && p[0] == v[0]
    ensures Trim(p) != [] && Trim(p) <= p
  {
    assert K.StripLeft(p, K.IsSpace) == p && Trim(p) == K.StripRight(p, K.IsSpace);
    assert !K.IsSpace(p[0]);
    TrimRightKeeps(p);
  }

  /** A text that starts with a tidy value and splits into it first: the value is the whole first piece. */
  lemma FirstPieceIsFirstValue(v: string, more: string)
    requires Tidy(v) && (more == [] || more[0] == ',')
    requires Split(v + more) != [] && Split(v + more)[0] == v
    ensures Pieces(REST, v + more)[0] == v
  {
    var p := Pieces(REST, v + more)[0];
    FirstPieceTrims(v, more);
    FirstPiece(REST, v + more);
    NoLonger(v, more, p);
  }

  lemma FirstPieceTrims(v: string, more: string)
    requires Tidy(v) && Split(v + more) != [] && Split(v + more)[0] == v
    ensures var p := Pieces(REST, v + more)[0]; p != [] && p[0] == v[0] && Trim(p) == v
  {
    var s := v + more;
    var p := Pieces(REST, s)[0];
    FirstPiece(REST, s);
    NoValueStartsWithComma(s);
    assert v in Split(s) && s[0] == v[0] != ',';
    assert |p| == 0 ==> After(REST, p) == REST;
    assert p[0] == v[0];
    TrimsToItself(p, v);
    assert Split(s) == Value(p) + Values(Pieces(REST, s)[1..]) && Value(p) == [Trim(p)];
  }

  lemma NoLonger(v: string, more: string, p: string)
    requires Tidy(v) && (more == [] || more[0] == ',') && p <= v + more
    requires p != [] && p[0] == v[0] && Trim(p) == v
    ensures p == v
  {
    if |p| > |v| { CommaIsKept(p, |v|); }
    TrimsToItself(p, v);
  }

  lemma CommaIsKept(p: string, n: nat)
    requires n < |p| && p[n] == ',' && !K.IsSpace(p[0])
    ensures |Trim(p)| > n
  {
    assert K.StripLeft(p, K.IsSpace) == p && Trim(p) == K.StripRight(p, K.IsSpace);
    TrimRightKeeps(p);
    assert !K.IsSpace(p[n]);
  }

  lemma SplitsFirst(v: string, more: string)
    requires Tidy(v) && Quiet(REST, v) && (more == [] || Cuts(After(REST, v), more[0]))
    ensures Split(v + more) == [v] + if more == [] then [] else Split(more[1..])
  {
    TidyIsTrimmed(v);
    var rest := if more == [] then [] else Pieces(REST, more[1..]);
    EmptyPiece(After(REST, v), more);
    QuietStart(REST, v, more, rest);
    assert ([v] + rest)[1..] == rest && Values([v] + rest) == [v] + Values(rest);
  }

  lemma CommaBetween(v: string, rest: string)
    ensures v + "," + rest == v + ("," + rest) && ("," + rest)[1..] == rest
  {
  }

  lemma JoinFirst(values: seq<string>)
    requires Splittable(values) && values != []
    ensures if |values| == 1 then Join(values) == values[0]
            else var more := "," + Join(values[1..]);
              Join(values) == values[0] + more && more[1..] == Join(values[1..]) && Splittable(values[1..])
  {
    if |values| > 1 { CommaBetween(values[0], Join(values[1..])); }
  }

  lemma {:induction false} SplitsBack(values: seq<string>)
    requires Splittable(values)
    ensures Split(Join(values)) == values
    decreases |values|
  {
    if values == [] {
      var none: seq<string> := [[]];
      assert Trim([]) == [] && Pieces(REST, []) == none && none[1..] == [];
      return;
    }
    var v := values[0];
    assert Tidy(v) && Quiet(REST, v) && (|values| > 1 ==> Cuts(After(REST, v), ','));
    JoinFirst(values);
    hide *;
    if |values| == 1 {
      SplitsFirst(v, []);
      assert v + [] == v && values == [v];
    } else {
      SplitsFirst(v, "," + Join(values[1..]));
      SplitsBack(values[1..]);
      assert values == [v] + values[1..];
    }
  }

  lemma {:induction false} OnlySplittable(values: seq<string>)
    requires Split(Join(values)) == values
    ensures Splittable(values)
    decreases |values|
  {
    if values != [] {
      var v := values[0];
      var more := if |values| == 1 then [] else "," + Join(values[1..]);
      var s := Join(values);
      assert s == v + more && v in values;
      ValuesAreTidy(Pieces(REST, s));
      FirstPieceIsFirstValue(v, more);
      FirstPiece(REST, s);
      TidyIsTrimmed(v);
      if |values| > 1 {
        assert s[|v|] == ',' && s[|v| + 1..] == Join(values[1..]);
        var rest := Pieces(REST, Join(values[1..]));
        assert Values(Pieces(REST, s)) == [v] + Values(rest);
        assert Values(rest) == values[1..];
        OnlySplittable(values[1..]);
      } else {
        assert values[1..] == [];
      }
    }
  }

  /** Splitting undoes joining exactly for these lists. */
  lemma {:induction false} SplitUndoesJoin(values: seq<string>)
    ensures Split(Join(values)) == values <==> Splittable(values)
  {
    if Splittable(values) {
      SplitsBack(values);
    } else if Split(Join(values)) == values {
      OnlySplittable(values);
    }
  }

  // -- what stays together -------------------------------------------------------------------

  /** Text with matched quotes and brackets: a bracket of either kind closes a bracket of either kind. */
  datatype Part = Plain(c: char) | Quote(q: char, w: string) | Bracket(open: char, inner: Text, close: char)
  datatype Text = End | Then(part: Part, rest: Text)

  function Written(t: Text): string {
    if t.End? then []
    else
      (match t.part
       case Plain(c) => [c]
       case Quote(q, w) => [q] + w + [q]
       case Bracket(open, inner, close) => [open] + Written(inner) + [close])
      + Written(t.rest)
  }

  /** Commas may stand inside brackets and inside quotes, and a quote may hold anything but itself. */
  predicate Matched(t: Text, inside: bool) {
    t.End?
    || ((match t.part
         case Plain(c) => c !in "\"'[]{}" && (inside || c != ',')
         case Quote(q, w) => (q == '"' || q == '\'') && q !in w
         case Bracket(open, inner, close) => open in "[{" && close in "]}" && Matched(inner, true))
        && Matched(t.rest, inside))
  }

  lemma {:induction false} QuietInTurn(st: Scan, a: string, b: string)
    ensures After(st, a + b) == After(After(st, a), b)
    ensures Quiet(st, a + b) <==> Quiet(st, a) && Quiet(After(st, a), b)
    decreases |a|
  {
    if a == [] {
      assert a + b == b;
    } else {
      QuietInTurn(Step(st, a[0]), a[1..], b);
      assert (a + b)[1..] == a[1..] + b && (a + b)[0] == a[0];
    }
  }

  lemma OneChar(st: Scan, c: char)
    ensures After(st, [c]) == Step(st, c) && (Quiet(st, [c]) <==> !Cuts(st, c))
  {
    assert [c][1..] == [];
  }

  lemma {:induction false} QuotedIsQuiet(st: Scan, w: string)
    requires |st.quote| == 1 && st.quote[0] !in w
    ensures Quiet(st, w) && After(st, w) == st
  {
    if w != [] {
      assert st.quote == [st.quote[0]] && [w[0]] != st.quote;
      QuotedIsQuiet(st, w[1..]);
    }
  }

  lemma QuoteIsQuiet(depth: int, q: char, w: string)
    requires (q == '"' || q == '\'') && q !in w
    ensures var st, s := Scan(depth, ""), [q] + w + [q]; Quiet(st, s) && After(st, s) == st
  {
    var st := Scan(depth, "");
    OneChar(st, q);
    QuotedIsQuiet(st.(quote := [q]), w);
    OneChar(st.(quote := [q]), q);
    QuietInTurn(st, [q], w);
    QuietInTurn(st, [q] + w, [q]);
  }

  lemma BracketIsQuiet(depth: nat, open: char, s: string, close: char)
    requires open in "[{" && close in "]}"
    requires Quiet(Scan(depth + 1, ""), s) && After(Scan(depth + 1, ""), s) == Scan(depth + 1, "")
    ensures var st, t := Scan(depth, ""), [open] + s + [close]; Quiet(st, t) && After(st, t) == st
  {
    var st := Scan(depth, "");
    OneChar(st, open);
    OneChar(Scan(depth + 1, ""), close);
    QuietInTurn(st, [open], s);
    QuietInTurn(st, [open] + s, [close]);
  }

  lemma {:induction false} MatchedIsQuiet(t: Text, depth: nat)
    requires Matched(t, depth > 0)
    ensures var st := Scan(depth, ""); Quiet(st, Written(t)) && After(st, Written(t)) == st
  {
    if t.Then? {
      var st := Scan(depth, "");
      MatchedIsQuiet(t.rest, depth);
      match t.part
      case Plain(c) =>
        OneChar(st, c);
        QuietInTurn(st, [c], Written(t.rest));
      case Quote(q, w) =>
        QuoteIsQuiet(depth, q, w);
        QuietInTurn(st, [q] + w + [q], Written(t.rest));
      case Bracket(open, inner, close) =>
        MatchedIsQuiet(inner, depth + 1);
        BracketIsQuiet(depth, open, Written(inner), close);
        QuietInTurn(st, [open] + Written(inner) + [close], Written(t.rest));
    }
  }

  /** A value with matched quotes and brackets is split off whole at the comma after it, and nowhere inside. */
  lemma {:induction false} MatchedValueStaysWhole(v: Text, rest: string)
    requires Matched(v, false) && Tidy(Written(v))
    ensures Split(Written(v) + "," + rest) == [Written(v)] + Split(rest)
    ensures Split(Written(v)) == [Written(v)]
  {
    MatchedIsQuiet(v, 0);
    CommaBetween(Written(v), rest);
    SplitsFirst(Written(v), "," + rest);
    SplitsFirst(Written(v), []);
    assert Written(v) + [] == Written(v);
  }

  function Texts(values: seq<Text>): seq<string> {
    if values == [] then [] else [Written(values[0])] + Texts(values[1..])
  }

  /** So lists of such values come back from joining. */
  lemma {:induction false} MatchedListsSplit(values: seq<Text>)
    requires forall v :: v in values ==> Matched(v, false) && Tidy(Written(v))
    ensures Split(Join(Texts(values))) == Texts(values)
  {
    MatchedAreSplittable(values);
    SplitsBack(Texts(values));
  }

  lemma {:induction false} MatchedAreSplittable(values: seq<Text>)
    requires forall v :: v in values ==> Matched(v, false) && Tidy(Written(v))
    ensures Splittable(Texts(values))
  {
    if values != [] {
      assert values[0] in values && forall v :: v in values[1..] ==> v in values;
      MatchedIsQuiet(values[0], 0);
      MatchedAreSplittable(values[1..]);
      assert Texts(values)[1..] == Texts(values[1..]);
    }
  }

  /** Commas in quotes stay put, the other quote and brackets among them included. */
  lemma {:induction false} QuotedCommasStay(q: char, w: string, rest: string)
    requires (q == '"' || q == '\'') && q !in w
    ensures Split([q] + w + [q] + "," + rest) == [[q] + w + [q]] + Split(rest)
  {
    var v := Then(Quote(q, w), End);
    assert Written(v) == [q] + w + [q] + [] == [q] + w + [q];
    assert !K.IsSpace(q);
    MatchedValueStaysWhole(v, rest);
  }

  /** And so they do in brackets. */
  lemma {:induction false} BracketedCommasStay(open: char, inner: Text, close: char, rest: string)
    requires open in "[{" && close in "]}" && Matched(inner, true)
    ensures var v := [open] + Written(inner) + [close]; Split(v + "," + rest) == [v] + Split(rest)
  {
    var v := Then(Bracket(open, inner, close), End);
    assert Written(v) == [open] + Written(inner) + [close] + [] == [open] + Written(inner) + [close];
    assert !K.IsSpace(open) && !K.IsSpace(close);
    MatchedValueStaysWhole(v, rest);
  }
}
