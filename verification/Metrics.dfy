/** Following a metrics file while it is written: `follow` and `read_points` of `nawat/metrics.py`,
    for ASCII text. */
module Metrics {
  import opened Wrappers

  // -- text --------------------------------------------------------------------------

  /** How many characters stand for the first one of the text: two for `\r\n`. */
  function Unit(s: string): (n: nat)
    ensures n == 1 || (n == 2 && |s| > 1)
  {
    if |s| > 1 && s[0] == '\r' && s[1] == '\n' then 2 else 1
  }

  /** Text mode on reading: `\r\n` and a lone `\r` both become `\n`. */
  function Translate(s: string): string {
    if s == [] then [] else [if s[0] == '\r' then '\n' else s[0]] + Translate(s[Unit(s)..])
  }

  /** What text mode turns into the end of a line. */
  predicate Ends(c: char) {
    c == '\n' || c == '\r'
  }

  /** There is a `\r\n`. */
  predicate HasPair(s: string) {
    |s| > 1 && ((s[0] == '\r' && s[1] == '\n') || HasPair(s[1..]))
  }

  /** Where `splitlines` breaks, in ASCII. */
  predicate Breaks(c: char) {
    '\n' <= c <= '\r' || '\U{1C}' <= c <= '\U{1E}'
  }

  function FirstBreak(s: string): (n: nat)
    ensures n <= |s|
  {
    if s == [] || Breaks(s[0]) then 0 else 1 + FirstBreak(s[1..])
  }

  /** Where the next line begins. */
  function NextLine(s: string): (n: nat)
    requires s != []
    ensures FirstBreak(s) <= n <= |s| && n > 0
  {
    var n := FirstBreak(s);
    if n == |s| then n else if s[n] == '\r' && n + 1 < |s| && s[n + 1] == '\n' then n + 2 else n + 1
  }

  /** `splitlines`. */
  function SplitLines(s: string): seq<string>
    decreases |s|
  {
    if s == [] then [] else [s[..FirstBreak(s)]] + SplitLines(s[NextLine(s)..])
  }

  /** Up to and including the last newline. */
  function CompleteLines(s: string): (c: string)
    ensures |c| <= |s|
  {
    if s == [] then [] else if s[|s| - 1] == '\n' then s else CompleteLines(s[..|s| - 1])
  }

  /** The same on bytes. */
  function CompleteBytes(s: string): (c: string)
    ensures |c| <= |s|
  {
    if s == [] then [] else if Ends(s[|s| - 1]) then s else CompleteBytes(s[..|s| - 1])
  }

  lemma {:induction false} CompleteAre(s: string)
    ensures var c := CompleteLines(s); c <= s && (c != [] ==> c[|c| - 1] == '\n') && '\n' !in s[|c|..]
  {
    if s != [] && s[|s| - 1] != '\n' {
      CompleteAre(s[..|s| - 1]);
      var c := CompleteLines(s);
      assert s[|c|..] == s[..|s| - 1][|c|..] + [s[|s| - 1]];
    }
  }

  /** What text mode makes of each way to end a line, and of everything else. */
  lemma TextIsTranslated(c: char, rest: string)
    ensures Translate("\r\n" + rest) == "\n" + Translate(rest)
    ensures (rest != [] ==> rest[0] != '\n') ==> Translate("\r" + rest) == "\n" + Translate(rest)
    ensures c != '\r' ==> Translate([c] + rest) == [c] + Translate(rest)
  {
    var pair := "\r\n" + rest;
    assert Unit(pair) == 2 && pair[2..] == rest;
    assert ("\r" + rest)[1..] == rest && ([c] + rest)[1..] == rest;
  }

  const SEPARATORS: seq<string> := ["\n", "\r\n", "\r", "\U{0B}", "\U{0C}", "\U{1C}", "\U{1D}", "\U{1E}"]

  /** Where lines end: at the seven characters of ASCII that `splitlines` knows, a carriage return and the
      newline after it being one end; and what comes after the last end is a line unless it is empty. */
  lemma {:induction false} LinesAreSplit(line: string, i: nat, rest: string)
    requires forall c :: c in line ==> c !in "\n\U{0B}\U{0C}\r\U{1C}\U{1D}\U{1E}"
    requires i < |SEPARATORS| && (SEPARATORS[i] == "\r" && rest != [] ==> rest[0] != '\n')
    ensures SplitLines(line + SEPARATORS[i] + rest) == [line] + SplitLines(rest)
    ensures SplitLines(line) == if line == [] then [] else [line]
  {
    var end := SEPARATORS[i];
    BreakAfter(line, end + rest);
    BreakAfter(line, []);
    var text := line + (end + rest);
    assert text == line + end + rest && line + [] == line;
    assert text[..|line|] == line && text[|line|] == end[0];
    assert |end| == 2 ==> text[|line| + 1] == end[1];
    assert |end| == 1 && |text| > |line| + 1 ==> text[|line| + 1] == rest[0];
    assert NextLine(text) == |line + end| && text[|line + end|..] == rest;
  }

  lemma {:induction false} BreakAfter(line: string, rest: string)
    requires forall c :: c in line ==> c !in "\n\U{0B}\U{0C}\r\U{1C}\U{1D}\U{1E}"
    ensures rest == [] || Breaks(rest[0]) ==> FirstBreak(line + rest) == |line|
  {
    if line == [] {
      assert line + rest == rest;
    } else {
      BreakAfter(line[1..], rest);
      assert (line + rest)[1..] == line[1..] + rest && line[0] in line;
    }
  }

  /** The points of lines that `_parse` accepts. */
  function Parsed<P>(lines: seq<string>, parse: string -> Option<P>): seq<P> {
    if lines == [] then []
    else
      var last := parse(lines[|lines| - 1]);
      Parsed(lines[..|lines| - 1], parse) + if last.Some? then [last.value] else []
  }

  function Points<P>(text: string, parse: string -> Option<P>): seq<P> {
    Parsed(SplitLines(text), parse)
  }

  // -- reading and following -------------------------------------------------------------

  /** What a pass finds at the path: no file yet, or its bytes. */
  type Snapshot = Option<string>

  function Bytes(file: Snapshot): string {
    if file.None? then [] else file.value
  }

  /** The text a pass reads from `position` on, which it seeks to as a byte offset. */
  function Chunk(file: Snapshot, position: nat): string {
    if position >= |Bytes(file)| then [] else Translate(Bytes(file)[position..])
  }

  /** The offset after the first `n` passes. */
  function Position(files: seq<Snapshot>, n: nat): nat
    requires n <= |files|
  {
    if n == 0 then 0
    else Position(files, n - 1) + |CompleteLines(Chunk(files[n - 1], Position(files, n - 1)))|
  }

  /** The points yielded by the first `n` passes. */
  function Yielded<P>(files: seq<Snapshot>, n: nat, parse: string -> Option<P>): seq<P>
    requires n <= |files|
  {
    if n == 0 then []
    else Yielded(files, n - 1, parse) + Points(CompleteLines(Chunk(files[n - 1], Position(files, n - 1))), parse)
  }

  /** The complete lines, as bytes, that there were at pass `n`, counted from one. */
  function Complete(files: seq<Snapshot>, n: nat): string
    requires n <= |files|
  {
    if n == 0 then [] else CompleteBytes(Bytes(files[n - 1]))
  }

  /** Those of them that were not there at the pass before. */
  function Fresh(files: seq<Snapshot>, n: nat): string
    requires 0 < n <= |files|
  {
    var was, now := |Complete(files, n - 1)|, Complete(files, n);
    if was <= |now| then now[was..] else []
  }

  function Next(file: string, end: nat): string {
    if end < |file| then [file[end]] else []
  }

  /** The lines that were complete at the pass before, and the byte that follows them at pass `n`. */
  function Before(files: seq<Snapshot>, n: nat): string
    requires 0 < n <= |files|
  {
    var was := Complete(files, n - 1);
    was + Next(Bytes(files[n - 1]), |was|)
  }

  /** The writer only appends. */
  ghost predicate Grows(files: seq<Snapshot>) {
    forall i, j :: 0 <= i < j < |files| ==> Bytes(files[i]) <= Bytes(files[j])
  }

  /** Nothing is written once `still_running` has said no: it is asked after each pass. */
  ghost predicate WritesWhileRunning(files: seq<Snapshot>, stillRunning: nat -> bool) {
    forall i, j :: 0 <= i < j < |files| && !stillRunning(i) ==> Bytes(files[j]) == Bytes(files[|files| - 1])
  }

  /** The points are those of every complete line of the finished file, when the writer has stopped by the
      time `still_running` says no, and there is no `\r\n` before the last pass. */
  ghost predicate AllOf<P>(files: seq<Snapshot>, stillRunning: nat -> bool, passes: nat, points: seq<P>, parse: string -> Option<P>)
    requires 0 < passes <= |files|
  {
    Grows(files) && WritesWhileRunning(files, stillRunning) && !HasPair(Before(files, passes)) ==>
      points == Points(CompleteLines(Translate(Bytes(files[|files| - 1]))), parse)
  }

  /** The loop over lines, the same in both readers. */
  method Collect<P>(lines: seq<string>, parse: string -> Option<P>) returns (points: seq<P>)
    ensures points == Parsed(lines, parse)
  {
    points := [];
    for i := 0 to |lines|
      invariant points == Parsed(lines[..i], parse)
    {
      assert lines[..i + 1][..i] == lines[..i];
      var point := parse(lines[i]);
      if point.Some? { points := points + [point.value]; }
    }
    assert lines[..|lines|] == lines;
  }

  /** `read_points`. */
  method ReadPoints<P>(file: Snapshot, parse: string -> Option<P>) returns (points: seq<P>)
    ensures points == Points(Translate(Bytes(file)), parse)
  {
    if file.None? { return []; }
    points := Collect(SplitLines(Translate(file.value)), parse);
  }

  /** The state of the loop in `follow` after `n` passes. */
  ghost predicate After<P>(files: seq<Snapshot>, n: nat, points: seq<P>, position: nat, parse: string -> Option<P>) {
    n <= |files| && points == Yielded(files, n, parse) && position == Position(files, n)
  }

  /** One pass of the loop in `follow`, the one after the first `n`: what has been yielded then, and the
      position. */
  method Pass<P>(files: seq<Snapshot>, n: nat, before: seq<P>, position: nat, parse: string -> Option<P>)
    returns (points: seq<P>, moved: nat)
    requires n < |files| && After(files, n, before, position, parse)
    ensures After(files, n + 1, points, moved, parse)
  {
    points, moved := before, position;
    if files[n].Some? {
      var complete := CompleteLines(Chunk(files[n], position));
      if complete != [] {
        var more := Collect(SplitLines(complete), parse);
        points, moved := before + more, position + |complete|;
      }
    }
  }

  lemma BeforeAnyPass<P>(files: seq<Snapshot>, parse: string -> Option<P>)
    ensures After(files, 0, [], 0, parse)
  {
  }

  /** `follow`: pass `i` finds `files[i]`, and then `still_running` answers. It ends one pass after the
      first answer that is no. */
  method Follow<P>(files: seq<Snapshot>, stillRunning: nat -> bool, parse: string -> Option<P>)
    returns (points: seq<P>, position: nat, passes: nat, yes: nat, ended: bool)
    ensures After(files, passes, points, position, parse)
    ensures forall k: nat :: k < yes ==> stillRunning(k)
    ensures if ended then passes == yes + 2 && !stillRunning(yes) else passes == |files| && yes <= passes <= yes + 1
    ensures ended ==> AllOf(files, stillRunning, passes, points, parse)
  {
    hide Yielded, Position, AllOf;
    points, position, passes, yes := [], 0, 0, 0;
    BeforeAnyPass(files, parse);
    var draining := false;
    while passes < |files|
      invariant After(files, passes, points, position, parse)
      invariant forall k: nat :: k < yes ==> stillRunning(k)
      invariant if draining then passes == yes + 1 && !stillRunning(yes) else passes == yes
    {
      points, position := Pass(files, passes, points, position, parse);
      passes := passes + 1;
      if draining {
        EndsWithEverything(files, stillRunning, yes, passes, points, position, parse);
        return points, position, passes, yes, true;
      }
      if !stillRunning(yes) {
        draining := true;
      } else {
        yes := yes + 1;
      }
    }
    return points, position, passes, yes, false;
  }

  // -- translated text and bytes -----------------------------------------------------------

  /** Every `\r\n` makes the translated text shorter than the bytes: counting characters counts bytes
      exactly when there is none. */
  lemma {:induction false} CharactersCountBytes(s: string)
    ensures |Translate(s)| <= |s|
    ensures |Translate(s)| == |s| <==> !HasPair(s)
    decreases |s|
  {
    if s != [] {
      CharactersCountBytes(s[Unit(s)..]);
      if Unit(s) == 2 { assert HasPair(s); }
    }
  }

  /** The cut falls between the two characters of a `\r\n`. */
  predicate Straddles(a: string, b: string) {
    a != [] && b != [] && a[|a| - 1] == '\r' && b[0] == '\n'
  }

  lemma FirstUnit(a: string, b: string)
    requires a != [] && Unit(a + b) <= |a|
    ensures (a + b)[0] == a[0] && Unit(a + b) == Unit(a) && (a + b)[Unit(a)..] == a[Unit(a)..] + b
    ensures Straddles(a[Unit(a)..], b) == Straddles(a, b)
  {
    assert |a| > 1 ==> (a + b)[1] == a[1];
  }

  lemma {:induction false} TranslateInTurn(a: string, b: string)
    ensures Translate(a + b) == Translate(a) + Translate(if Straddles(a, b) then b[1..] else b)
    decreases |a|
  {
    if a == [] {
      assert a + b == b;
    } else if Unit(a + b) > |a| {
      assert (a + b)[2..] == b[1..] && a[1..] == [];
    } else {
      FirstUnit(a, b);
      TranslateInTurn(a[Unit(a)..], b);
    }
  }

  lemma {:induction false} PairsInTurn(a: string, b: string)
    ensures HasPair(a + b) <==> HasPair(a) || HasPair(b) || Straddles(a, b)
    decreases |a|
  {
    if a == [] {
      assert a + b == b;
    } else {
      PairsInTurn(a[1..], b);
      assert (a + b)[1..] == a[1..] + b && (a + b)[0] == a[0];
      assert |a| > 1 ==> (a + b)[1] == a[1];
    }
  }

  lemma {:induction false} EndOfTranslated(s: string)
    requires s != []
    ensures var init, last := s[..|s| - 1], s[|s| - 1];
      if Ends(last) then Translate(s) != [] && Translate(s)[|Translate(s)| - 1] == '\n'
      else Translate(s) == Translate(init) + [last]
    decreases |s|
  {
    var init, last := s[..|s| - 1], s[|s| - 1];
    assert s == init + [last];
    TranslateInTurn(init, [last]);
    assert last != '\r' ==> Translate([last]) == [last];
    assert last == '\r' ==> Translate([last]) == ['\n'];
    if Straddles(init, [last]) {
      EndOfTranslated(init);
      assert Translate(s) == Translate(init);
    }
  }

  /** The complete lines of the text are the translated complete bytes. */
  lemma {:induction false} CompleteTranslates(s: string)
    ensures CompleteLines(Translate(s)) == Translate(CompleteBytes(s))
  {
    if s != [] {
      var init, last := s[..|s| - 1], s[|s| - 1];
      EndOfTranslated(s);
      if !Ends(last) {
        CompleteTranslates(init);
        assert Translate(s)[..|Translate(s)| - 1] == Translate(init);
      }
    }
  }

  lemma {:induction false} CompleteBytesAre(s: string)
    ensures var c := CompleteBytes(s);
      c <= s && WholeLines(c) && (|c| < |s| ==> !Ends(s[|c|]))
  {
    if s != [] && !Ends(s[|s| - 1]) {
      CompleteBytesAre(s[..|s| - 1]);
    }
  }

  predicate WholeLines(s: string) {
    s != [] ==> Ends(s[|s| - 1])
  }

  lemma {:induction false} CompleteOfTheRest(s: string, p: nat)
    requires p <= |CompleteBytes(s)|
    ensures CompleteBytes(s[p..]) == CompleteBytes(s)[p..]
  {
    if p < |s| && !Ends(s[|s| - 1]) {
      CompleteOfTheRest(s[..|s| - 1], p);
      assert s[p..][..|s[p..]| - 1] == s[..|s| - 1][p..];
    }
  }

  lemma {:induction false} CompleteGrows(a: string, b: string)
    requires a <= b
    ensures CompleteBytes(a) <= CompleteBytes(b)
  {
    CompleteBytesAre(a);
    if |a| < |b| && !Ends(b[|b| - 1]) {
      CompleteGrows(a, b[..|b| - 1]);
    } else if |a| == |b| {
      assert a == b;
    }
  }

  // -- lines -----------------------------------------------------------------------------------

  lemma {:induction false} LinesOfWholeLines(a: string, b: string)
    requires a != [] && a[|a| - 1] == '\n'
    ensures SplitLines(a + b) == SplitLines(a) + SplitLines(b)
    decreases |a|
  {
    FrontLine(a, b);
    var n, m := FirstBreak(a), NextLine(a);
    var line, rest := [a[..n]], SplitLines(a[m..]);
    assert SplitLines(a + b) == line + SplitLines(a[m..] + b);
    if m < |a| {
      assert a[m..][|a[m..]| - 1] == '\n';
      LinesOfWholeLines(a[m..], b);
      assert line + (rest + SplitLines(b)) == (line + rest) + SplitLines(b);
    } else {
      assert a[m..] == [] && [] + b == b && line + [] == line;
    }
  }

  lemma FrontLine(a: string, b: string)
    requires a != [] && a[|a| - 1] == '\n'
    ensures FirstBreak(a + b) == FirstBreak(a) && NextLine(a + b) == NextLine(a)
    ensures (a + b)[..FirstBreak(a)] == a[..FirstBreak(a)] && (a + b)[NextLine(a)..] == a[NextLine(a)..] + b
  {
    BreakInFront(a, b);
  }

  lemma {:induction false} BreakInFront(a: string, b: string)
    requires a != [] && Breaks(a[|a| - 1])
    ensures FirstBreak(a) < |a| && FirstBreak(a + b) == FirstBreak(a)
  {
    assert (a + b)[0] == a[0];
    if !Breaks(a[0]) {
      BreakInFront(a[1..], b);
      assert (a + b)[1..] == a[1..] + b;
    }
  }

  lemma {:induction false} ParsedInTurn<P>(a: seq<string>, b: seq<string>, parse: string -> Option<P>)
    ensures Parsed(a + b, parse) == Parsed(a, parse) + Parsed(b, parse)
    decreases |b|
  {
    if b == [] {
      assert a + b == a;
    } else {
      ParsedInTurn(a, b[..|b| - 1], parse);
      assert (a + b)[..|a + b| - 1] == a + b[..|b| - 1];
    }
  }

  lemma PointsInTurn<P>(a: string, b: string, parse: string -> Option<P>)
    requires a != [] ==> a[|a| - 1] == '\n'
    ensures Points(a + b, parse) == Points(a, parse) + Points(b, parse)
  {
    if a == [] {
      assert a + b == b;
    } else {
      LinesOfWholeLines(a, b);
      ParsedInTurn(SplitLines(a), SplitLines(b), parse);
    }
  }

  /** Whole lines first, then the complete lines of the rest: all complete lines. */
  lemma {:induction false} CompleteInTurn(a: string, b: string)
    requires a != [] ==> a[|a| - 1] == '\n'
    ensures CompleteLines(a + b) == a + CompleteLines(b)
    decreases |b|
  {
    if b == [] {
      assert a + b == a;
    } else if b[|b| - 1] != '\n' {
      assert (a + b)[..|a + b| - 1] == a + b[..|b| - 1];
      CompleteInTurn(a, b[..|b| - 1]);
    }
  }

  lemma PointsOfTwo<P>(a: string, b: string, parse: string -> Option<P>)
    requires WholeLines(a) && !Straddles(a, b)
    ensures Translate(a + b) == Translate(a) + Translate(b)
    ensures Points(Translate(a + b), parse) == Points(Translate(a), parse) + Points(Translate(b), parse)
  {
    TranslateInTurn(a, b);
    if a != [] { EndOfTranslated(a); }
    PointsInTurn(Translate(a), Translate(b), parse);
  }

  /** How many lines there are in bytes read as text. */
  function LineCount(s: string): nat {
    |SplitLines(Translate(s))|
  }

  /** Cutting after a complete line cuts no line in two; only a `\r\n` that is cut counts twice. */
  lemma LinesOfTwo(a: string, b: string)
    requires WholeLines(a)
    ensures LineCount(a + b) == LineCount(a) + LineCount(b) - if Straddles(a, b) then 1 else 0
    ensures a != [] ==> LineCount(a) > 0
  {
    if a == [] {
      assert a + b == b;
    } else {
      var rest := if Straddles(a, b) then b[1..] else b;
      TranslateInTurn(a, b);
      EndOfTranslated(a);
      LinesOfWholeLines(Translate(a), Translate(rest));
      if Straddles(a, b) { NewlineFirst(b); }
    }
  }

  lemma NewlineFirst(b: string)
    requires b != [] && b[0] == '\n'
    ensures LineCount(b) == 1 + LineCount(b[1..])
  {
    assert Translate(b) == "\n" + Translate(b[1..]);
    assert FirstBreak(Translate(b)) == 0 && NextLine(Translate(b)) == 1;
    assert Translate(b)[1..] == Translate(b[1..]);
  }

  // -- following reads each complete line once ---------------------------------------------------

  lemma CompleteSoFar(files: seq<Snapshot>, n: nat)
    requires Grows(files) && 0 < n <= |files|
    ensures Complete(files, n) == Complete(files, n - 1) + Fresh(files, n)
    ensures WholeLines(Complete(files, n - 1))
  {
    var was, now := Complete(files, n - 1), Complete(files, n);
    if n > 1 {
      CompleteGrows(Bytes(files[n - 2]), Bytes(files[n - 1]));
      CompleteBytesAre(Bytes(files[n - 2]));
    }
    assert was <= now;
    assert now == was + now[|was|..];
  }

  /** A pass reads the complete lines from its position on. */
  lemma ReadsCompleteBytes(files: seq<Snapshot>, n: nat)
    requires 0 < n <= |files| && Position(files, n - 1) <= |Complete(files, n)|
    ensures var at := Position(files, n - 1);
      CompleteLines(Chunk(files[n - 1], at)) == Translate(Complete(files, n)[at..])
  {
    var file, at := Bytes(files[n - 1]), Position(files, n - 1);
    assert at == |file| ==> file[at..] == [];
    CompleteOfTheRest(file, at);
    CompleteTranslates(file[at..]);
  }

  /** The position never passes the end of the complete lines, and a pass takes it there exactly when
      there is no `\r\n` in what the pass reads. */
  lemma {:induction false} OnALineBoundary(files: seq<Snapshot>, n: nat)
    requires Grows(files) && 0 < n <= |files|
    ensures var at, complete := Position(files, n - 1), Complete(files, n);
      && at <= |Complete(files, n - 1)| <= |complete|
      && Position(files, n) == at + |Translate(complete[at..])| <= |complete|
      && (Position(files, n) == |complete| <==> !HasPair(complete[at..]))
  {
    if n > 1 { OnALineBoundary(files, n - 1); }
    CompleteSoFar(files, n);
    ReadsCompleteBytes(files, n);
    CharactersCountBytes(Complete(files, n)[Position(files, n - 1)..]);
  }

  lemma SeamsAgree(was: string, now: string, file: string)
    requires was <= now <= file && (|now| < |file| ==> !Ends(file[|now|]))
    ensures var next := Next(file, |was|); !HasPair(next) && Straddles(was, next) == Straddles(was, now[|was|..])
  {
    if |was| < |now| { assert now[|was|] == file[|was|]; }
  }

  /** The `\r\n` in what was there before pass `n`, or cut by its end. */
  lemma PairsBefore(files: seq<Snapshot>, n: nat)
    requires Grows(files) && 0 < n <= |files|
    ensures HasPair(Before(files, n)) <==> HasPair(Complete(files, n - 1)) || Straddles(Complete(files, n - 1), Fresh(files, n))
    ensures HasPair(Complete(files, n)) <==> HasPair(Before(files, n)) || HasPair(Fresh(files, n))
  {
    var was, file := Complete(files, n - 1), Bytes(files[n - 1]);
    CompleteSoFar(files, n);
    CompleteBytesAre(file);
    SeamsAgree(was, Complete(files, n), file);
    PairsInTurn(was, Next(file, |was|));
    PairsInTurn(was, Fresh(files, n));
  }

  lemma {:induction false} CaughtUp(files: seq<Snapshot>, n: nat)
    requires Grows(files) && 0 < n <= |files| && !HasPair(Before(files, n))
    ensures Position(files, n - 1) == |Complete(files, n - 1)|
  {
    PairsBefore(files, n);
    if n > 1 {
      PairsBefore(files, n - 1);
      CaughtUp(files, n - 1);
      OnALineBoundary(files, n - 1);
    }
  }

  lemma YieldsMore<P>(files: seq<Snapshot>, n: nat, parse: string -> Option<P>)
    requires 0 < n <= |files| && Position(files, n - 1) <= |Complete(files, n)|
    ensures Yielded(files, n, parse) ==
              Yielded(files, n - 1, parse) + Points(Translate(Complete(files, n)[Position(files, n - 1)..]), parse)
  {
    ReadsCompleteBytes(files, n);
  }

  lemma FreshPoints<P>(files: seq<Snapshot>, n: nat, parse: string -> Option<P>)
    requires Grows(files) && 0 < n <= |files| && !HasPair(Before(files, n))
    ensures var was, now, added := Complete(files, n - 1), Complete(files, n), Fresh(files, n);
      && now == was + added && |Translate(now)| == |was| + |Translate(added)|
      && Points(Translate(now), parse) == Points(Translate(was), parse) + Points(Translate(added), parse)
  {
    PairsBefore(files, n);
    CompleteSoFar(files, n);
    CharactersCountBytes(Complete(files, n - 1));
    PointsOfTwo(Complete(files, n - 1), Fresh(files, n), parse);
  }

  /** Up to any pass, what has been yielded is what one read of the complete lines there are would
      give, each line once and in order, and the position is the length of their text, when there was
      no `\r\n` before that pass. */
  lemma {:induction false} EachCompleteLineOnce<P>(files: seq<Snapshot>, n: nat, parse: string -> Option<P>)
    requires Grows(files) && 0 < n <= |files| && !HasPair(Before(files, n))
    ensures var seen := CompleteLines(Translate(Bytes(files[n - 1])));
      Yielded(files, n, parse) == Points(seen, parse) && Position(files, n) == |seen|
  {
    CaughtUp(files, n);
    PairsBefore(files, n);
    OnALineBoundary(files, n);
    YieldsMore(files, n, parse);
    CompleteTranslates(Bytes(files[n - 1]));
    FreshPoints(files, n, parse);
    assert Complete(files, n)[Position(files, n - 1)..] == Fresh(files, n);
    if n > 1 {
      PairsBefore(files, n - 1);
      EachCompleteLineOnce(files, n - 1, parse);
      CompleteTranslates(Bytes(files[n - 2]));
    }
  }

  /** Every line is a point. */
  ghost predicate AcceptsAll<P>(parse: string -> Option<P>) {
    forall line :: parse(line).Some?
  }

  /** Every line is asked for its point, and only those without one are left out. */
  lemma EachLineIsParsed<P>(before: seq<string>, line: string, after: seq<string>, parse: string -> Option<P>)
    ensures Parsed(before + [line] + after, parse)
         == Parsed(before, parse) + (if parse(line).Some? then [parse(line).value] else []) + Parsed(after, parse)
  {
    ParsedInTurn(before + [line], after, parse);
    ParsedInTurn(before, [line], parse);
    assert [line][..0] == [];
  }

  lemma {:induction false} AllParsed<P>(lines: seq<string>, parse: string -> Option<P>)
    requires AcceptsAll(parse)
    ensures |Parsed(lines, parse)| == |lines|
  {
    if lines != [] { AllParsed(lines[..|lines| - 1], parse); }
  }

  /** Reading on from `at`, after lines that end with `was`, reads a line again unless `at` is their end. */
  lemma ReadAgain(was: string, more: string, at: nat)
    requires WholeLines(was) && at <= |was|
    ensures LineCount((was + more)[at..]) + LineCount(was) >= LineCount(was + more)
    ensures LineCount((was + more)[at..]) + LineCount(was) == LineCount(was + more) <==> at == |was| && !Straddles(was, more)
  {
    var again := was[at..];
    assert (was + more)[at..] == again + more;
    LinesOfTwo(was, more);
    LinesOfTwo(again, more);
    if again == [] { assert again + more == more; }
  }

  lemma MoreLines<P>(files: seq<Snapshot>, n: nat, parse: string -> Option<P>)
    requires 0 < n <= |files| && Position(files, n - 1) <= |Complete(files, n)| && AcceptsAll(parse)
    ensures |Yielded(files, n, parse)| == |Yielded(files, n - 1, parse)| + LineCount(Complete(files, n)[Position(files, n - 1)..])
  {
    YieldsMore(files, n, parse);
    AllParsed(SplitLines(Translate(Complete(files, n)[Position(files, n - 1)..])), parse);
  }

  lemma {:induction false} LinesYielded<P>(files: seq<Snapshot>, n: nat, parse: string -> Option<P>)
    requires Grows(files) && 0 < n <= |files| && AcceptsAll(parse)
    ensures |Yielded(files, n, parse)| >= LineCount(Complete(files, n))
    ensures |Yielded(files, n, parse)| == LineCount(Complete(files, n)) <==> !HasPair(Before(files, n))
  {
    var was, at := Complete(files, n - 1), Position(files, n - 1);
    OnALineBoundary(files, n);
    CompleteSoFar(files, n);
    PairsBefore(files, n);
    MoreLines(files, n, parse);
    ReadAgain(was, Fresh(files, n), at);
    if n > 1 {
      LinesYielded(files, n - 1, parse);
      PairsBefore(files, n - 1);
      OnALineBoundary(files, n - 1);
      if !HasPair(Before(files, n - 1)) {
        CaughtUp(files, n - 1);
        assert Complete(files, n - 1)[|Complete(files, n - 2)|..] == Fresh(files, n - 1);
      }
    }
  }

  /** With a parser that takes every line, what has been yielded up to a pass is each complete line once
      exactly when there was no `\r\n` before that pass: one in the lines that pass was the first to
      read does no harm yet. */
  lemma {:induction false} OnceExactlyWithoutPairs<P>(files: seq<Snapshot>, n: nat, parse: string -> Option<P>)
    requires Grows(files) && 0 < n <= |files| && AcceptsAll(parse)
    ensures var seen := CompleteLines(Translate(Bytes(files[n - 1])));
      Yielded(files, n, parse) == Points(seen, parse) <==> !HasPair(Before(files, n))
  {
    CompleteTranslates(Bytes(files[n - 1]));
    AllParsed(SplitLines(Translate(Complete(files, n))), parse);
    LinesYielded(files, n, parse);
    if !HasPair(Before(files, n)) { EachCompleteLineOnce(files, n, parse); }
  }

  /** How many points there are in what passes before the `n`-th had read and the next read again. */
  function Repeated<P>(files: seq<Snapshot>, n: nat, parse: string -> Option<P>): nat
    requires n <= |files|
  {
    if n == 0 then 0
    else
      var at, was := Position(files, n - 1), Complete(files, n - 1);
      Repeated(files, n - 1, parse) + if at <= |was| then |Points(Translate(was[at..]), parse)| else 0
  }

  /** A parser that takes no blank line does not notice a `\r\n` that is cut. */
  lemma PointsOfAnyTwo<P>(a: string, b: string, parse: string -> Option<P>)
    requires WholeLines(a) && parse("").None?
    ensures Points(Translate(a + b), parse) == Points(Translate(a), parse) + Points(Translate(b), parse)
  {
    TranslateInTurn(a, b);
    if a != [] { EndOfTranslated(a); }
    PointsInTurn(Translate(a), Translate(if Straddles(a, b) then b[1..] else b), parse);
    if Straddles(a, b) { BlankLineFirst(Translate(b[1..]), parse); }
  }

  lemma BlankLineFirst<P>(rest: string, parse: string -> Option<P>)
    requires parse("").None?
    ensures Points("\n" + rest, parse) == Points(rest, parse)
  {
    assert SplitLines("\n") == [[]] + SplitLines([]) == [[]];
    var none: seq<string> := [];
    assert [[]][..0] == none && Parsed(none, parse) == [] && Parsed([""], parse) == [];
    PointsInTurn("\n", rest, parse);
  }

  lemma PointsReadAgain<P>(was: string, more: string, at: nat, parse: string -> Option<P>)
    requires WholeLines(was) && at <= |was| && parse("").None?
    ensures Points(Translate((was + more)[at..]), parse) == Points(Translate(was[at..]), parse) + Points(Translate(more), parse)
    ensures Points(Translate(was + more), parse) == Points(Translate(was), parse) + Points(Translate(more), parse)
  {
    assert (was + more)[at..] == was[at..] + more;
    PointsOfAnyTwo(was, more, parse);
    PointsOfAnyTwo(was[at..], more, parse);
  }

  lemma RepeatedStep<P>(files: seq<Snapshot>, n: nat, parse: string -> Option<P>)
    requires Grows(files) && 0 < n <= |files| && parse("").None?
    ensures var was, at, more := Complete(files, n - 1), Position(files, n - 1), Points(Translate(Fresh(files, n)), parse);
      && at <= |was|
      && Yielded(files, n, parse) == Yielded(files, n - 1, parse) + (Points(Translate(was[at..]), parse) + more)
      && Points(Translate(Complete(files, n)), parse) == Points(Translate(was), parse) + more
      && Repeated(files, n, parse) == Repeated(files, n - 1, parse) + |Points(Translate(was[at..]), parse)|
  {
    OnALineBoundary(files, n);
    CompleteSoFar(files, n);
    YieldsMore(files, n, parse);
    PointsReadAgain(Complete(files, n - 1), Fresh(files, n), Position(files, n - 1), parse);
  }

  lemma OneMore<P>(yielded: seq<P>, once: seq<P>, again: seq<P>, more: seq<P>, repeated: nat)
    requires |yielded| == |once| + repeated && (yielded == once <==> repeated == 0)
    ensures |yielded + (again + more)| == |once + more| + repeated + |again|
    ensures yielded + (again + more) == once + more <==> repeated + |again| == 0
  {
    if repeated + |again| == 0 { assert again + more == more; }
  }

  lemma NothingYet<P>(files: seq<Snapshot>, parse: string -> Option<P>)
    ensures Yielded(files, 0, parse) == Points(Translate(Complete(files, 0)), parse) == [] && Repeated(files, 0, parse) == 0
  {
  }

  lemma {:induction false} RepeatedSoFar<P>(files: seq<Snapshot>, n: nat, parse: string -> Option<P>)
    requires Grows(files) && n <= |files| && parse("").None?
    ensures var once := Points(Translate(Complete(files, n)), parse);
      && |Yielded(files, n, parse)| == |once| + Repeated(files, n, parse)
      && (Yielded(files, n, parse) == once <==> Repeated(files, n, parse) == 0)
  {
    hide *;
    if n == 0 {
      NothingYet(files, parse);
      return;
    }
    RepeatedStep(files, n, parse);
    RepeatedSoFar(files, n - 1, parse);
    var was, at := Complete(files, n - 1), Position(files, n - 1);
    OneMore(Yielded(files, n - 1, parse), Points(Translate(was), parse), Points(Translate(was[at..]), parse),
            Points(Translate(Fresh(files, n)), parse), Repeated(files, n - 1, parse));
  }

  /** With a parser that takes no blank line, as `_parse`, whatever the line ends: what is yielded beyond
      each complete line once is as much as was read again, and it is each line once when that is nothing. */
  lemma {:induction false} RepeatedExactly<P>(files: seq<Snapshot>, n: nat, parse: string -> Option<P>)
    requires Grows(files) && 0 < n <= |files| && parse("").None?
    ensures var once := Points(CompleteLines(Translate(Bytes(files[n - 1]))), parse);
      && |Yielded(files, n, parse)| == |once| + Repeated(files, n, parse)
      && (Yielded(files, n, parse) == once <==> Repeated(files, n, parse) == 0)
  {
    CompleteTranslates(Bytes(files[n - 1]));
    RepeatedSoFar(files, n, parse);
  }

  /** A follower that ends after a false answer, the writer having stopped by then, has yielded every
      complete line of the finished file. */
  lemma {:induction false} EndsWithEverything<P>(
    files: seq<Snapshot>, stillRunning: nat -> bool, no: nat, passes: nat, points: seq<P>, position: nat, parse: string -> Option<P>)
    requires passes == no + 2 <= |files| && !stillRunning(no) && After(files, passes, points, position, parse)
    ensures AllOf(files, stillRunning, passes, points, parse)
  {
    if Grows(files) && WritesWhileRunning(files, stillRunning) && !HasPair(Before(files, passes)) {
      EachCompleteLineOnce(files, passes, parse);
      assert Bytes(files[passes - 1]) == Bytes(files[|files| - 1]);
    }
  }

  /** A follower agrees with a single read of the finished file exactly when the unfinished last line,
      if there is one, is no point. */
  lemma {:induction false} AgreesWithOneRead<P>(files: seq<Snapshot>, n: nat, parse: string -> Option<P>)
    requires Grows(files) && 0 < n <= |files| && !HasPair(Before(files, n))
    ensures var text := Translate(Bytes(files[n - 1]));
      Yielded(files, n, parse) == Points(text, parse) <==> Points(text[|CompleteLines(text)|..], parse) == []
  {
    EachCompleteLineOnce(files, n, parse);
    PointsOfTheRest(Translate(Bytes(files[n - 1])), parse);
  }

  lemma PointsOfTheRest<P>(text: string, parse: string -> Option<P>)
    ensures var seen := CompleteLines(text); Points(text, parse) == Points(seen, parse) + Points(text[|seen|..], parse)
  {
    var seen := CompleteLines(text);
    CompleteAre(text);
    assert text == seen + text[|seen|..];
    PointsInTurn(seen, text[|seen|..], parse);
  }

  // -- and with \r\n it does not --------------------------------------------------------------

  function AnyBraces(line: string): Option<string> {
    if line == "{}" then Some(line) else None
  }

  const PAIR_LINE := "{}\r\n"

  /** `n` lines `{}`, each ended with `\r\n`. */
  function PairLines(n: nat): (s: string)
    ensures |s| == 4 * n
  {
    if n == 0 then [] else PAIR_LINE + PairLines(n - 1)
  }

  lemma PairLineTranslates(rest: string)
    ensures Translate(PAIR_LINE + rest) == "{}\n" + Translate(rest)
  {
    var s := PAIR_LINE + rest;
    assert s[1..] == "}\r\n" + rest && s[1..][1..] == "\r\n" + rest && ("\r\n" + rest)[2..] == rest;
    assert Translate("\r\n" + rest) == "\n" + Translate(rest);
    assert Translate("}\r\n" + rest) == "}" + ("\n" + Translate(rest));
    assert Translate(s) == "{" + ("}" + ("\n" + Translate(rest)));
  }

  lemma BracesLine()
    ensures Points("{}\n", AnyBraces) == ["{}"]
  {
    var line := "{}\n";
    assert line[1..] == "}\n" && line[1..][1..] == "\n" && line[3..] == [] && line[..2] == "{}";
    assert FirstBreak("\n") == 0 && FirstBreak("}\n") == 1 && FirstBreak(line) == 2 && NextLine(line) == 3;
    assert SplitLines(line) == ["{}"] + SplitLines(line[3..]);
    assert SplitLines(line) == ["{}"];
    assert Parsed(["{}"], AnyBraces) == Parsed([], AnyBraces) + ["{}"] == ["{}"];
  }

  lemma {:induction false} PairLinesRead(n: nat)
    ensures var text := Translate(PairLines(n));
      |text| == 3 * n && CompleteLines(text) == text && Points(text, AnyBraces) == seq(n, i => "{}")
  {
    if n > 0 {
      PairLinesRead(n - 1);
      var rest := Translate(PairLines(n - 1));
      PairLineTranslates(PairLines(n - 1));
      OneMoreBraces(rest, n - 1);
    }
  }

  lemma OneMoreBraces(rest: string, n: nat)
    requires |rest| == 3 * n && CompleteLines(rest) == rest && Points(rest, AnyBraces) == seq(n, i => "{}")
    ensures var text := "{}\n" + rest;
      |text| == 3 * (n + 1) && CompleteLines(text) == text && Points(text, AnyBraces) == seq(n + 1, i => "{}")
  {
    BracesLine();
    CompleteInTurn("{}\n", rest);
    PointsInTurn("{}\n", rest, AnyBraces);
    assert ["{}"] + seq(n, i => "{}") == seq(n + 1, i => "{}");
  }

  lemma WholeFile(files: seq<Snapshot>, file: string)
    requires |files| == 2 && files[0] == files[1] == Some(file) && WholeLines(file)
    ensures Complete(files, 1) == Complete(files, 2) == file
    ensures Position(files, 0) == 0 && Position(files, 1) == |Translate(file)| <= |file|
  {
    OnALineBoundary(files, 1);
    assert file[0..] == file;
  }

  lemma ReadTwice<P>(files: seq<Snapshot>, n: nat, file: string, at: nat, parse: string -> Option<P>)
    requires 0 < n < |files| && Complete(files, n) == Complete(files, n + 1) == file
    requires Position(files, n - 1) == 0 && Position(files, n) == at <= |file|
    ensures Yielded(files, n + 1, parse) ==
              Yielded(files, n - 1, parse) + Points(Translate(file), parse) + Points(Translate(file[at..]), parse)
  {
    YieldsMore(files, n, parse);
    YieldsMore(files, n + 1, parse);
    assert file[0..] == file;
  }

  lemma FourAndOne()
    ensures seq(4, i => "{}") == ["{}", "{}", "{}", "{}"] && seq(1, i => "{}") == ["{}"]
  {
  }

  /** Four lines ended with `\r\n`, read twice: the position falls four bytes short, and the last point
      comes again. */
  lemma {:induction false} PairsAreReadAgain()
    ensures var file := Some(PairLines(4));
      && Points(Translate(file.value), AnyBraces) == ["{}", "{}", "{}", "{}"]
      && Yielded([file, file], 2, AnyBraces) == ["{}", "{}", "{}", "{}", "{}"]
  {
    var file := PairLines(4);
    PairLinesRead(4);
    PairLinesRead(1);
    LastOfFour();
    WholeFile([Some(file), Some(file)], file);
    ReadTwice([Some(file), Some(file)], 1, file, 12, AnyBraces);
    FourAndOne();
  }

  lemma LastOfFour()
    ensures PairLines(4)[12..] == PairLines(1)
  {
    assert PairLines(4)[4..] == PairLines(3) && PairLines(3)[4..] == PairLines(2) && PairLines(2)[4..] == PairLines(1);
    assert PairLines(4)[4..][4..] == PairLines(4)[8..] && PairLines(4)[8..][4..] == PairLines(4)[12..];
  }
}
