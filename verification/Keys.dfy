/** Artifact keys: `nawat/keys.py`. One name for an object-storage prefix and a local path. */
module Keys {
  import opened Wrappers

  const KINDS: seq<string> := ["models", "datasets", "runs", "exports"]
  const MAX_LENGTH := 512

  datatype Key = Key(kind: string, path: string)

  datatype Error =
    | Empty | TooLong | Backslash | EmptySegment | RelativeSegment | BadSegment | NoArtifact | NotAKind


  // -- text --------------------------------------------------------------------------

  /** White space as `str.strip` sees it, up to U+00FF. */
  predicate IsSpace(c: char) {
    c in "\t\n\r \U{0B}\U{0C}\U{1C}\U{1D}\U{1E}\U{1F}\U{85}\U{A0}"
  }

  function StripLeft(s: string, drop: char -> bool): string {
    if s != [] && drop(s[0]) then StripLeft(s[1..], drop) else s
  }

  function StripRight(s: string, drop: char -> bool): string {
    if s != [] && drop(s[|s| - 1]) then StripRight(s[..|s| - 1], drop) else s
  }

  function Strip(s: string, drop: char -> bool): string {
    StripRight(StripLeft(s, drop), drop)
  }

  /** `text.split("/")`. */
  function Split(s: string): (parts: seq<string>)
    ensures |parts| > 0
    ensures forall p :: p in parts ==> '/' !in p
  {
    if s == [] then [[]]
    else
      var rest := Split(s[1..]);
      if s[0] == '/' then [[]] + rest else [[s[0]] + rest[0]] + rest[1..]
  }

  /** `"/".join(parts)`. */
  function Join(parts: seq<string>): string {
    if parts == [] then [] else if |parts| == 1 then parts[0] else parts[0] + "/" + Join(parts[1..])
  }

  lemma {:induction false} JoinSplit(s: string)
    ensures Join(Split(s)) == s
  {
    if s != [] {
      JoinSplit(s[1..]);
      var rest := Split(s[1..]);
      if s[0] == '/' {
        assert ([[]] + rest)[1..] == rest;
      } else {
        assert ([[s[0]] + rest[0]] + rest[1..])[1..] == rest[1..];
        if |rest| == 1 { assert rest == [rest[0]]; }
      }
    }
  }

  lemma {:induction false} SplitFirst(a: string, s: string)
    requires '/' !in a
    ensures Split(a + "/" + s) == [a] + Split(s)
    ensures Split(a) == [a]
  {
    if a == [] {
      assert a + "/" + s == "/" + s && ("/" + s)[1..] == s;
    } else {
      SplitFirst(a[1..], s);
      assert (a + "/" + s)[1..] == a[1..] + "/" + s;
      assert [a[0]] + a[1..] == a;
    }
  }

  lemma {:induction false} SplitJoin(parts: seq<string>)
    requires parts != [] && forall p :: p in parts ==> '/' !in p
    ensures Split(Join(parts)) == parts
  {
    if |parts| == 1 {
      SplitFirst(parts[0], []);
      assert parts == [parts[0]];
    } else {
      SplitJoin(parts[1..]);
      SplitFirst(parts[0], Join(parts[1..]));
      hide Split;
      assert parts == [parts[0]] + parts[1..];
    }
  }

  // -- parsing -----------------------------------------------------------------------

  predicate IsAlnum(c: char) {
    'A' <= c <= 'Z' || 'a' <= c <= 'z' || '0' <= c <= '9'
  }

  predicate IsName(s: string) {
    s != [] && IsAlnum(s[0]) && forall i :: 0 <= i < |s| ==> IsAlnum(s[i]) || s[i] in "._@+-"
  }

  /** The pattern ends in `$`, which also matches before a final newline. */
  predicate MatchesSegment(s: string) {
    IsName(s) || (s != [] && s[|s| - 1] == '\n' && IsName(s[..|s| - 1]))
  }

  function SegmentError(parts: seq<string>): Result<(), Error> {
    if parts == [] then Ok(())
    else if parts[0] == [] then Err(EmptySegment)
    else if parts[0] == "." || parts[0] == ".." then Err(RelativeSegment)
    else if !MatchesSegment(parts[0]) then Err(BadSegment)
    else SegmentError(parts[1..])
  }

  /** `Key.parse`. */
  function Parse(raw: string): Result<Key, Error> {
    var text := Strip(Strip(raw, IsSpace), c => c == '/');
    if text == [] then Err(Empty)
    else if |text| > MAX_LENGTH then Err(TooLong)
    else if '\\' in text then Err(Backslash)
    else
      var parts := Split(text);
      if SegmentError(parts).Err? then Err(SegmentError(parts).error)
      else if |parts| < 2 then Err(NoArtifact)
      else if parts[0] !in KINDS then Err(NotAKind)
      else Ok(Key(parts[0], Join(parts[1..])))
  }

  /** `str(key)`. */
  function Str(k: Key): string {
    k.kind + "/" + k.path
  }

  function Segments(k: Key): seq<string> {
    [k.kind] + Split(k.path)
  }

  function ObjectPrefix(k: Key): string {
    Str(k) + "/"
  }

  /** What every parsed key is: a known kind and at least one more name, each usable as a directory
      entry that neither leaves its parent nor is internal to the platform. */
  ghost predicate Valid(k: Key) {
    && k.kind in KINDS
    && |Str(k)| <= MAX_LENGTH
    && forall p :: p in Split(k.path) ==> MatchesSegment(p)
  }

  lemma {:induction false} NoSegmentError(parts: seq<string>)
    ensures SegmentError(parts).Ok? <==> forall p :: p in parts ==> p != [] && p != "." && p != ".." && MatchesSegment(p)
    ensures SegmentError(parts).Err? ==> SegmentError(parts).error in {EmptySegment, RelativeSegment, BadSegment}
  {
    if parts != [] {
      NoSegmentError(parts[1..]);
      assert parts[0] in parts;
      assert forall p :: p in parts[1..] ==> p in parts;
      assert forall p :: p in parts ==> p == parts[0] || p in parts[1..];
    }
  }

  lemma SegmentEnds(p: string)
    requires MatchesSegment(p)
    ensures p != [] && IsAlnum(p[0]) && '\\' !in p && p != "." && p != ".."
    ensures p[|p| - 1] == '\n' || IsAlnum(p[|p| - 1]) || p[|p| - 1] in "._@+-"
  {
    if !IsName(p) {
      var name := p[..|p| - 1];
      assert p == name + [p[|p| - 1]] && name[0] == p[0];
    }
  }

  /** A path that starts with a usable name and ends as one ends. */
  ghost predicate WellEnded(s: string) {
    && s != [] && IsAlnum(s[0]) && '\\' !in s
    && (s[|s| - 1] == '\n' || IsAlnum(s[|s| - 1]) || s[|s| - 1] in "._@+-")
  }

  lemma {:induction false} JoinedSegmentsAreWellEnded(parts: seq<string>)
    requires parts != [] && forall p :: p in parts ==> MatchesSegment(p)
    ensures WellEnded(Join(parts))
  {
    SegmentEnds(parts[0]);
    if |parts| > 1 {
      JoinedSegmentsAreWellEnded(parts[1..]);
      var rest := Join(parts[1..]);
      assert Join(parts) == parts[0] + "/" + rest;
      assert Join(parts)[|Join(parts)| - 1] == rest[|rest| - 1];
      assert Join(parts)[0] == parts[0][0];
    }
  }

  lemma ParsedIsValid(raw: string)
    requires Parse(raw).Ok?
    ensures Valid(Parse(raw).value)
    ensures Str(Parse(raw).value) == Strip(Strip(raw, IsSpace), c => c == '/')
  {
    var text := Strip(Strip(raw, IsSpace), c => c == '/');
    var parts := Split(text);
    NoSegmentError(parts);
    JoinSplit(text);
    SplitJoin(parts[1..]);
    assert parts == [parts[0]] + parts[1..];
  }

  /** A name as the pattern has it: letters, digits and five signs, beginning with a letter or a digit. */
  predicate Plain(p: string) {
    && p != [] && p[0] !in "._@+-"
    && forall c :: c in p ==> 'a' <= c <= 'z' || 'A' <= c <= 'Z' || '0' <= c <= '9' || c == '.' || c == '_' || c == '-' || c == '+' || c == '@'
  }

  /** The white space there is up to U+00FF. */
  const SPACES := "\t\n\r \U{0B}\U{0C}\U{1C}\U{1D}\U{1E}\U{1F}\U{85}\U{A0}"

  /** Nothing to strip: neither end is white space or a slash. */
  predicate Clean(text: string) {
    text != [] ==> text[0] !in SPACES && text[|text| - 1] !in SPACES && text[0] != '/' && text[|text| - 1] != '/'
  }

  /** Which texts are keys, apart from what is stripped off their ends: at most 512 characters, a kind and
      at least one more segment, and each a plain name, or one with a newline after it. */
  lemma ParsesExactly(text: string)
    requires Clean(text)
    ensures var usable := 0 < |text| <= 512 && forall p :: p in Split(text) ==> Plain(p) || (|p| > 1 && p[|p| - 1] == '\n' && Plain(p[..|p| - 1]));
      && (Parse(text).Ok? <==> usable && |Split(text)| >= 2 && Split(text)[0] in ["models", "datasets", "runs", "exports"])
      && (Parse(text) == Err(NoArtifact) <==> usable && |Split(text)| == 1)
      && (Parse(text) == Err(NotAKind) <==> usable && |Split(text)| >= 2 && Split(text)[0] !in ["models", "datasets", "runs", "exports"])
    ensures Parse(text).Ok? ==> Parse(text).value.kind == Split(text)[0] && Str(Parse(text).value) == text
  {
    CleanStays(text);
    NoneIsRefused(text);
    hide Strip, Split, Join, SegmentError, MatchesSegment, Plain, Clean;
    NoSegmentError(Split(text));
    if Parse(text).Ok? { ParsedIsValid(text); }
  }

  lemma NoneIsRefused(text: string)
    ensures '\\' !in text && SegmentError(Split(text)).Ok?
       <==> forall p :: p in Split(text) ==> Plain(p) || (|p| > 1 && p[|p| - 1] == '\n' && Plain(p[..|p| - 1]))
  {
    hide Split, SegmentError, MatchesSegment, Plain;
    NoSegmentError(Split(text));
    forall p | p in Split(text)
      ensures p != [] && p != "." && p != ".." && MatchesSegment(p) <==> Plain(p) || (|p| > 1 && p[|p| - 1] == '\n' && Plain(p[..|p| - 1]))
      ensures MatchesSegment(p) ==> '\\' !in p
    {
      SegmentsArePlain(p);
    }
    if '\\' in text { BackslashStays(text); }
  }

  /** The first three things that are asked of a text. */
  lemma RefusedExactly(text: string)
    requires Clean(text)
    ensures Parse(text) == Err(Empty) <==> text == []
    ensures Parse(text) == Err(TooLong) <==> |text| > 512
    ensures Parse(text) == Err(Backslash) <==> |text| <= 512 && '\\' in text
  {
    CleanStays(text);
    hide Strip, Split, Join, SegmentError, Clean;
    NoSegmentError(Split(text));
  }

  /** And otherwise the first segment that is no name says why: it is empty, relative, or badly spelt. */
  lemma FirstBadSegmentCounts(text: string, i: nat)
    requires Clean(text) && 0 < |text| <= 512 && '\\' !in text && i < |Split(text)|
    requires forall j :: 0 <= j < i ==> Plain(Split(text)[j])
    ensures Split(text)[i] == [] ==> Parse(text) == Err(EmptySegment)
    ensures Split(text)[i] == "." || Split(text)[i] == ".." ==> Parse(text) == Err(RelativeSegment)
    ensures var p := Split(text)[i];
      !Plain(p) && p !in ["", ".", ".."] && !(p[|p| - 1] == '\n' && Plain(p[..|p| - 1])) ==> Parse(text) == Err(BadSegment)
  {
    CleanStays(text);
    hide Strip, Split, Join, Clean;
    FirstSegmentError(Split(text), i);
  }

  lemma {:induction false} FirstSegmentError(parts: seq<string>, i: nat)
    requires i < |parts| && forall j :: 0 <= j < i ==> Plain(parts[j])
    ensures parts[i] == [] ==> SegmentError(parts) == Err(EmptySegment)
    ensures parts[i] == "." || parts[i] == ".." ==> SegmentError(parts) == Err(RelativeSegment)
    ensures var p := parts[i];
      !Plain(p) && p !in ["", ".", ".."] && !(p[|p| - 1] == '\n' && Plain(p[..|p| - 1])) ==> SegmentError(parts) == Err(BadSegment)
  {
    SegmentsArePlain(parts[0]);
    if i > 0 { FirstSegmentError(parts[1..], i - 1); }
  }

  lemma CleanStays(text: string)
    requires Clean(text)
    ensures Strip(Strip(text, IsSpace), c => c == '/') == text
  {
  }

  lemma SegmentsArePlain(p: string)
    ensures MatchesSegment(p) <==> Plain(p) || (|p| > 1 && p[|p| - 1] == '\n' && Plain(p[..|p| - 1]))
    ensures MatchesSegment(p) ==> p != [] && p != "." && p != ".." && '\\' !in p
  {
    NamesArePlain(p);
    if p != [] { NamesArePlain(p[..|p| - 1]); }
    if MatchesSegment(p) { SegmentEnds(p); }
  }

  lemma NamesArePlain(p: string)
    ensures IsName(p) <==> Plain(p)
  {
    if Plain(p) { assert forall i :: 0 <= i < |p| ==> p[i] in p; }
  }

  lemma {:induction false} BackslashStays(s: string)
    requires '\\' in s
    ensures exists p :: p in Split(s) && '\\' in p
  {
    var rest, parts := Split(s[1..]), Split(s);
    if s[0] == '\\' {
      assert '\\' in parts[0];
    } else {
      assert s == [s[0]] + s[1..];
      BackslashStays(s[1..]);
      var i :| 0 <= i < |rest| && '\\' in rest[i];
      assert '\\' in if s[0] == '/' then parts[i + 1] else parts[i];
    }
  }

  /** What is stripped: white space at both ends, and then slashes. */
  lemma {:induction false} EndsAreStripped(before: string, slashes: string, text: string, more: string, after: string)
    requires forall c :: c in before + after ==> c in SPACES
    requires forall c :: c in slashes + more ==> c == '/'
    requires text != [] && Clean(text)
    ensures Parse(before + (slashes + text + more) + after) == Parse(text)
  {
    hide StripLeft, StripRight, Split, Join, SegmentError;
    var slash := (c: char) => c == '/';
    var kept := slashes + text + more;
    assert slashes != [] ==> kept[0] == slashes[0] && slashes[0] in slashes + more;
    assert more != [] ==> kept[|kept| - 1] == more[|more| - 1] && more[|more| - 1] in slashes + more;
    StripsEnds(before, kept, after, IsSpace);
    SlashesGo(slashes, text, more);
    CleanStays(text);
  }

  lemma SlashesGo(slashes: string, text: string, more: string)
    requires (forall c :: c in slashes + more ==> c == '/') && text != [] && Clean(text)
    ensures Strip(slashes + text + more, c => c == '/') == text
  {
    StripsEnds(slashes, text, more, c => c == '/');
  }

  lemma {:induction false} StripsEnds(a: string, s: string, b: string, drop: char -> bool)
    requires s != [] && !drop(s[0]) && !drop(s[|s| - 1])
    requires (forall c :: c in a + b ==> drop(c))
    ensures Strip(a + s + b, drop) == s
  {
    StripsFront(a, s + b, drop);
    assert a + s + b == a + (s + b);
    StripsBack(s, b, drop);
  }

  lemma {:induction false} StripsFront(a: string, s: string, drop: char -> bool)
    requires s != [] && !drop(s[0]) && forall c :: c in a ==> drop(c)
    ensures StripLeft(a + s, drop) == s
  {
    if a == [] {
      assert a + s == s;
    } else {
      assert a[0] in a && (a + s)[1..] == a[1..] + s;
      StripsFront(a[1..], s, drop);
    }
  }

  lemma {:induction false} StripsBack(s: string, b: string, drop: char -> bool)
    requires s != [] && !drop(s[|s| - 1]) && forall c :: c in b ==> drop(c)
    ensures StripRight(s + b, drop) == s
  {
    if b == [] {
      assert s + b == s;
    } else {
      var k := |b| - 1;
      assert b[k] in b && (s + b)[..|s + b| - 1] == s + b[..k];
      StripsBack(s, b[..k], drop);
    }
  }

  lemma ValidTextIsWellEnded(k: Key)
    requires Valid(k)
    ensures WellEnded(k.path) && WellEnded(Str(k)) && Str(k)[|Str(k)| - 1] == k.path[|k.path| - 1]
    ensures Split(Str(k)) == [k.kind] + Split(k.path) && SegmentError(Split(Str(k))).Ok?
  {
    var parts := Split(k.path);
    JoinSplit(k.path);
    JoinedSegmentsAreWellEnded(parts);
    KindsAreNames(k.kind);
    SegmentEnds(k.kind);
    SplitFirst(k.kind, k.path);
    assert Str(k)[0] == k.kind[0];
    forall p | p in [k.kind] + parts ensures p != [] && p != "." && p != ".." && MatchesSegment(p) {
      SegmentEnds(p);
    }
    NoSegmentError([k.kind] + parts);
  }

  lemma NothingToStrip(s: string)
    requires WellEnded(s) && s[|s| - 1] != '\n'
    ensures Strip(Strip(s, IsSpace), c => c == '/') == s
  {
  }

  lemma {:induction false} StripLeftShortens(s: string, drop: char -> bool)
    ensures |StripLeft(s, drop)| <= |s|
    decreases |s|
  {
    if s != [] && drop(s[0]) { StripLeftShortens(s[1..], drop); }
  }

  lemma {:induction false} StripRightShortens(s: string, drop: char -> bool)
    ensures |StripRight(s, drop)| <= |s|
    decreases |s|
  {
    if s != [] && drop(s[|s| - 1]) { StripRightShortens(s[..|s| - 1], drop); }
  }

  lemma TheNewlineGoes(s: string)
    requires WellEnded(s) && s[|s| - 1] == '\n'
    ensures |Strip(Strip(s, IsSpace), c => c == '/')| < |s|
  {
    var slash := (c: char) => c == '/';
    assert StripLeft(s, IsSpace) == s;
    StripRightShortens(s[..|s| - 1], IsSpace);
    StripLeftShortens(Strip(s, IsSpace), slash);
    StripRightShortens(StripLeft(Strip(s, IsSpace), slash), slash);
  }

  /** Reading a key back gives the same key, except exactly for those whose name ends in a newline. */
  lemma ReadBack(k: Key)
    requires Valid(k)
    ensures k.path != [] && (Parse(Str(k)) == Ok(k) <==> k.path[|k.path| - 1] != '\n')
  {
    ValidTextIsWellEnded(k);
    JoinSplit(k.path);
    assert ([k.kind] + Split(k.path))[1..] == Split(k.path);
    if k.path[|k.path| - 1] != '\n' {
      NothingToStrip(Str(k));
    } else {
      TheNewlineGoes(Str(k));
      if Parse(Str(k)).Ok? { ParsedIsValid(Str(k)); }
    }
  }

  lemma KindsAreNames(kind: string)
    requires kind in KINDS
    ensures '/' !in kind && '\\' !in kind && IsName(kind) && kind != "." && kind != ".."
  {
  }

  lemma OnlyTheSlashGoes(s: string)
    requires WellEnded(s) && s[|s| - 1] == '\n'
    ensures Strip(Strip(s + "/", IsSpace), c => c == '/') == s
  {
    var slash := (c: char) => c == '/';
    assert Strip(s + "/", IsSpace) == s + "/";
    assert (s + "/")[..|s|] == s;
    assert StripRight(s + "/", slash) == StripRight(s, slash);
  }

  /** Such a key does get parsed when it is written with a final slash: the first strip stops at the
      slash, the second leaves the newline, and the pattern accepts it. */
  lemma NewlinesSlipThrough(k: Key)
    requires Valid(k) && |k.path| > 0 && k.path[|k.path| - 1] == '\n'
    ensures Parse(Str(k) + "/") == Ok(k)
  {
    ValidTextIsWellEnded(k);
    OnlyTheSlashGoes(Str(k));
    JoinSplit(k.path);
    assert ([k.kind] + Split(k.path))[1..] == Split(k.path);
  }

  // -- paths and prefixes ------------------------------------------------------------

  /** A local path determines its key, and never leaves the cache root or enters a directory of the
      platform's own. */
  lemma PathsAreKeys(a: Key, b: Key)
    requires Valid(a) && Valid(b)
    ensures Segments(a) == Segments(b) <==> a == b
    ensures forall p :: p in Segments(a) ==> p != [] && p != "." && p != ".." && '/' !in p && p[0] != '.'
    ensures |Segments(a)| >= 2
  {
    KindsAreNames(a.kind);
    JoinSplit(a.path);
    JoinSplit(b.path);
    assert Segments(a)[0] == a.kind && Segments(a)[1..] == Split(a.path);
    assert Segments(b)[0] == b.kind && Segments(b)[1..] == Split(b.path);
  }

  /** Each name followed by a slash. */
  function Render(parts: seq<string>): string {
    if parts == [] then [] else parts[0] + "/" + Render(parts[1..])
  }

  lemma {:induction false} RenderIsJoin(parts: seq<string>)
    requires parts != []
    ensures Render(parts) == Join(parts) + "/"
  {
    if |parts| == 1 { assert Render(parts[1..]) == []; } else { RenderIsJoin(parts[1..]); }
  }

  function FirstSlash(s: string): nat {
    if s == [] || s[0] == '/' then 0 else 1 + FirstSlash(s[1..])
  }

  lemma {:induction false} FirstSlashAfter(x: string, rest: string)
    requires '/' !in x
    ensures FirstSlash(x + "/" + rest) == |x|
  {
    if x == [] {
      assert x + "/" + rest == "/" + rest;
    } else {
      FirstSlashAfter(x[1..], rest);
      assert (x + "/" + rest)[1..] == x[1..] + "/" + rest;
    }
  }

  lemma {:induction false} FirstSlashOfPrefix(s: string, t: string)
    requires s <= t && '/' in s
    ensures FirstSlash(s) == FirstSlash(t)
  {
    if s[0] != '/' {
      assert s == [s[0]] + s[1..];
      FirstSlashOfPrefix(s[1..], t[1..]);
    }
  }

  lemma SameHead(x: string, y: string, rx: string, ry: string)
    requires '/' !in x && '/' !in y && x + "/" + rx <= y + "/" + ry
    ensures x == y && rx <= ry
  {
    var s, t := x + "/" + rx, y + "/" + ry;
    FirstSlashAfter(x, rx);
    FirstSlashAfter(y, ry);
    assert s[|x|] == '/';
    FirstSlashOfPrefix(s, t);
    assert x == s[..|x|] && y == t[..|x|];
    assert rx == s[|x| + 1..] && ry == t[|x| + 1..];
  }

  lemma {:induction false} PrefixOfRender(a: seq<string>, b: seq<string>)
    requires (forall p :: p in a ==> '/' !in p) && (forall p :: p in b ==> '/' !in p)
    ensures Render(a) <= Render(b) <==> a <= b
    decreases |a|
  {
    if a != [] && b != [] {
      PrefixOfRender(a[1..], b[1..]);
      if Render(a) <= Render(b) { SameHead(a[0], b[0], Render(a[1..]), Render(b[1..])); }
      assert a == [a[0]] + a[1..] && b == [b[0]] + b[1..];
    }
  }

  /** An object prefix covers another key's objects exactly when the other key lies inside this one:
      never a sibling whose name merely begins alike. */
  lemma PrefixesMatchWholeSegments(a: Key, b: Key)
    requires Valid(a) && Valid(b)
    ensures ObjectPrefix(a) <= ObjectPrefix(b) <==> Segments(a) <= Segments(b)
  {
    KindsAreNames(a.kind);
    KindsAreNames(b.kind);
    JoinSplit(a.path);
    JoinSplit(b.path);
    assert Segments(a)[1..] == Split(a.path) && Segments(b)[1..] == Split(b.path);
    RenderIsJoin(Segments(a));
    RenderIsJoin(Segments(b));
    PrefixOfRender(Segments(a), Segments(b));
  }
}
