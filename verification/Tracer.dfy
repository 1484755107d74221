/** Rollout traces: batches collected while reward functions score them, and the advantages written
    down for each completion. `RolloutTracer` of `nawat/lab/trace.py`. */
module Tracer {
  import opened Wrappers
  import opened Advantages

  datatype Batch = Batch(id: int, prompts: seq<string>, completions: seq<string>, scores: map<nat, seq<Score>>)

  /** A reward function returning: which one, the identity of the completions it scored, and what it
      gave. Should the batch be flushed, call out number `fails` raises: the `n` writes, then the flush
      of the writer, then `on_round`. */
  datatype Call = Call(
    index: nat, id: int, prompts: seq<string>, completions: seq<string>, scores: Option<seq<Score>>, fails: Option<nat>)

  datatype Record = Record(
    round: nat, group: nat, member: nat, prompt: Option<string>, completion: string,
    rewards: seq<Score>, total: Option<real>, advantage: Option<real>)

  // -- collecting ------------------------------------------------------------------------

  /** A flush: of which batch, under which round, and whether it came through to the end. */
  datatype Flushed = Flushed(batch: Batch, round: nat, through: bool)

  datatype State = State(pending: map<int, Batch>, flushed: seq<Flushed>, round: nat)

  function Given(c: Call): seq<Score> {
    if c.scores.Some? then c.scores.value else seq(|c.completions|, i => Missing)
  }

  /** The batch of a call, with what the call adds. */
  function Extended(pending: map<int, Batch>, c: Call): Batch {
    var batch := if c.id in pending then pending[c.id] else Batch(c.id, c.prompts, c.completions, map[]);
    batch.(scores := batch.scores[c.index := Given(c)])
  }

  /** Every function gave a score for every completion: otherwise writing the batch raises. */
  predicate Whole(b: Batch, size: nat) {
    forall i :: 0 <= i < size ==> i in b.scores && |b.scores[i]| >= |b.completions|
  }

  /** Flushing the batch raises nowhere. */
  predicate Through(b: Batch, fails: Option<nat>, size: nat) {
    Whole(b, size) && (fails.Some? ==> fails.value >= |b.completions| + 2)
  }

  /** How many lines a flush of the batch writes. */
  function Written(b: Batch, fails: Option<nat>, size: nat): (n: nat)
    ensures n <= |b.completions|
  {
    if !Whole(b, size) then 0
    else if fails.Some? && fails.value < |b.completions| then fails.value
    else |b.completions|
  }

  /** `_collect`, over `size` reward functions. */
  function Step(s: State, c: Call, size: nat): State {
    var batch := Extended(s.pending, c);
    if |batch.scores| == size then
      var through := Through(batch, c.fails, size);
      State(s.pending - {c.id}, s.flushed + [Flushed(batch, s.round, through)], if through then s.round + 1 else s.round)
    else
      s.(pending := s.pending[c.id := batch])
  }

  function Run(calls: seq<Call>, size: nat): State {
    if calls == [] then State(map[], [], 0) else Step(Run(calls[..|calls| - 1], size), calls[|calls| - 1], size)
  }

  /** No function scores a batch twice while the batch is live. */
  predicate Once(pending: map<int, Batch>, c: Call) {
    c.id in pending ==> c.index !in pending[c.id].scores
  }

  predicate Orderly(calls: seq<Call>, size: nat) {
    calls == []
    || (var init, last := calls[..|calls| - 1], calls[|calls| - 1];
        Orderly(init, size) && last.index < size && Once(Run(init, size).pending, last))
  }

  function CallsFor(calls: seq<Call>, id: int): nat {
    if calls == [] then 0
    else CallsFor(calls[..|calls| - 1], id) + if calls[|calls| - 1].id == id then 1 else 0
  }

  function FlushesOf(flushed: seq<Flushed>, id: int): nat {
    if flushed == [] then 0
    else FlushesOf(flushed[..|flushed| - 1], id) + if flushed[|flushed| - 1].batch.id == id then 1 else 0
  }

  function Waiting(pending: map<int, Batch>, id: int): nat {
    if id in pending then |pending[id].scores| else 0
  }

  /** What the latest call of function `index` on `id` gave. */
  function Latest(calls: seq<Call>, id: int, index: nat): Option<seq<Score>> {
    if calls == [] then None
    else if calls[|calls| - 1].id == id && calls[|calls| - 1].index == index then Some(Given(calls[|calls| - 1]))
    else Latest(calls[..|calls| - 1], id, index)
  }

  ghost function Upto(n: nat): (s: set<nat>)
    ensures |s| == n && forall i: nat :: i in s <==> i < n
  {
    if n == 0 then {} else Upto(n - 1) + {n - 1}
  }

  lemma {:induction false} AllOfThem(a: set<nat>, b: set<nat>)
    requires a <= b
    ensures |a| <= |b|
    ensures |a| == |b| ==> a == b
    decreases |b|
  {
    if x :| x in a {
      AllOfThem(a - {x}, b - {x});
      assert a == (a - {x}) + {x} && b == (b - {x}) + {x};
    }
  }

  lemma ScoredByAtMostAll(b: Batch, size: nat)
    requires InRange(b, size)
    ensures |b.scores| <= size && (|b.scores| == size ==> Done(b, size))
  {
    AllOfThem(b.scores.Keys, Upto(size));
    assert |b.scores| == |b.scores.Keys|;
  }

  /** Only the functions there are have scored it. */
  ghost predicate InRange(b: Batch, size: nat) {
    forall i :: i in b.scores ==> i < size
  }

  ghost predicate AllInRange(pending: map<int, Batch>, size: nat) {
    forall id :: id in pending ==> InRange(pending[id], size)
  }

  lemma ExtendedInRange(pending: map<int, Batch>, c: Call, size: nat)
    requires AllInRange(pending, size) && c.index < size
    ensures var b := Extended(pending, c); InRange(b, size) && (|b.scores| == size ==> Done(b, size))
    ensures AllInRange(pending[c.id := Extended(pending, c)], size) && AllInRange(pending - {c.id}, size)
  {
    var b := Extended(pending, c);
    assert c.id in pending ==> InRange(pending[c.id], size);
    ScoredByAtMostAll(b, size);
  }

  /** What every live batch keeps: some functions have scored it, and not all of them. */
  ghost predicate Live(calls: seq<Call>, b: Batch, id: int, size: nat) {
    && b.id == id && InRange(b, size) && 0 < |b.scores| < size
    && forall i :: i in b.scores ==> Latest(calls, id, i) == Some(b.scores[i])
  }

  /** Scored by all the functions. */
  ghost predicate Done(b: Batch, size: nat) {
    InRange(b, size) && forall i: nat :: i < size ==> i in b.scores
  }

  /** It holds what each function gave it last. */
  ghost predicate Holds(calls: seq<Call>, b: Batch, size: nat) {
    Done(b, size) && forall i :: 0 <= i < size ==> Latest(calls, b.id, i) == Some(b.scores[i])
  }

  /** What every flushed batch is: at one of the calls so far it held what each function gave it last. */
  ghost predicate Held(calls: seq<Call>, b: Batch, size: nat) {
    exists n :: 0 < n <= |calls| && calls[n - 1].id == b.id && Holds(calls[..n], b, size)
  }

  ghost predicate Kept(calls: seq<Call>, s: State, size: nat) {
    && (forall id :: id in s.pending ==> Live(calls, s.pending[id], id, size))
    && (forall f :: f in s.flushed ==> Held(calls, f.batch, size))
    && (forall id :: CallsFor(calls, id) == size * FlushesOf(s.flushed, id) + Waiting(s.pending, id))
  }

  lemma LatestStep(calls: seq<Call>, c: Call, id: int, index: nat)
    ensures Latest(calls + [c], id, index) == if c.id == id && c.index == index then Some(Given(c)) else Latest(calls, id, index)
    ensures CallsFor(calls + [c], id) == CallsFor(calls, id) + if c.id == id then 1 else 0
  {
    assert (calls + [c])[..|calls|] == calls;
  }

  /** The batch of a call: one more function has scored it, and it holds what each gave last. */
  lemma ExtendedIsScored(calls: seq<Call>, s: State, c: Call, size: nat)
    requires Kept(calls, s, size) && c.index < size && Once(s.pending, c)
    ensures var b := Extended(s.pending, c);
      && b.id == c.id && InRange(b, size)
      && |b.scores| == Waiting(s.pending, c.id) + 1 <= size
      && (|b.scores| == size ==> Done(b, size))
      && forall i :: i in b.scores ==> Latest(calls + [c], c.id, i) == Some(b.scores[i])
  {
    var b := Extended(s.pending, c);
    assert c.id in s.pending ==> Live(calls, s.pending[c.id], c.id, size);
    var before := if c.id in s.pending then s.pending[c.id].scores else map[];
    assert b.scores == before[c.index := Given(c)];
    assert b.scores.Keys == before.Keys + {c.index};
    ScoredByAtMostAll(b, size);
    forall i | i in b.scores ensures Latest(calls + [c], c.id, i) == Some(b.scores[i]) {
      LatestStep(calls, c, c.id, i);
    }
  }

  lemma OthersStay(calls: seq<Call>, s: State, c: Call, id: int, size: nat)
    requires Kept(calls, s, size) && id != c.id && id in s.pending
    ensures Live(calls + [c], s.pending[id], id, size)
  {
    assert Live(calls, s.pending[id], id, size);
    forall i | i in s.pending[id].scores ensures Latest(calls + [c], id, i) == Some(s.pending[id].scores[i]) {
      LatestStep(calls, c, id, i);
    }
  }

  lemma FlushCounts(flushed: seq<Flushed>, f: Flushed, id: int, size: nat)
    ensures FlushesOf(flushed + [f], id) == FlushesOf(flushed, id) + if f.batch.id == id then 1 else 0
    ensures f.batch.id == id ==> size * FlushesOf(flushed + [f], id) == size * FlushesOf(flushed, id) + size
  {
    assert (flushed + [f])[..|flushed|] == flushed;
    var n := FlushesOf(flushed, id);
    assert size * (n + 1) == size * n + size;
  }

  lemma HeldStays(calls: seq<Call>, c: Call, b: Batch, size: nat)
    ensures Held(calls, b, size) ==> Held(calls + [c], b, size)
    ensures c.id == b.id && Holds(calls + [c], b, size) ==> Held(calls + [c], b, size)
  {
    var more := calls + [c];
    assert more[..|more|] == more;
    if n :| 0 < n <= |calls| && calls[n - 1].id == b.id && Holds(calls[..n], b, size) {
      assert more[..n] == calls[..n] && more[n - 1] == calls[n - 1];
    }
  }

  lemma FlushedAreHeld(calls: seq<Call>, s: State, c: Call, size: nat)
    requires Kept(calls, s, size) && c.index < size && Once(s.pending, c)
    ensures forall f :: f in Step(s, c, size).flushed ==> Held(calls + [c], f.batch, size)
  {
    ExtendedIsScored(calls, s, c, size);
    forall f | f in Step(s, c, size).flushed ensures Held(calls + [c], f.batch, size) {
      HeldStays(calls, c, f.batch, size);
    }
  }

  lemma PendingAreLive(calls: seq<Call>, s: State, c: Call, size: nat)
    requires Kept(calls, s, size) && c.index < size && Once(s.pending, c)
    ensures var t := Step(s, c, size); forall id :: id in t.pending ==> Live(calls + [c], t.pending[id], id, size)
  {
    ExtendedIsScored(calls, s, c, size);
    var t := Step(s, c, size);
    forall id | id in t.pending ensures Live(calls + [c], t.pending[id], id, size) {
      if id != c.id { OthersStay(calls, s, c, id, size); }
    }
  }

  lemma CallsAreCounted(calls: seq<Call>, s: State, c: Call, id: int, size: nat)
    requires Kept(calls, s, size) && c.index < size && Once(s.pending, c)
    ensures var t := Step(s, c, size); CallsFor(calls + [c], id) == size * FlushesOf(t.flushed, id) + Waiting(t.pending, id)
  {
    hide Live, Held, Latest, Through, CallsFor, FlushesOf;
    var b := Extended(s.pending, c);
    ExtendedIsScored(calls, s, c, size);
    LatestStep(calls, c, id, 0);
    FlushCounts(s.flushed, Flushed(b, s.round, Through(b, c.fails, size)), id, size);
    assert CallsFor(calls, id) == size * FlushesOf(s.flushed, id) + Waiting(s.pending, id);
  }

  lemma StepKeeps(calls: seq<Call>, s: State, c: Call, size: nat)
    requires Kept(calls, s, size) && c.index < size && Once(s.pending, c)
    ensures Kept(calls + [c], Step(s, c, size), size)
  {
    PendingAreLive(calls, s, c, size);
    FlushedAreHeld(calls, s, c, size);
    forall id ensures var t := Step(s, c, size);
      CallsFor(calls + [c], id) == size * FlushesOf(t.flushed, id) + Waiting(t.pending, id)
    {
      CallsAreCounted(calls, s, c, id, size);
    }
  }

  lemma OneMoreCall(calls: seq<Call>, c: Call, size: nat)
    ensures Orderly(calls + [c], size) <==> Orderly(calls, size) && c.index < size && Once(Run(calls, size).pending, c)
    ensures Run(calls + [c], size) == Step(Run(calls, size), c, size)
  {
    assert (calls + [c])[..|calls|] == calls;
  }

  lemma NothingKept(size: nat)
    ensures Kept([], State(map[], [], 0), size)
  {
  }

  /** A call adds what its function gave, or a missing score for each completion when it gave nothing,
      to the live batch of its identity, or to a new one with its own prompts and completions. */
  lemma CallIsAdded(pending: map<int, Batch>, c: Call, i: nat)
    ensures var b := Extended(pending, c);
      && b.id == (if c.id in pending then pending[c.id].id else c.id)
      && b.prompts == (if c.id in pending then pending[c.id].prompts else c.prompts)
      && b.completions == (if c.id in pending then pending[c.id].completions else c.completions)
      && c.index in b.scores
      && (c.scores.Some? ==> b.scores[c.index] == c.scores.value)
      && (c.scores.None? ==> |b.scores[c.index]| == |c.completions| && forall v :: v in b.scores[c.index] ==> v.Missing?)
      && (i != c.index ==> (i in b.scores <==> c.id in pending && i in pending[c.id].scores)
                           && (i in b.scores ==> b.scores[i] == pending[c.id].scores[i]))
  {
  }

  /** However the calls of different batches interleave, and whatever raises: what a batch holds, live
      or flushed, is what each function gave it last, a batch is flushed when the last function has
      scored it and never before, and the calls for an identity are `size` for each of its flushed
      batches plus those of the one still live. */
  lemma {:induction false} EachBatchOnce(calls: seq<Call>, size: nat)
    requires Orderly(calls, size)
    ensures Kept(calls, Run(calls, size), size)
    decreases |calls|
  {
    hide Kept, Step;
    if calls == [] {
      NothingKept(size);
    } else {
      var init, last := calls[..|calls| - 1], calls[|calls| - 1];
      assert init + [last] == calls;
      EachBatchOnce(init, size);
      StepKeeps(init, Run(init, size), last, size);
    }
  }

  /** A call flushes exactly when every other function has scored the batch already. */
  lemma {:induction false} FlushedByTheLastCall(calls: seq<Call>, c: Call, size: nat)
    requires Orderly(calls + [c], size)
    ensures var s, t := Run(calls, size), Run(calls + [c], size);
      if Waiting(s.pending, c.id) + 1 == size
      then |t.flushed| == |s.flushed| + 1 && t.flushed[..|s.flushed|] == s.flushed && c.id !in t.pending
           && (var b := t.flushed[|s.flushed|].batch; b.id == c.id && Holds(calls + [c], b, size))
      else t.flushed == s.flushed && c.id in t.pending
  {
    OneMoreCall(calls, c, size);
    EachBatchOnce(calls, size);
    ExtendedIsScored(calls, Run(calls, size), c, size);
  }

  function ThroughOnes(flushed: seq<Flushed>): (n: nat)
    ensures n <= |flushed|
  {
    if flushed == [] then 0
    else ThroughOnes(flushed[..|flushed| - 1]) + if flushed[|flushed| - 1].through then 1 else 0
  }

  lemma {:induction false} ThroughOnesGrow(flushed: seq<Flushed>, i: nat, j: nat)
    requires i <= j <= |flushed|
    ensures ThroughOnes(flushed[..i]) <= ThroughOnes(flushed[..j])
    ensures ThroughOnes(flushed[..i]) == ThroughOnes(flushed[..j]) <==> forall k :: i <= k < j ==> !flushed[k].through
    decreases j
  {
    if i < j {
      ThroughOnesGrow(flushed, i, j - 1);
      assert flushed[..j][..j - 1] == flushed[..j - 1];
    }
  }

  /** The round a batch is written under is the number of flushes before it that came through. */
  predicate Numbered(flushed: seq<Flushed>) {
    flushed == []
    || (var init, last := flushed[..|flushed| - 1], flushed[|flushed| - 1];
        Numbered(init) && last.round == ThroughOnes(init))
  }

  lemma {:induction false} NumberedAt(flushed: seq<Flushed>, i: nat)
    requires Numbered(flushed) && i < |flushed|
    ensures flushed[i].round == ThroughOnes(flushed[..i])
  {
    if i < |flushed| - 1 {
      NumberedAt(flushed[..|flushed| - 1], i);
      assert flushed[..|flushed| - 1][..i] == flushed[..i];
    }
  }

  lemma SameRound(flushed: seq<Flushed>, i: nat, j: nat)
    requires Numbered(flushed) && i < j < |flushed|
    ensures flushed[i].round == flushed[j].round <==> forall k :: i <= k < j ==> !flushed[k].through
  {
    NumberedAt(flushed, i);
    NumberedAt(flushed, j);
    ThroughOnesGrow(flushed, i, j);
  }

  lemma OneMoreFlush(flushed: seq<Flushed>, f: Flushed)
    requires Numbered(flushed) && f.round == ThroughOnes(flushed)
    ensures Numbered(flushed + [f]) && ThroughOnes(flushed + [f]) == ThroughOnes(flushed) + if f.through then 1 else 0
  {
    var more := flushed + [f];
    assert more[..|more| - 1] == flushed && more[|more| - 1] == f;
  }

  lemma {:induction false} RoundsAreNumbered(calls: seq<Call>, size: nat)
    ensures var s := Run(calls, size); s.round == ThroughOnes(s.flushed) && Numbered(s.flushed)
    decreases |calls|
  {
    if calls != [] {
      var init, c := calls[..|calls| - 1], calls[|calls| - 1];
      RoundsAreNumbered(init, size);
      var s := Run(init, size);
      var b := Extended(s.pending, c);
      OneMoreFlush(s.flushed, Flushed(b, s.round, Through(b, c.fails, size)));
    }
  }

  lemma {:induction false} AllThrough(flushed: seq<Flushed>)
    ensures ThroughOnes(flushed) == |flushed| <==> forall f :: f in flushed ==> f.through
  {
    if flushed != [] {
      var init, last := flushed[..|flushed| - 1], flushed[|flushed| - 1];
      AllThrough(init);
      assert flushed == init + [last];
    }
  }

  lemma NumbersCount(flushed: seq<Flushed>, round: nat)
    requires Numbered(flushed) && round == ThroughOnes(flushed)
    ensures round == |flushed| <==> forall f :: f in flushed ==> f.through
    ensures forall i, j :: 0 <= i < j < |flushed| ==>
              (flushed[i].round == flushed[j].round <==> forall k :: i <= k < j ==> !flushed[k].through)
  {
    AllThrough(flushed);
    forall i, j | 0 <= i < j < |flushed|
      ensures flushed[i].round == flushed[j].round <==> forall k :: i <= k < j ==> !flushed[k].through
    {
      SameRound(flushed, i, j);
    }
  }

  /** The round counter is the number of flushed batches exactly when none of them was left short and
      nothing raised while it was written; and two batches are written under one round exactly when
      nothing from the first of them up to the second came through. */
  lemma {:induction false} RoundsAreBatches(calls: seq<Call>, size: nat)
    ensures var s := Run(calls, size);
      && (s.round == |s.flushed| <==> forall f :: f in s.flushed ==> f.through)
      && forall i, j :: 0 <= i < j < |s.flushed| ==>
           (s.flushed[i].round == s.flushed[j].round <==> forall k :: i <= k < j ==> !s.flushed[k].through)
  {
    var s := Run(calls, size);
    RoundsAreNumbered(calls, size);
    NumbersCount(s.flushed, s.round);
  }

  lemma GroupAndMember(j: nat, size: nat)
    requires size >= 1
    ensures j / size * size + j % size == j && j % size < size
  {
  }

  // -- the tracer ------------------------------------------------------------------------

  class RolloutTracer {
    const size: nat
    const weights: seq<real>
    const groupSize: nat
    const scale: Scale
    const root: real -> real
    var pending: map<int, Batch>
    var round: nat
    var written: seq<Record>
    ghost var flushed: seq<Flushed>

    ghost function Now(): State
      reads this
    {
      State(pending, flushed, round)
    }

    ghost predicate Valid()
      reads this
    {
      && groupSize >= 1 && size == |weights| && Root(root)
      && AllInRange(pending, size)
    }

    constructor (weights: seq<real>, numGenerations: int, scale: Scale, root: real -> real)
      requires Root(root)
      ensures Valid()
      ensures size == |weights| && this.weights == weights && this.scale == scale && this.root == root
      ensures groupSize == if numGenerations > 1 then numGenerations else 1
      ensures Now() == State(map[], [], 0) && written == []
    {
      this.weights, size, this.scale, this.root := weights, |weights|, scale, root;
      groupSize := if numGenerations > 1 then numGenerations else 1;
      pending, round, written, flushed := map[], 0, [], [];
    }

    /** `_collect`, as the wrapped function calls it; true when it raised. */
    method Collect(c: Call) returns (raised: bool)
      requires Valid() && c.index < size
      modifies this
      ensures Valid()
      ensures Now() == Step(old(Now()), c, size)
      ensures raised <==> |Extended(old(pending), c).scores| == size && !Through(Extended(old(pending), c), c.fails, size)
      ensures written == old(written) + Lines(old(pending), old(round), c)
    {
      var batch := Extended(pending, c);
      ExtendedInRange(pending, c, size);
      if |batch.scores| != size {
        pending := pending[c.id := batch];
        return false;
      }
      pending := pending - {c.id};
      flushed := flushed + [Flushed(batch, round, Through(batch, c.fails, size))];
      raised := Flush(batch, c.fails);
    }

    /** What each function gave completion `j`. */
    function Vals(b: Batch, j: nat): seq<Score>
      requires Whole(b, size) && j < |b.completions|
    {
      seq(size, i requires 0 <= i < size => b.scores[i][j])
    }

    function Totals(b: Batch): seq<Option<real>>
      requires Whole(b, size) && size == |weights|
    {
      seq(|b.completions|, j requires 0 <= j < |b.completions| => Total(weights, Vals(b, j)))
    }

    /** The lines a batch leaves: completion `j` is member `j % groupSize` of group `j / groupSize`. */
    ghost function Records(b: Batch, round: nat): seq<Record>
      requires Whole(b, size) && size == |weights| && groupSize >= 1 && Root(root)
    {
      seq(|b.completions|, j requires 0 <= j < |b.completions| => RecordOf(b, round, j))
    }

    /** The lines a call leaves: those of the batch it completes, if it completes one, as far as writing comes. */
    ghost function Lines(pending: map<int, Batch>, round: nat, c: Call): seq<Record>
      requires size == |weights| && groupSize >= 1 && Root(root)
    {
      var b := Extended(pending, c);
      if |b.scores| == size && Whole(b, size) then Records(b, round)[..Written(b, c.fails, size)] else []
    }

    /** What is written when a call completes a batch: a line for each completion, in order, up to the
        write that raises, or none when a function gave fewer scores than there are completions. Each
        line has what every function gave its completion, in their order, and their weighted total. */
    lemma LinesTell(pending: map<int, Batch>, round: nat, c: Call)
      requires size == |weights| && groupSize >= 1 && Root(root) && AllInRange(pending, size) && c.index < size
      requires |Extended(pending, c).scores| == size
      ensures var b, lines := Extended(pending, c), Lines(pending, round, c);
        var n := |b.completions|;
        && Done(b, size)
        && (Through(b, c.fails, size) <==> (forall i :: 0 <= i < size ==> |b.scores[i]| >= n) && (c.fails.Some? ==> c.fails.value > n + 1))
        && |lines| == (if exists i :: 0 <= i < size && |b.scores[i]| < n then 0
                       else if c.fails.Some? && c.fails.value <= n then c.fails.value else n)
        && forall j :: 0 <= j < |lines| ==> Tells(lines[j], b, round, j)
    {
      ExtendedInRange(pending, c, size);
      var b, lines := Extended(pending, c), Lines(pending, round, c);
      forall j | 0 <= j < |lines| ensures Tells(lines[j], b, round, j) {
        assert lines[j] == RecordOf(b, round, j);
        GroupAndMember(j, groupSize);
      }
    }

    /** The line of completion `j`. */
    ghost predicate Tells(r: Record, b: Batch, round: nat, j: nat)
      requires Done(b, size) && Whole(b, size) && j < |b.completions|
      requires size == |weights| && groupSize >= 1 && Root(root)
    {
      && r.round == round && r.group * groupSize + r.member == j && r.member < groupSize
      && r.completion == b.completions[j] && r.prompt == (if j < |b.prompts| then Some(b.prompts[j]) else None)
      && |r.rewards| == size && (forall i :: 0 <= i < size ==> r.rewards[i] == b.scores[i][j])
      && r.total == Total(weights, r.rewards) && r.advantage == AdvantageAt(Totals(b), groupSize, scale, root, j)
    }

    ghost function RecordOf(b: Batch, round: nat, j: nat): Record
      requires Whole(b, size) && size == |weights| && groupSize >= 1 && Root(root) && j < |b.completions|
    {
      Record(round, j / groupSize, j % groupSize, if j < |b.prompts| then Some(b.prompts[j]) else None, b.completions[j],
             Vals(b, j), Totals(b)[j], AdvantageAt(Totals(b), groupSize, scale, root, j))
    }

    /** `_flush`; true when it raised. */
    method Flush(batch: Batch, fails: Option<nat>) returns (raised: bool)
      requires groupSize >= 1 && size == |weights| && Root(root) && Done(batch, size)
      modifies this`round, this`written
      ensures raised <==> !Through(batch, fails, size)
      ensures round == if raised then old(round) else old(round) + 1
      ensures written == old(written) + if Whole(batch, size) then Records(batch, old(round))[..Written(batch, fails, size)] else []
    {
      var n := |batch.completions|;
      for i := 0 to size
        invariant forall k :: 0 <= k < i ==> |batch.scores[k]| >= n
      {
        if |batch.scores[i]| < n { return true; }
      }
      var totals := Totals(batch);
      var advantages := ComputeAdvantages(totals, groupSize, scale, root);
      for j := 0 to n
        invariant round == old(round) && (fails.Some? ==> fails.value >= j)
        invariant written == old(written) + Records(batch, round)[..j]
      {
        if fails == Some(j) { return true; }
        ghost var before := Records(batch, round)[..j];
        var record := Record(round, j / groupSize, j % groupSize, if j < |batch.prompts| then Some(batch.prompts[j]) else None,
                             batch.completions[j], Vals(batch, j), totals[j], advantages[j]);
        assert record == RecordOf(batch, round, j);
        assert Records(batch, round)[..j + 1] == before + [record];
        written := written + [record];
      }
      if fails == Some(n) || fails == Some(n + 1) { return true; }
      round := round + 1;
      return false;
    }
  }
}
