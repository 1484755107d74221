/** Packing many small files into few large tar shards: `nawat/shards.py`. */
module Shards {
  import opened Wrappers

  /** A file under the source, named by its path from there. */
  datatype File = File(name: string, content: string)

  /** A tar file: its members, and the size `stat` reports for it. */
  datatype Shard = Shard(members: seq<File>, bytes: nat)

  /** One line of the index; `number` stands for the name `shard-<number>.tar`. */
  datatype Entry = Entry(number: nat, files: nat, contentBytes: nat, bytes: nat)
  datatype Index = Index(shardSize: int, totalFiles: nat, totalBytes: nat, shards: seq<Entry>)

  datatype Error =
    | NoFiles | TooLarge(name: string) | NoIndex
    | Missing(number: nat) | SizeChanged(number: nat) | CountChanged(number: nat) | TotalDiffers

  class Directory {
    var shards: map<nat, Shard>
    var index: Option<Index>

    constructor ()
      ensures shards == map[] && index == None
    {
      shards, index := map[], None;
    }
  }

  // -- what packing means --------------------------------------------------------------

  function Bytes(files: seq<File>): nat {
    if files == [] then 0 else Bytes(files[..|files| - 1]) + |files[|files| - 1].content|
  }

  function Flatten(groups: seq<seq<File>>): seq<File> {
    if groups == [] then [] else groups[0] + Flatten(groups[1..])
  }

  predicate Fits(group: seq<File>, limit: int) {
    Bytes(group) <= limit
  }

  /** A way of cutting `files` into consecutive groups, none over the limit. */
  predicate Split(groups: seq<seq<File>>, files: seq<File>, limit: int) {
    Flatten(groups) == files && forall g :: g in groups ==> Fits(g, limit)
  }

  /** A group with no room left for a file. */
  predicate Full(group: seq<File>, f: File, limit: int) {
    Bytes(group) + |f.content| > limit
  }

  /** No group is empty, and none had room for the file that opens the next. */
  predicate Tight(groups: seq<seq<File>>, limit: int) {
    && (forall i :: 0 <= i < |groups| ==> groups[i] != [])
    && (forall i, j :: 0 <= i < |groups| && j == i + 1 && j < |groups| ==> Full(groups[i], groups[j][0], limit))
  }

  /** The index and the shard files say what the groups are. */
  predicate Records(index: Index, shards: map<nat, Shard>, groups: seq<seq<File>>, tarSize: seq<File> -> nat) {
    && |index.shards| == |groups|
    && index.totalFiles == |Flatten(groups)|
    && index.totalBytes == Bytes(Flatten(groups))
    && forall i :: 0 <= i < |groups| ==> Recorded(index.shards[i], shards, i, groups[i], tarSize)
  }

  predicate Recorded(entry: Entry, shards: map<nat, Shard>, i: nat, group: seq<File>, tarSize: seq<File> -> nat) {
    && i in shards && shards[i] == Shard(group, tarSize(group))
    && entry == Entry(i, |group|, Bytes(group), tarSize(group))
  }

  /** The greedy packing of `files`. */
  predicate Packs(groups: seq<seq<File>>, files: seq<File>, limit: int) {
    Split(groups, files, limit) && Tight(groups, limit)
  }

  // -- packing -------------------------------------------------------------------------

  lemma {:induction false} FlattenSnoc(groups: seq<seq<File>>, g: seq<File>)
    ensures Flatten(groups + [g]) == Flatten(groups) + g
  {
    if groups == [] {
      assert [] + [g] == [g] && [g][1..] == [];
      assert Flatten([g]) == g + Flatten([]);
    } else {
      FlattenSnoc(groups[1..], g);
      assert (groups + [g])[1..] == groups[1..] + [g];
    }
  }

  lemma BytesSnoc(group: seq<File>, f: File)
    ensures Bytes(group + [f]) == Bytes(group) + |f.content|
    ensures Bytes([f]) == |f.content|
  {
    assert (group + [f])[..|group|] == group && [f][..0] == [];
  }

  /** The file joins the open group, the last one. */
  lemma Joins(closed: seq<seq<File>>, group: seq<File>, f: File, files: seq<File>, limit: int)
    requires group != [] && Packs(closed + [group], files, limit)
    requires !Full(group, f, limit)
    ensures Packs(closed + [group + [f]], files + [f], limit)
  {
    FlattenSnoc(closed, group);
    FlattenSnoc(closed, group + [f]);
    BytesSnoc(group, f);
    var was, now := closed + [group], closed + [group + [f]];
    assert Flatten(now) == files + [f];
    forall i | 0 <= i < |now| ensures now[i] != [] && Fits(now[i], limit) && now[i][0] == was[i][0] {
      assert was[i] in was;
    }
    forall i, j | 0 <= i < |now| && j == i + 1 && j < |now| ensures Full(now[i], now[j][0], limit) {
      assert now[i] == was[i] && Full(was[i], was[j][0], limit);
    }
  }

  /** The file opens a group of its own. */
  lemma Opens(groups: seq<seq<File>>, f: File, files: seq<File>, limit: int)
    requires Packs(groups, files, limit) && |f.content| <= limit
    requires groups != [] ==> Full(groups[|groups| - 1], f, limit)
    ensures Packs(groups + [[f]], files + [f], limit)
  {
    FlattenSnoc(groups, [f]);
    BytesSnoc([], f);
    var now := groups + [[f]];
    forall g | g in now ensures Fits(g, limit) {
      if g !in groups { assert g == [f]; }
    }
    forall i, j | 0 <= i < |now| && j == i + 1 && j < |now| ensures Full(now[i], now[j][0], limit) {
      assert now[i] == groups[i];
    }
  }

  /** What `pack` keeps between files: the index so far, and the shard being written, when one is open. */
  class Packing {
    const dest: Directory
    const tarSize: seq<File> -> nat
    var entries: seq<Entry>
    var current: Option<Entry>
    ghost var closed: seq<seq<File>>
    ghost var group: seq<File>

    constructor (dest: Directory, tarSize: seq<File> -> nat)
      ensures this.dest == dest && this.tarSize == tarSize
      ensures Valid() && current == None && closed == []
    {
      this.dest, this.tarSize := dest, tarSize;
      entries, current := [], None;
      closed, group := [], [];
    }

    ghost predicate Valid()
      reads this, dest
    {
      && |entries| == |closed|
      && (forall i :: 0 <= i < |closed| ==> Recorded(entries[i], dest.shards, i, closed[i], tarSize))
      && (current.Some? ==> Writing(current.value))
    }

    ghost predicate Writing(entry: Entry)
      reads this, dest
    {
      && entry == Entry(|closed|, |group|, Bytes(group), 0)
      && |closed| in dest.shards && dest.shards[|closed|].members == group
    }

    ghost function Groups(): seq<seq<File>>
      reads this
    {
      if current.Some? then closed + [group] else closed
    }

    method CloseCurrent()
      requires Valid()
      modifies this, dest
      ensures Valid() && current == None && closed == old(Groups()) && dest.index == old(dest.index)
    {
      if current.None? { return; }
      var entry := current.value;
      var shard := dest.shards[entry.number];
      var bytes := tarSize(shard.members);
      dest.shards := dest.shards[entry.number := shard.(bytes := bytes)];
      entries := entries + [entry.(bytes := bytes)];
      current := None;
      closed := closed + [group];
    }

    method OpenNext()
      requires Valid() && current == None
      modifies this, dest
      ensures Valid() && current.Some? && closed == old(closed) && group == [] && dest.index == old(dest.index)
    {
      current := Some(Entry(|entries|, 0, 0, 0));
      dest.shards := dest.shards[|entries| := Shard([], 0)];
      group := [];
    }

    method Add(f: File)
      requires Valid() && current.Some?
      modifies this, dest
      ensures Valid() && current.Some? && closed == old(closed) && group == old(group) + [f] && dest.index == old(dest.index)
    {
      var entry := current.value;
      var shard := dest.shards[entry.number];
      BytesSnoc(group, f);
      dest.shards := dest.shards[entry.number := shard.(members := shard.members + [f])];
      current := Some(entry.(files := entry.files + 1, contentBytes := entry.contentBytes + |f.content|));
      group := group + [f];
    }

    /** Puts a file that fits on its own into the open shard, or into the next one when it has no room;
        `placed` are the files placed so far. */
    method Place(f: File, limit: int, ghost placed: seq<File>)
      requires Valid() && Packs(Groups(), placed, limit) && |f.content| <= limit
      requires current.Some? ==> group != []
      requires current.None? ==> closed == []
      modifies this, dest
      ensures Valid() && Packs(Groups(), placed + [f], limit) && current.Some? && group != []
      ensures dest.index == old(dest.index)
    {
      if current.None? || current.value.contentBytes + |f.content| > limit {
        Opens(Groups(), f, placed, limit);
        CloseCurrent();
        OpenNext();
        assert [] + [f] == [f];
      } else {
        Joins(closed, group, f, placed, limit);
      }
      Add(f);
    }
  }

  lemma NothingPacked(limit: int)
    ensures Packs([], [], limit) && Bytes([]) == 0
  {
  }

  /** `pack`, over the files in sorted order. */
  method Pack(files: seq<File>, shardSize: int, tarSize: seq<File> -> nat, dest: Directory)
    returns (r: Result<Index, Error>, ghost groups: seq<seq<File>>)
    modifies dest
    ensures files == [] ==> r == Err(NoFiles) && dest.shards == old(dest.shards)
    ensures r.Ok? <==> files != [] && forall f :: f in files ==> |f.content| <= shardSize
    ensures r.Err? ==> dest.index == old(dest.index)
    ensures r.Err? && files != [] ==>
              exists i :: 0 <= i < |files| && |files[i].content| > shardSize && r.error == TooLarge(files[i].name)
                          && forall f :: f in files[..i] ==> |f.content| <= shardSize
    ensures r.Ok? ==> dest.index == Some(r.value) && r.value.shardSize == shardSize
    ensures r.Ok? ==> Packs(groups, files, shardSize)
    ensures r.Ok? ==> Records(r.value, dest.shards, groups, tarSize)
  {
    hide Tight, Fits, Flatten, Bytes;
    groups := [];
    if files == [] { return Err(NoFiles), groups; }
    NothingPacked(shardSize);
    var packing := new Packing(dest, tarSize);
    var totalFiles, totalBytes := 0, 0;
    for n := 0 to |files|
      invariant packing.Valid() && packing.dest == dest && packing.tarSize == tarSize
      invariant if n > 0 then packing.current.Some? && packing.group != [] else packing.current.None? && packing.closed == []
      invariant dest.index == old(dest.index)
      invariant forall f :: f in files[..n] ==> |f.content| <= shardSize
      invariant Packs(packing.Groups(), files[..n], shardSize)
      invariant totalFiles == n && totalBytes == Bytes(files[..n])
    {
      var f := files[n];
      assert files[..n + 1] == files[..n] + [f];
      BytesSnoc(files[..n], f);
      if |f.content| > shardSize { return Err(TooLarge(f.name)), groups; }
      packing.Place(f, shardSize, files[..n]);
      totalFiles, totalBytes := totalFiles + 1, totalBytes + |f.content|;
    }
    assert files[..|files|] == files;
    groups := packing.Groups();
    packing.CloseCurrent();
    var index := Index(shardSize, totalFiles, totalBytes, packing.entries);
    dest.index := Some(index);
    return Ok(index), groups;
  }

  // -- how good the packing is ----------------------------------------------------------

  /** Any two neighbouring shards together exceed the limit. */
  lemma NeighboursExceed(groups: seq<seq<File>>, limit: int, i: nat)
    requires Tight(groups, limit) && i + 1 < |groups|
    ensures Bytes(groups[i]) + Bytes(groups[i + 1]) > limit
  {
    BytesOfPart([], groups[i + 1][..1], groups[i + 1][1..]);
    assert [] + groups[i + 1][..1] + groups[i + 1][1..] == groups[i + 1];
    assert groups[i + 1][..1][..0] == [];
  }

  lemma {:induction false} BytesOfPart(a: seq<File>, b: seq<File>, c: seq<File>)
    ensures Bytes(b) <= Bytes(a + b + c)
    decreases |b|, |c|
  {
    if c != [] {
      BytesOfPart(a, b, c[..|c| - 1]);
      assert (a + b + c)[..|a + b + c| - 1] == a + b + c[..|c| - 1];
    } else if b != [] {
      BytesOfPart(a, b[..|b| - 1], []);
      assert a + b + c == a + b;
      assert (a + b)[..|a + b| - 1] == a + b[..|b| - 1];
      assert a + b[..|b| - 1] + [] == a + b[..|b| - 1];
    }
  }

  /** The greedy cut stays ahead of any other: where what is left to it is a tail of what is left to the
      other, it needs no more groups. */
  lemma {:induction false} StaysAhead(ahead: seq<File>, greedy: seq<seq<File>>, other: seq<seq<File>>, limit: int)
    requires Tight(greedy, limit)
    requires forall g :: g in other ==> Fits(g, limit)
    requires Flatten(other) == ahead + Flatten(greedy)
    ensures |greedy| <= |other|
    decreases |other|
  {
    if greedy != [] {
      assert greedy[0] != [] && Flatten(greedy) == greedy[0] + Flatten(greedy[1..]);
      assert other != [];
      var first, rest := other[0], Flatten(other[1..]);
      var left := Flatten(greedy[1..]);
      assert first + rest == ahead + greedy[0] + left;
      if left != [] { StartOfRest(greedy); }
      NoRoomForMore(first, rest, ahead, greedy[0], left, limit);
      var gap := rest[..|rest| - |left|];
      assert rest == gap + left by { SameTail(first, rest, ahead + greedy[0], left); }
      TightTail(greedy, limit);
      StaysAhead(gap, greedy[1..], other[1..], limit);
    }
  }

  /** A group within the limit cannot take in a tight group and the file after it. */
  lemma NoRoomForMore(first: seq<File>, rest: seq<File>, ahead: seq<File>, g: seq<File>, left: seq<File>, limit: int)
    requires first + rest == ahead + g + left && Fits(first, limit)
    requires left != [] ==> Full(g, left[0], limit)
    ensures |rest| >= |left|
  {
    if |rest| < |left| {
      FirstCovers(first, rest, ahead, g, left);
      var taken := g + [left[0]];
      assert taken[..|g|] == g;
      BytesOfPart(ahead, taken, first[|ahead| + |g| + 1..]);
    }
  }

  lemma SameTail(a: seq<File>, b: seq<File>, c: seq<File>, d: seq<File>)
    requires a + b == c + d && |d| <= |b|
    ensures b == b[..|b| - |d|] + d
  {
    var n := |b| - |d|;
    assert b[n..] == (a + b)[|a| + n..] && d == (c + d)[|c|..] && |a| + n == |c|;
  }

  lemma FirstCovers(first: seq<File>, rest: seq<File>, ahead: seq<File>, g: seq<File>, left: seq<File>)
    requires first + rest == ahead + g + left && |rest| < |left|
    ensures |ahead| + |g| + 1 <= |first|
    ensures first == ahead + (g + [left[0]]) + first[|ahead| + |g| + 1..]
  {
    var n := |ahead| + |g| + 1;
    assert first[..n] == (first + rest)[..n] == (ahead + g + left)[..n] == ahead + (g + [left[0]]);
  }

  lemma StartOfRest(groups: seq<seq<File>>)
    requires groups != [] && Flatten(groups[1..]) != [] && forall i :: 0 <= i < |groups| ==> groups[i] != []
    ensures |groups| > 1 && Flatten(groups[1..])[0] == groups[1][0]
  {
  }

  lemma TightTail(groups: seq<seq<File>>, limit: int)
    requires Tight(groups, limit) && groups != []
    ensures Tight(groups[1..], limit)
  {
    var tail := groups[1..];
    forall i, j | 0 <= i < |tail| && j == i + 1 && j < |tail| ensures Full(tail[i], tail[j][0], limit) {
      assert tail[i] == groups[i + 1] && tail[j] == groups[j + 1];
    }
  }

  /** No order-preserving cut of the same files within the limit has fewer shards. */
  lemma NoSplitIsShorter(groups: seq<seq<File>>, other: seq<seq<File>>, files: seq<File>, limit: int)
    requires Packs(groups, files, limit) && Split(other, files, limit)
    ensures |groups| <= |other|
  {
    assert [] + Flatten(groups) == Flatten(other);
    StaysAhead([], groups, other, limit);
  }

  /** What is packed is settled by the files and the limit alone. */
  lemma {:induction false} OnlyOneTightSplit(a: seq<seq<File>>, b: seq<seq<File>>, files: seq<File>, limit: int)
    requires Packs(a, files, limit) && Packs(b, files, limit)
    ensures a == b
    decreases |files|
  {
    if a != [] && b != [] {
      FirstGroupsAgree(a, b, files, limit);
      FirstGroupsAgree(b, a, files, limit);
      TightTail(a, limit);
      TightTail(b, limit);
      assert files[|a[0]|..] == Flatten(a[1..]) == Flatten(b[1..]);
      OnlyOneTightSplit(a[1..], b[1..], files[|a[0]|..], limit);
      assert a == [a[0]] + a[1..] && b == [b[0]] + b[1..];
    }
  }

  lemma FirstGroupsAgree(a: seq<seq<File>>, b: seq<seq<File>>, files: seq<File>, limit: int)
    requires Packs(a, files, limit) && Packs(b, files, limit)
    requires a != [] && b != []
    ensures |a[0]| >= |b[0]| && a[0][..|b[0]|] == b[0]
  {
    var left, rest := Flatten(a[1..]), Flatten(b[1..]);
    assert a[0] + left == files == b[0] + rest;
    if left != [] { StartOfRest(a); }
    assert [] + a[0] + left == b[0] + rest;
    NoRoomForMore(b[0], rest, [], a[0], left, limit);
    assert a[0][..|b[0]|] == files[..|b[0]|] == b[0];
  }

  // -- verifying -------------------------------------------------------------------------

  function Members(entries: seq<Entry>, shards: map<nat, Shard>): nat {
    if entries == [] then 0
    else
      var last := entries[|entries| - 1];
      Members(entries[..|entries| - 1], shards) + if last.number in shards then |shards[last.number].members| else 0
  }

  predicate Holds(entry: Entry, shards: map<nat, Shard>) {
    && entry.number in shards
    && shards[entry.number].bytes == entry.bytes
    && |shards[entry.number].members| == entry.files
  }

  /** Every shard is there with the size and the number of files recorded, and they add up. */
  predicate AllHold(entries: seq<Entry>, shards: map<nat, Shard>) {
    forall e :: e in entries ==> Holds(e, shards)
  }

  predicate Truthful(index: Index, shards: map<nat, Shard>) {
    && AllHold(index.shards, shards)
    && Members(index.shards, shards) == index.totalFiles
  }

  /** What is wrong with an entry that does not hold. */
  function FaultOf(entry: Entry, shards: map<nat, Shard>): Error {
    if entry.number !in shards then Missing(entry.number)
    else if shards[entry.number].bytes != entry.bytes then SizeChanged(entry.number)
    else CountChanged(entry.number)
  }

  predicate FirstFault(entries: seq<Entry>, shards: map<nat, Shard>, i: int, error: Error) {
    && 0 <= i < |entries| && AllHold(entries[..i], shards)
    && !Holds(entries[i], shards) && error == FaultOf(entries[i], shards)
  }

  lemma OneMoreEntry(entries: seq<Entry>, i: nat, shards: map<nat, Shard>)
    requires i < |entries| && AllHold(entries[..i], shards)
    ensures if Holds(entries[i], shards)
            then AllHold(entries[..i + 1], shards)
                 && Members(entries[..i + 1], shards) == Members(entries[..i], shards) + |shards[entries[i].number].members|
            else !AllHold(entries, shards) && FirstFault(entries, shards, i, FaultOf(entries[i], shards))
  {
    var more := entries[..i + 1];
    assert more == entries[..i] + [entries[i]] && more[..i] == entries[..i];
    assert entries[i] in entries;
  }

  /** `verify`: the index when it tells the truth, otherwise the first entry that does not. */
  method Verify(dir: Directory) returns (r: Result<Index, Error>)
    ensures r == Err(NoIndex) <==> dir.index.None?
    ensures dir.index.Some? ==> (r == Ok(dir.index.value) <==> Truthful(dir.index.value, dir.shards))
    ensures r.Ok? ==> dir.index == Some(r.value)
    ensures dir.index.Some? && r.Err? && r.error != TotalDiffers ==>
              exists i :: FirstFault(dir.index.value.shards, dir.shards, i, r.error)
  {
    if dir.index.None? { return Err(NoIndex); }
    var index := dir.index.value;
    hide AllHold, Members, FirstFault;
    var counted := 0;
    for i := 0 to |index.shards|
      invariant AllHold(index.shards[..i], dir.shards)
      invariant counted == Members(index.shards[..i], dir.shards)
    {
      var entry := index.shards[i];
      OneMoreEntry(index.shards, i, dir.shards);
      if entry.number !in dir.shards { return Err(Missing(entry.number)); }
      var shard := dir.shards[entry.number];
      if shard.bytes != entry.bytes { return Err(SizeChanged(entry.number)); }
      if |shard.members| != entry.files { return Err(CountChanged(entry.number)); }
      counted := counted + |shard.members|;
    }
    assert index.shards[..|index.shards|] == index.shards;
    if counted != index.totalFiles { return Err(TotalDiffers); }
    return Ok(index);
  }

  lemma {:induction false} MembersOf(index: Index, shards: map<nat, Shard>, groups: seq<seq<File>>, tarSize: seq<File> -> nat, n: nat)
    requires Records(index, shards, groups, tarSize) && n <= |groups|
    ensures Members(index.shards[..n], shards) == |Flatten(groups[..n])|
  {
    if n > 0 {
      MembersOf(index, shards, groups, tarSize, n - 1);
      assert index.shards[..n][..n - 1] == index.shards[..n - 1];
      assert groups[..n] == groups[..n - 1] + [groups[n - 1]];
      FlattenSnoc(groups[..n - 1], groups[n - 1]);
      assert Recorded(index.shards[n - 1], shards, n - 1, groups[n - 1], tarSize);
    }
  }

  /** What `pack` writes passes `verify`. */
  lemma PackedIsTruthful(index: Index, shards: map<nat, Shard>, groups: seq<seq<File>>, tarSize: seq<File> -> nat)
    requires Records(index, shards, groups, tarSize)
    ensures Truthful(index, shards)
  {
    MembersOf(index, shards, groups, tarSize, |groups|);
    assert groups[..|groups|] == groups && index.shards[..|groups|] == index.shards;
    forall e | e in index.shards ensures Holds(e, shards) {
      var i :| 0 <= i < |groups| && index.shards[i] == e;
      assert Recorded(index.shards[i], shards, i, groups[i], tarSize);
    }
  }

  /** An index passes exactly when each of its shards is there with the bytes and the number of files it
      says, and those numbers add up to its own. */
  lemma TruthfulExactly(index: Index, shards: map<nat, Shard>)
    ensures Truthful(index, shards) <==>
      && (forall e :: e in index.shards ==> e.number in shards && shards[e.number].bytes == e.bytes && |shards[e.number].members| == e.files)
      && FilesOf(index.shards) == index.totalFiles
  {
    if AllHold(index.shards, shards) { MembersAreFiles(index.shards, shards); }
    assert forall e :: e in index.shards ==> (Holds(e, shards) <==>
      e.number in shards && shards[e.number].bytes == e.bytes && |shards[e.number].members| == e.files);
  }

  /** What `verify` names is the first shard at fault, and what is wrong with it. */
  lemma FaultExactly(entries: seq<Entry>, shards: map<nat, Shard>, i: nat, error: Error)
    requires FirstFault(entries, shards, i, error)
    ensures i < |entries|
    ensures forall j :: 0 <= j < i ==>
              && entries[j].number in shards && shards[entries[j].number].bytes == entries[j].bytes
              && |shards[entries[j].number].members| == entries[j].files
    ensures var e := entries[i];
      && (error == Missing(e.number) <==> e.number !in shards)
      && (error == SizeChanged(e.number) <==> e.number in shards && shards[e.number].bytes != e.bytes)
      && (error == CountChanged(e.number) <==>
            e.number in shards && shards[e.number].bytes == e.bytes && |shards[e.number].members| != e.files)
      && error in {Missing(e.number), SizeChanged(e.number), CountChanged(e.number)}
  {
    forall j | 0 <= j < i ensures Holds(entries[j], shards) {
      assert entries[..i][j] in entries[..i];
    }
  }

  /** The files the entries say there are. */
  function FilesOf(entries: seq<Entry>): nat {
    if entries == [] then 0 else FilesOf(entries[..|entries| - 1]) + entries[|entries| - 1].files
  }

  function BytesOf(entries: seq<Entry>): nat {
    if entries == [] then 0 else BytesOf(entries[..|entries| - 1]) + entries[|entries| - 1].contentBytes
  }

  lemma {:induction false} MembersAreFiles(entries: seq<Entry>, shards: map<nat, Shard>)
    requires AllHold(entries, shards)
    ensures Members(entries, shards) == FilesOf(entries)
  {
    if entries != [] {
      assert Holds(entries[|entries| - 1], shards);
      MembersAreFiles(entries[..|entries| - 1], shards);
    }
  }

  lemma {:induction false} BytesJoin(a: seq<File>, b: seq<File>)
    ensures Bytes(a + b) == Bytes(a) + Bytes(b)
  {
    if b == [] {
      assert a + b == a;
    } else {
      BytesJoin(a, b[..|b| - 1]);
      assert (a + b)[..|a + b| - 1] == a + b[..|b| - 1];
    }
  }

  /** The index of what was packed: each entry tells of its own shard, the next part of the files and no
      heavier than the limit, and the totals are those of the files and of the entries alike. */
  lemma {:induction false} IndexAddsUp(index: Index, shards: map<nat, Shard>, groups: seq<seq<File>>, files: seq<File>, tarSize: seq<File> -> nat)
    requires Records(index, shards, groups, tarSize) && Packs(groups, files, index.shardSize)
    ensures index.totalFiles == |files| == FilesOf(index.shards) && index.totalBytes == Bytes(files) == BytesOf(index.shards)
    ensures forall i :: 0 <= i < |index.shards| ==> var e := index.shards[i];
      && e.number == i && i in shards && e.files == |shards[i].members| > 0 && e.bytes == shards[i].bytes == tarSize(shards[i].members)
      && e.contentBytes == Bytes(shards[i].members) <= index.shardSize
  {
    EntriesAddUp(index, shards, groups, tarSize, |groups|);
    assert groups[..|groups|] == groups && index.shards[..|groups|] == index.shards;
    forall i | 0 <= i < |index.shards| ensures Fits(groups[i], index.shardSize) && Recorded(index.shards[i], shards, i, groups[i], tarSize) {
      assert groups[i] in groups;
    }
  }

  lemma {:induction false} EntriesAddUp(index: Index, shards: map<nat, Shard>, groups: seq<seq<File>>, tarSize: seq<File> -> nat, n: nat)
    requires Records(index, shards, groups, tarSize) && n <= |groups|
    ensures FilesOf(index.shards[..n]) == |Flatten(groups[..n])| && BytesOf(index.shards[..n]) == Bytes(Flatten(groups[..n]))
  {
    if n > 0 {
      EntriesAddUp(index, shards, groups, tarSize, n - 1);
      assert index.shards[..n][..n - 1] == index.shards[..n - 1];
      assert groups[..n] == groups[..n - 1] + [groups[n - 1]];
      FlattenSnoc(groups[..n - 1], groups[n - 1]);
      BytesJoin(Flatten(groups[..n - 1]), groups[n - 1]);
      assert Recorded(index.shards[n - 1], shards, n - 1, groups[n - 1], tarSize);
    }
  }

  predicate Damaged(before: map<nat, Shard>, after: map<nat, Shard>, n: nat)
    requires n in before
  {
    n !in after || after[n].bytes != before[n].bytes || |after[n].members| != |before[n].members|
  }

  /** Losing any shard, or changing its size or its number of files, is noticed. */
  lemma DamageIsNoticed(index: Index, before: map<nat, Shard>, after: map<nat, Shard>, i: nat)
    requires Truthful(index, before) && i < |index.shards|
    requires index.shards[i].number in before ==> Damaged(before, after, index.shards[i].number)
    ensures !Truthful(index, after)
  {
    assert Holds(index.shards[i], before);
    assert index.shards[i] in index.shards;
  }

  // -- unpacking ---------------------------------------------------------------------------

  type Tree = map<string, string>

  function Extracted(tree: Tree, members: seq<File>): Tree {
    if members == [] then tree
    else
      var last := members[|members| - 1];
      Extracted(tree, members[..|members| - 1])[last.name := last.content]
  }

  lemma {:induction false} ExtractedInTurn(tree: Tree, a: seq<File>, b: seq<File>)
    ensures Extracted(Extracted(tree, a), b) == Extracted(tree, a + b)
    decreases |b|
  {
    if b == [] {
      assert a + b == a;
    } else {
      ExtractedInTurn(tree, a, b[..|b| - 1]);
      assert (a + b)[..|a + b| - 1] == a + b[..|b| - 1];
    }
  }

  /** The files the first `n` entries name, one shard after another. */
  function Contents(entries: seq<Entry>, shards: map<nat, Shard>): seq<File>
    requires forall e :: e in entries ==> e.number in shards
  {
    if entries == [] then []
    else
      var last := entries[|entries| - 1];
      Contents(entries[..|entries| - 1], shards) + shards[last.number].members
  }

  lemma OneMoreShard(entries: seq<Entry>, i: nat, shards: map<nat, Shard>, tree: Tree)
    requires i < |entries| && (forall e :: e in entries[..i] ==> e.number in shards) && entries[i].number in shards
    ensures forall e :: e in entries[..i + 1] ==> e.number in shards
    ensures var before, members, now := Contents(entries[..i], shards), shards[entries[i].number].members, Contents(entries[..i + 1], shards);
      now == before + members && Extracted(Extracted(tree, before), members) == Extracted(tree, now)
  {
    var more := entries[..i + 1];
    assert more == entries[..i] + [entries[i]] && more[..i] == entries[..i];
    ExtractedInTurn(tree, Contents(entries[..i], shards), shards[entries[i].number].members);
  }

  /** `unpack` into a tree. */
  method Unpack(dir: Directory, tree: Tree) returns (r: Result<nat, Error>, restored: Tree)
    ensures r == Err(NoIndex) <==> dir.index.None?
    ensures dir.index.Some? ==> (r.Ok? <==> forall e :: e in dir.index.value.shards ==> e.number in dir.shards)
    ensures r.Ok? ==> r.value == |Contents(dir.index.value.shards, dir.shards)|
    ensures r.Ok? ==> restored == Extracted(tree, Contents(dir.index.value.shards, dir.shards))
  {
    restored := tree;
    if dir.index.None? { return Err(NoIndex), restored; }
    var entries := dir.index.value.shards;
    var count := 0;
    for i := 0 to |entries|
      invariant forall e :: e in entries[..i] ==> e.number in dir.shards
      invariant restored == Extracted(tree, Contents(entries[..i], dir.shards))
      invariant count == |Contents(entries[..i], dir.shards)|
    {
      var entry := entries[i];
      if entry.number !in dir.shards { return Err(Missing(entry.number)), restored; }
      var members := dir.shards[entry.number].members;
      OneMoreShard(entries, i, dir.shards, tree);
      ghost var before := restored;
      for k := 0 to |members|
        invariant restored == Extracted(before, members[..k])
      {
        assert members[..k + 1][..k] == members[..k];
        restored := restored[members[k].name := members[k].content];
      }
      assert members[..|members|] == members;
      count := count + |members|;
    }
    assert entries[..|entries|] == entries;
    return Ok(count), restored;
  }

  predicate DistinctNames(files: seq<File>) {
    forall i, j :: 0 <= i < j < |files| ==> files[i].name != files[j].name
  }

  lemma {:induction false} ContentsOf(index: Index, shards: map<nat, Shard>, groups: seq<seq<File>>, tarSize: seq<File> -> nat, n: nat)
    requires Records(index, shards, groups, tarSize) && n <= |groups|
    ensures forall e :: e in index.shards[..n] ==> e.number in shards
    ensures Contents(index.shards[..n], shards) == Flatten(groups[..n])
  {
    if n > 0 {
      ContentsOf(index, shards, groups, tarSize, n - 1);
      assert index.shards[..n] == index.shards[..n - 1] + [index.shards[n - 1]];
      assert index.shards[..n][..n - 1] == index.shards[..n - 1];
      assert groups[..n] == groups[..n - 1] + [groups[n - 1]];
      FlattenSnoc(groups[..n - 1], groups[n - 1]);
      assert Recorded(index.shards[n - 1], shards, n - 1, groups[n - 1], tarSize);
    }
  }

  lemma {:induction false} ExtractedTree(files: seq<File>)
    requires DistinctNames(files)
    ensures forall name :: name in Extracted(map[], files) <==> exists i :: 0 <= i < |files| && files[i].name == name
    ensures forall i :: 0 <= i < |files| ==> files[i].name in Extracted(map[], files) && Extracted(map[], files)[files[i].name] == files[i].content
  {
    if files != [] {
      var init := files[..|files| - 1];
      ExtractedTree(init);
      assert forall i :: 0 <= i < |init| ==> files[i] == init[i];
    }
  }

  /** Unpacking what was packed into an empty place gives back the original tree: the same names, each
      with its own content, and as many files. */
  lemma UnpackRestores(index: Index, shards: map<nat, Shard>, groups: seq<seq<File>>, files: seq<File>, tarSize: seq<File> -> nat)
    requires Records(index, shards, groups, tarSize) && Flatten(groups) == files && DistinctNames(files)
    ensures forall e :: e in index.shards ==> e.number in shards
    ensures Contents(index.shards, shards) == files
    ensures var tree := Extracted(map[], Contents(index.shards, shards));
      && (forall name :: name in tree <==> exists i :: 0 <= i < |files| && files[i].name == name)
      && (forall i :: 0 <= i < |files| ==> files[i].name in tree && tree[files[i].name] == files[i].content)
  {
    ContentsOf(index, shards, groups, tarSize, |groups|);
    assert groups[..|groups|] == groups && index.shards[..|groups|] == index.shards;
    ExtractedTree(files);
  }
}
