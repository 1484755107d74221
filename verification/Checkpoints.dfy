/** Checkpoints of a lineage and the keep-on-failure rule: `nawat/checkpoints.py`, with
    `prepare_checkpoints` and `_settle_checkpoints` of `nawat/executor.py`. */
module Checkpoints {
  import opened Wrappers

  const PREFIX := "checkpoint-"
  const TEMP_PREFIX := "tmp-checkpoint-"

  /** `global_step` in the state file: not there, not a number, or a number. */
  datatype StepField = Absent | NotANumber | Number(n: int)

  /** `trainer_state.json`: missing or not JSON, or an object. */
  datatype StateFile = Unreadable | Written(step: StepField, mtime: int)

  /** A directory inside the lineage directory. */
  datatype Entry = Entry(name: string, mtime: int, state: StateFile)

  /** The lineage directory, listing its directories. */
  datatype Disk = Gone | Listing(entries: seq<Entry>)

  datatype Checkpoint = Checkpoint(name: string, step: int, writtenAt: int, complete: bool)

  // -- reading -------------------------------------------------------------------------

  function Digits(s: string): int {
    if s == [] then 0 else 10 * Digits(s[..|s| - 1]) + (s[|s| - 1] as int - '0' as int)
  }

  /** `_step_from_name`; `$` also matches before a final newline. */
  function StepFromName(name: string): int {
    if PREFIX <= name then
      var rest := name[|PREFIX|..];
      var digits := if rest != [] && rest[|rest| - 1] == '\n' then rest[..|rest| - 1] else rest;
      if digits != [] && forall c :: c in digits ==> '0' <= c <= '9' then Digits(digits) else 0
    else 0
  }

  /** `_read_one`. */
  function ReadOne(e: Entry): Checkpoint {
    match e.state
    case Unreadable => Checkpoint(e.name, StepFromName(e.name), e.mtime, false)
    case Written(Absent, at) => Checkpoint(e.name, StepFromName(e.name), at, false)
    case Written(NotANumber, _) => Checkpoint(e.name, StepFromName(e.name), e.mtime, true)
    case Written(Number(n), at) => Checkpoint(e.name, n, at, true)
  }

  predicate IsCheckpoint(e: Entry) { PREFIX <= e.name }
  predicate IsTemporary(e: Entry) { TEMP_PREFIX <= e.name }
  predicate Usable(e: Entry) { IsCheckpoint(e) && ReadOne(e).complete }

  function Checkpoints(entries: seq<Entry>): seq<Checkpoint> {
    if entries == [] then []
    else
      var last := entries[|entries| - 1];
      Checkpoints(entries[..|entries| - 1]) + if IsCheckpoint(last) then [ReadOne(last)] else []
  }

  /** Strictly earlier by step, then by time of writing. */
  predicate Earlier(c: Checkpoint, d: Checkpoint) {
    c.step < d.step || (c.step == d.step && c.writtenAt < d.writtenAt)
  }

  predicate Ordered(s: seq<Checkpoint>) {
    forall i, j :: 0 <= i < j < |s| ==> !Earlier(s[j], s[i])
  }

  /** The stable sort, one element at a time. */
  function Insert(s: seq<Checkpoint>, c: Checkpoint): seq<Checkpoint> {
    if s != [] && Earlier(c, s[|s| - 1]) then Insert(s[..|s| - 1], c) + [s[|s| - 1]] else s + [c]
  }

  function Sorted(s: seq<Checkpoint>): seq<Checkpoint> {
    if s == [] then [] else Insert(Sorted(s[..|s| - 1]), s[|s| - 1])
  }

  function Entries(disk: Disk): seq<Entry> {
    if disk.Gone? then [] else disk.entries
  }

  function Read(disk: Disk): seq<Checkpoint> {
    Sorted(Checkpoints(Entries(disk)))
  }

  function Complete(s: seq<Checkpoint>): seq<Checkpoint> {
    if s == [] then []
    else
      var last := s[|s| - 1];
      Complete(s[..|s| - 1]) + if last.complete then [last] else []
  }

  function LastOf(s: seq<Checkpoint>): Option<Checkpoint> {
    if s == [] then None else Some(s[|s| - 1])
  }

  /** `latest`. */
  function Latest(disk: Disk): Option<Checkpoint> {
    LastOf(Complete(Read(disk)))
  }

  // -- what `latest` is ------------------------------------------------------------------

  /** The usable entry with the greatest step and time; the last listed among equals. */
  function Newest(entries: seq<Entry>): Option<Checkpoint> {
    if entries == [] then None
    else
      var before := Newest(entries[..|entries| - 1]);
      var last := entries[|entries| - 1];
      if IsCheckpoint(last) then Later(before, ReadOne(last)) else before
  }

  lemma CompleteSnoc(s: seq<Checkpoint>, c: Checkpoint)
    ensures Complete(s + [c]) == Complete(s) + if c.complete then [c] else []
  {
    assert (s + [c])[..|s|] == s;
  }

  lemma {:induction false} InsertOrders(s: seq<Checkpoint>, c: Checkpoint)
    requires Ordered(s)
    ensures Ordered(Insert(s, c))
    ensures forall d :: d in Insert(s, c) <==> d in s || d == c
  {
    if s != [] && Earlier(c, s[|s| - 1]) {
      InsertOrders(s[..|s| - 1], c);
      var t := Insert(s[..|s| - 1], c);
      forall i | 0 <= i < |t| ensures !Earlier(s[|s| - 1], t[i]) {
        assert t[i] in t;
        if t[i] != c {
          var k :| 0 <= k < |s| - 1 && s[k] == t[i];
        }
      }
      assert forall d :: d in s <==> d in s[..|s| - 1] || d == s[|s| - 1];
    } else if s != [] {
      forall i | 0 <= i < |s| ensures !Earlier(c, s[i]) {
        assert i < |s| - 1 ==> !Earlier(s[|s| - 1], s[i]);
      }
    }
  }

  lemma {:induction false} SortOrders(s: seq<Checkpoint>)
    ensures Ordered(Sorted(s))
    ensures forall d :: d in Sorted(s) <==> d in s
  {
    if s != [] {
      SortOrders(s[..|s| - 1]);
      InsertOrders(Sorted(s[..|s| - 1]), s[|s| - 1]);
      assert forall d :: d in s <==> d in s[..|s| - 1] || d == s[|s| - 1];
    }
  }

  /** The later of the last complete checkpoint so far and one more. */
  function Later(before: Option<Checkpoint>, c: Checkpoint): Option<Checkpoint> {
    if c.complete && (before.None? || !Earlier(c, before.value)) then Some(c) else before
  }

  lemma LastSnoc(s: seq<Checkpoint>, c: Checkpoint)
    ensures LastOf(Complete(s + [c])) == if c.complete then Some(c) else LastOf(Complete(s))
  {
    CompleteSnoc(s, c);
    var before, now := Complete(s), Complete(s + [c]);
    if c.complete {
      assert now == before + [c];
    } else {
      assert now == before;
    }
  }

  lemma LastOfOne(c: Checkpoint)
    ensures LastOf(Complete(Insert([], c))) == Later(LastOf(Complete([])), c)
  {
    LastSnoc([], c);
    assert Insert([], c) == [] + [c];
  }

  lemma {:induction false} LastAfterInsert(s: seq<Checkpoint>, c: Checkpoint)
    requires Ordered(s)
    ensures LastOf(Complete(Insert(s, c))) == Later(LastOf(Complete(s)), c)
  {
    hide Complete, LastOf;
    if s == [] {
      LastOfOne(c);
      return;
    }
    var init, last := s[..|s| - 1], s[|s| - 1];
    if Earlier(c, last) {
      LastAfterInsert(init, c);
      LastOfBoth(init, Insert(init, c), last, c);
      assert init + [last] == s;
    } else {
      LastSnoc(s, c);
      if LastOf(Complete(s)).Some? { LastIsThere(s, c); }
    }
  }

  lemma LastOfBoth(s: seq<Checkpoint>, inserted: seq<Checkpoint>, last: Checkpoint, c: Checkpoint)
    requires LastOf(Complete(inserted)) == Later(LastOf(Complete(s)), c) && Earlier(c, last)
    ensures LastOf(Complete(inserted + [last])) == Later(LastOf(Complete(s + [last])), c)
  {
    LastSnoc(s, last);
    LastSnoc(inserted, last);
  }

  lemma {:induction false} LastIsThere(s: seq<Checkpoint>, c: Checkpoint)
    requires Ordered(s) && s != [] && LastOf(Complete(s)).Some? && !Earlier(c, s[|s| - 1])
    ensures !Earlier(c, LastOf(Complete(s)).value)
  {
    if !s[|s| - 1].complete {
      assert |s| > 1;
      assert !Earlier(s[|s| - 1], s[|s| - 2]);
      LastIsThere(s[..|s| - 1], c);
    }
  }

  lemma {:induction false} LatestOf(entries: seq<Entry>)
    ensures LastOf(Complete(Sorted(Checkpoints(entries)))) == Newest(entries)
  {
    if entries != [] {
      var init, last := entries[..|entries| - 1], entries[|entries| - 1];
      LatestOf(init);
      var read := Checkpoints(init);
      if IsCheckpoint(last) {
        SortOrders(read);
        LastAfterInsert(Sorted(read), ReadOne(last));
        assert (read + [ReadOne(last)])[..|read|] == read;
      } else {
        assert read + [] == read;
      }
    }
  }

  lemma {:induction false} NewestIsAny(entries: seq<Entry>)
    ensures Newest(entries).None? <==> forall e :: e in entries ==> !Usable(e)
    ensures Newest(entries).Some? ==>
              && (exists e :: e in entries && Usable(e) && ReadOne(e) == Newest(entries).value)
              && (forall e :: e in entries && Usable(e) ==> !Earlier(Newest(entries).value, ReadOne(e)))
  {
    if entries != [] {
      var init, last := entries[..|entries| - 1], entries[|entries| - 1];
      NewestIsAny(init);
      assert entries == init + [last];
      assert Usable(last) ==> Newest(entries).Some?;
    }
  }

  /** `latest` is a complete checkpoint of the directory that no other complete one is later than, and
      there is one exactly when something is complete. */
  lemma LatestIsNewest(disk: Disk)
    ensures Latest(disk).None? <==> forall e :: e in Entries(disk) ==> !Usable(e)
    ensures Latest(disk).Some? ==>
              && (exists e :: e in Entries(disk) && Usable(e) && ReadOne(e) == Latest(disk).value)
              && (forall e :: e in Entries(disk) && Usable(e) ==> !Earlier(Latest(disk).value, ReadOne(e)))
  {
    LatestOf(Entries(disk));
    NewestIsAny(Entries(disk));
  }

  // -- what it reads off the disk -----------------------------------------------------------

  function Decimal(n: nat): string {
    var digit := (n % 10 + '0' as int) as char;
    if n < 10 then [digit] else Decimal(n / 10) + [digit]
  }

  lemma {:induction false} DecimalReadsBack(n: nat)
    ensures Decimal(n) != [] && Digits(Decimal(n)) == n && forall c :: c in Decimal(n) ==> '0' <= c <= '9'
  {
    var digit := (n % 10 + '0' as int) as char;
    if n < 10 {
      assert [digit][..0] == [] && Digits([]) == 0;
    } else {
      DecimalReadsBack(n / 10);
      assert Decimal(n)[..|Decimal(n)| - 1] == Decimal(n / 10);
    }
  }

  /** The step in a directory name: its number, with or without a newline after it, and 0 for any other name. */
  lemma NamesTellTheStep(n: nat, rest: string)
    ensures StepFromName("checkpoint-" + Decimal(n)) == n == StepFromName("checkpoint-" + Decimal(n) + "\n")
    ensures (exists c :: c in rest && c != '\n' && !('0' <= c <= '9')) ==> StepFromName("checkpoint-" + rest) == 0
    ensures StepFromName("checkpoint-") == 0
    ensures !("checkpoint-" <= rest) ==> StepFromName(rest) == 0
  {
    hide StepFromName, Decimal, Digits;
    DecimalReadsBack(n);
    assert Decimal(n)[|Decimal(n)| - 1] in Decimal(n);
    AfterThePrefix(Decimal(n));
    AfterThePrefix(Decimal(n) + "\n");
    AfterThePrefix(rest);
    AfterThePrefix("");
    assert "checkpoint-" + Decimal(n) + "\n" == "checkpoint-" + (Decimal(n) + "\n") && "checkpoint-" + "" == "checkpoint-";
    assert (Decimal(n) + "\n")[..|Decimal(n)|] == Decimal(n);
    if c :| c in rest && c != '\n' && !('0' <= c <= '9') {
      var cut := WithoutNewline(rest);
      assert rest == cut || rest == cut + ['\n'];
      assert c in cut;
    }
    OtherNames(rest);
  }

  function WithoutNewline(s: string): string {
    if s != [] && s[|s| - 1] == '\n' then s[..|s| - 1] else s
  }

  lemma AfterThePrefix(rest: string)
    ensures var digits := WithoutNewline(rest);
      StepFromName("checkpoint-" + rest) == if digits != [] && forall c :: c in digits ==> '0' <= c <= '9' then Digits(digits) else 0
  {
    assert PREFIX <= "checkpoint-" + rest && ("checkpoint-" + rest)[|PREFIX|..] == rest;
  }

  lemma OtherNames(name: string)
    ensures !("checkpoint-" <= name) ==> StepFromName(name) == 0
  {
  }

  /** What is read of a directory: step and time of writing from the state file when it tells them, from
      the directory otherwise; it can be resumed from exactly when the state file has a step field. */
  lemma ReadsTheStateFile(name: string, mtime: int, at: int, n: int)
    ensures ReadOne(Entry(name, mtime, Written(Number(n), at))) == Checkpoint(name, n, at, true)
    ensures ReadOne(Entry(name, mtime, Written(NotANumber, at))) == Checkpoint(name, StepFromName(name), mtime, true)
    ensures ReadOne(Entry(name, mtime, Written(Absent, at))) == Checkpoint(name, StepFromName(name), at, false)
    ensures ReadOne(Entry(name, mtime, Unreadable)) == Checkpoint(name, StepFromName(name), mtime, false)
  {
  }

  /** `latest` on the disk itself: the saved checkpoint with the greatest step in its state file, the
      latest written among equal ones, as that file has it. */
  lemma {:induction false} LatestOnDisk(disk: Disk)
    ensures Latest(disk).Some?
       <==> exists e :: e in Entries(disk) && "checkpoint-" <= e.name && e.state.Written? && e.state.step != Absent
    ensures Latest(disk).Some?
            && (forall e :: e in Entries(disk) && "checkpoint-" <= e.name ==> e.state.Written? && e.state.step.Number?) ==>
      && (exists e :: e in Entries(disk) && "checkpoint-" <= e.name && e.state.Written? && e.state.step.Number?
                      && Latest(disk).value == Checkpoint(e.name, e.state.step.n, e.state.mtime, true))
      && (forall e :: e in Entries(disk) && "checkpoint-" <= e.name ==>
            e.state.step.n < Latest(disk).value.step
            || (e.state.step.n == Latest(disk).value.step && e.state.mtime <= Latest(disk).value.writtenAt))
  {
    LatestIsNewest(disk);
    assert forall e :: e in Entries(disk) ==> (Usable(e) <==> "checkpoint-" <= e.name && e.state.Written? && e.state.step != Absent);
    assert forall e :: e in Entries(disk) && "checkpoint-" <= e.name && e.state.Written? && e.state.step.Number? ==>
      Usable(e) && ReadOne(e) == Checkpoint(e.name, e.state.step.n, e.state.mtime, true);
  }

  // -- removing --------------------------------------------------------------------------

  function Without(entries: seq<Entry>, names: set<string>): seq<Entry> {
    if entries == [] then []
    else
      var last := entries[|entries| - 1];
      Without(entries[..|entries| - 1], names) + if last.name in names then [] else [last]
  }

  function Removing(disk: Disk, names: set<string>): Disk {
    if disk.Gone? then disk else Listing(Without(disk.entries, names))
  }

  lemma {:induction false} WithoutHas(entries: seq<Entry>, names: set<string>)
    ensures forall e :: e in Without(entries, names) <==> e in entries && e.name !in names
  {
    if entries != [] {
      var init, last := entries[..|entries| - 1], entries[|entries| - 1];
      WithoutHas(init, names);
      assert forall e :: e in entries <==> e in init || e == last;
    }
  }

  lemma {:induction false} WithoutInTurn(entries: seq<Entry>, a: set<string>, b: set<string>)
    ensures Without(Without(entries, a), b) == Without(entries, a + b)
  {
    if entries != [] {
      var init, last := entries[..|entries| - 1], entries[|entries| - 1];
      WithoutInTurn(init, a, b);
      var kept := Without(init, a);
      if last.name !in a {
        assert (kept + [last])[..|kept|] == kept;
      } else {
        assert kept + [] == kept;
      }
    }
  }

  lemma RemovingInTurn(disk: Disk, a: set<string>, b: set<string>)
    ensures Removing(Removing(disk, a), b) == Removing(disk, a + b)
  {
    if disk.Listing? { WithoutInTurn(disk.entries, a, b); }
  }

  lemma {:induction false} WithoutNothing(entries: seq<Entry>)
    ensures Without(entries, {}) == entries
  {
    if entries != [] {
      WithoutNothing(entries[..|entries| - 1]);
    }
  }

  lemma RemovingNothing(disk: Disk)
    ensures Removing(disk, {}) == disk
  {
    WithoutNothing(Entries(disk));
  }

  function Names(s: seq<Checkpoint>): set<string> {
    set c | c in s :: c.name
  }

  function Temporaries(disk: Disk): set<string> {
    set e | e in Entries(disk) && IsTemporary(e) :: e.name
  }

  lemma TemporariesNext(entries: seq<Entry>, i: nat)
    requires i < |entries|
    ensures Temporaries(Listing(entries[..i + 1]))
         == Temporaries(Listing(entries[..i])) + if IsTemporary(entries[i]) then {entries[i].name} else {}
  {
    assert entries[..i + 1] == entries[..i] + [entries[i]];
  }

  function Partial(s: seq<Checkpoint>): seq<Checkpoint> {
    if s == [] then []
    else
      var last := s[|s| - 1];
      Partial(s[..|s| - 1]) + if last.complete then [] else [last]
  }

  function Max(a: int, b: int): int { if a < b then b else a }

  /** The checkpoints `prune` keeps. */
  function Keeping(disk: Disk, keep: int): seq<Checkpoint> {
    var complete := Complete(Read(disk));
    complete[Max(0, |complete| - Max(0, keep))..]
  }

  function Spare(found: seq<Checkpoint>, keeping: set<string>): seq<Checkpoint> {
    if found == [] then []
    else
      var last := found[|found| - 1];
      Spare(found[..|found| - 1], keeping) + if last.name in keeping then [] else [last]
  }

  /** What `sweep_partial` takes away. */
  function Sweepings(disk: Disk): set<string> {
    if Complete(Read(disk)) == [] then {} else Names(Partial(Read(disk))) + Temporaries(disk)
  }

  /** What `prune` takes away. */
  function Prunings(disk: Disk, keep: int): set<string> {
    var keeping := Keeping(disk, keep);
    if keep > 0 && keeping == [] then {}
    else Names(Spare(Read(disk), Names(keeping))) + if keeping != [] then Temporaries(disk) else {}
  }

  /** `settle` in one step: what is left, and the checkpoint recorded for the run. */
  function Settled(disk: Disk, succeeded: bool, keep: bool): (Disk, Option<Checkpoint>) {
    var swept := Removing(disk, Sweepings(disk));
    if succeeded && !keep then (Gone, None) else (swept, Latest(swept))
  }

  lemma {:induction false} CheckpointsAre(entries: seq<Entry>)
    ensures forall c :: c in Checkpoints(entries) <==> exists e :: e in entries && IsCheckpoint(e) && ReadOne(e) == c
  {
    if entries != [] {
      var init, last := entries[..|entries| - 1], entries[|entries| - 1];
      CheckpointsAre(init);
      assert forall e :: e in entries <==> e in init || e == last;
    }
  }

  /** What is read are the checkpoint directories. */
  lemma ReadAre(disk: Disk)
    ensures forall c :: c in Read(disk) <==> exists e :: e in Entries(disk) && IsCheckpoint(e) && ReadOne(e) == c
    ensures Ordered(Read(disk))
  {
    CheckpointsAre(Entries(disk));
    SortOrders(Checkpoints(Entries(disk)));
  }

  lemma {:induction false} CompleteAre(s: seq<Checkpoint>)
    ensures forall c :: c in Complete(s) <==> c in s && c.complete
  {
    if s != [] { CompleteAre(s[..|s| - 1]); }
  }

  lemma {:induction false} PartialAreFound(s: seq<Checkpoint>)
    ensures forall c :: c in Partial(s) <==> c in s && !c.complete
  {
    if s != [] { PartialAreFound(s[..|s| - 1]); }
  }

  lemma {:induction false} SpareAreFound(s: seq<Checkpoint>, keeping: set<string>)
    ensures forall c :: c in Spare(s, keeping) <==> c in s && c.name !in keeping
  {
    if s != [] { SpareAreFound(s[..|s| - 1], keeping); }
  }

  /** Removing checkpoints touches no temporary. */
  lemma TemporariesStay(disk: Disk, removed: seq<Checkpoint>)
    requires forall c :: c in removed ==> c in Read(disk)
    ensures Temporaries(Removing(disk, Names(removed))) == Temporaries(disk)
  {
    ReadAre(disk);
    WithoutHas(Entries(disk), Names(removed));
    forall name | name in Names(removed) ensures !(TEMP_PREFIX <= name) {
      assert PREFIX <= name && name[0] == 'c';
    }
  }

  class Directory {
    var disk: Disk

    /** `read`, with `scandir` in listing order. */
    method Scan() returns (found: seq<Checkpoint>)
      ensures found == Read(disk)
    {
      found := [];
      if disk.Gone? { return; }
      for i := 0 to |disk.entries|
        invariant found == Checkpoints(disk.entries[..i])
      {
        assert disk.entries[..i + 1][..i] == disk.entries[..i];
        if IsCheckpoint(disk.entries[i]) {
          found := found + [ReadOne(disk.entries[i])];
        }
      }
      assert disk.entries[..|disk.entries|] == disk.entries;
      found := Sorted(found);
    }

    method LatestUsable() returns (newest: Option<Checkpoint>)
      ensures newest == Latest(disk)
    {
      var found := Scan();
      var usable := Complete(found);
      newest := if usable == [] then None else Some(usable[|usable| - 1]);
    }

    method RemoveAll(removed: seq<Checkpoint>)
      modifies this
      ensures disk == Removing(old(disk), Names(removed))
    {
      if disk.Gone? { return; }
      WithoutNothing(disk.entries);
      assert Names(removed[..0]) == {};
      for i := 0 to |removed|
        invariant disk == Removing(old(disk), Names(removed[..i]))
      {
        WithoutInTurn(old(disk.entries), Names(removed[..i]), {removed[i].name});
        assert Names(removed[..i + 1]) == Names(removed[..i]) + {removed[i].name} by {
          assert removed[..i + 1] == removed[..i] + [removed[i]];
        }
        disk := Listing(Without(disk.entries, {removed[i].name}));
      }
      assert removed[..|removed|] == removed;
    }

    method RemoveTemporaries()
      modifies this
      ensures disk == Removing(old(disk), Temporaries(old(disk)))
    {
      if disk.Gone? { return; }
      var entries := disk.entries;
      WithoutNothing(entries);
      ghost var gone: set<string> := {};
      for i := 0 to |entries|
        invariant gone == Temporaries(Listing(entries[..i]))
        invariant disk == Listing(Without(entries, gone))
      {
        TemporariesNext(entries, i);
        if IsTemporary(entries[i]) {
          WithoutInTurn(entries, gone, {entries[i].name});
          disk := Listing(Without(disk.entries, {entries[i].name}));
          gone := gone + {entries[i].name};
        }
      }
      assert entries[..|entries|] == entries;
    }

    /** `sweep_partial`. */
    method SweepPartial() returns (removed: seq<Checkpoint>)
      modifies this
      ensures disk == Removing(old(disk), Sweepings(old(disk)))
      ensures removed == if Latest(old(disk)).None? then [] else Partial(Read(old(disk)))
    {
      hide Read, Complete, Partial, Temporaries, Removing;
      var found := Scan();
      if Complete(found) == [] {
        RemovingNothing(disk);
        return [];
      }
      removed := Partial(found);
      PartialAreFound(found);
      TemporariesStay(disk, removed);
      RemoveAll(removed);
      RemoveTemporaries();
      RemovingInTurn(old(disk), Names(removed), Temporaries(old(disk)));
    }

    /** `prune`. */
    method Prune(keep: int) returns (removed: seq<Checkpoint>)
      modifies this
      ensures disk == Removing(old(disk), Prunings(old(disk), keep))
      ensures removed == if keep > 0 && Latest(old(disk)).None? then []
                         else Spare(Read(old(disk)), Names(Keeping(old(disk), keep)))
    {
      hide Read, Complete, Spare, Temporaries, Removing;
      var atMost := Max(0, keep);
      var found := Scan();
      var complete := Complete(found);
      var keeping := complete[Max(0, |complete| - atMost)..];
      if atMost > 0 && keeping == [] {
        RemovingNothing(disk);
        return [];
      }
      removed := Spare(found, Names(keeping));
      ghost var before := disk;
      SpareAreFound(found, Names(keeping));
      TemporariesStay(before, removed);
      RemoveAll(removed);
      assert keeping == Keeping(before, keep);
      if keeping != [] {
        RemoveTemporaries();
        RemovingInTurn(before, Names(removed), Temporaries(before));
      } else {
        assert Names(removed) + {} == Names(removed);
      }
    }

    /** `discard`. */
    method Discard()
      modifies this
      ensures disk == Gone
    {
      disk := Gone;
    }

    /** `prepare_checkpoints`: the checkpoint the run resumes from. */
    method Prepare(resume: bool) returns (resumeFrom: Option<Checkpoint>)
      modifies this
      ensures disk == Prepared(old(disk), resume)
      ensures resumeFrom == if resume then Latest(old(disk)) else None
    {
      if !resume { Discard(); }
      if disk.Gone? { disk := Listing([]); }
      resumeFrom := None;
      if resume { resumeFrom := LatestUsable(); }
    }

    /** `settle`. */
    method Settle(succeeded: bool, keep: bool) returns (newest: Option<Checkpoint>)
      modifies this
      ensures (disk, newest) == Settled(old(disk), succeeded, keep)
    {
      var _ := SweepPartial();
      newest := LatestUsable();
      if succeeded && !keep {
        Discard();
        return None;
      }
    }
  }

  function Prepared(disk: Disk, resume: bool): Disk {
    if !resume || disk.Gone? then Listing([]) else disk
  }
}
