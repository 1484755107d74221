/** What survives in a lineage over any sequence of runs, sweeps and prunes. */
module CheckpointHistory {
  import opened Wrappers
  import opened Checkpoints

  ghost predicate Distinct(entries: seq<Entry>) {
    forall i, j :: 0 <= i < j < |entries| ==> entries[i].name != entries[j].name
  }

  ghost predicate DistinctNames(disk: Disk) {
    Distinct(Entries(disk))
  }

  // -- one removal -----------------------------------------------------------------------

  lemma SameNameSameEntry(disk: Disk, e: Entry, f: Entry)
    requires DistinctNames(disk) && e in Entries(disk) && f in Entries(disk) && e.name == f.name
    ensures e == f
  {
    var entries := Entries(disk);
    var i :| 0 <= i < |entries| && entries[i] == e;
    var j :| 0 <= j < |entries| && entries[j] == f;
    assert i == j;
  }

  lemma {:induction false} WithoutStaysDistinct(entries: seq<Entry>, names: set<string>)
    requires Distinct(entries)
    ensures Distinct(Without(entries, names))
  {
    if entries != [] {
      var init, last := entries[..|entries| - 1], entries[|entries| - 1];
      WithoutStaysDistinct(init, names);
      WithoutHas(init, names);
      var kept := Without(init, names);
      forall i | 0 <= i < |kept| ensures kept[i].name != last.name {
        assert kept[i] in init;
      }
    }
  }

  lemma WithoutIsDistinct(disk: Disk, names: set<string>)
    requires DistinctNames(disk)
    ensures DistinctNames(Removing(disk, names))
  {
    WithoutStaysDistinct(Entries(disk), names);
  }

  lemma NoneLater(entries: seq<Entry>, kept: seq<Entry>)
    requires forall e :: e in kept ==> e in entries
    ensures Newest(entries).None? ==> Newest(kept).None?
    ensures Newest(entries).Some? && Newest(kept).Some? ==> !Earlier(Newest(entries).value, Newest(kept).value)
  {
    NewestIsAny(entries);
    NewestIsAny(kept);
  }

  lemma NewestSnoc(s: seq<Entry>, e: Entry)
    ensures Newest(s + [e]) == if IsCheckpoint(e) then Later(Newest(s), ReadOne(e)) else Newest(s)
  {
    assert (s + [e])[..|s|] == s;
  }

  lemma NothingLeft(names: set<string>)
    ensures Without([], names) == []
  {
  }

  lemma WithoutNext(init: seq<Entry>, last: Entry, names: set<string>)
    ensures Without(init + [last], names) == if last.name in names then Without(init, names) else Without(init, names) + [last]
  {
    assert (init + [last])[..|init|] == init && Without(init, names) + [] == Without(init, names);
  }

  lemma {:induction false} NewestStays(entries: seq<Entry>, names: set<string>)
    requires Newest(entries).Some? ==> Newest(entries).value.name !in names
    ensures Newest(Without(entries, names)) == Newest(entries)
  {
    hide Newest, Without;
    if entries == [] {
      NothingLeft(names);
    } else {
      var init, last := entries[..|entries| - 1], entries[|entries| - 1];
      var kept := Without(init, names);
      WithoutHas(init, names);
      NoneLater(init, kept);
      NewestSnoc(init, last);
      NewestSnoc(kept, last);
      assert init + [last] == entries;
      WithoutNext(init, last, names);
      if Newest(entries) == Newest(init) {
        NewestStays(init, names);
      }
    }
  }

  /** Taking away anything but the newest complete checkpoint leaves it the newest. */
  lemma LatestStays(disk: Disk, names: set<string>)
    requires DistinctNames(disk)
    requires Latest(disk).Some? ==> Latest(disk).value.name !in names
    ensures Latest(Removing(disk, names)) == Latest(disk)
  {
    LatestOf(Entries(disk));
    LatestOf(Without(Entries(disk), names));
    NewestStays(Entries(disk), names);
  }

  lemma LatestIsLast(disk: Disk)
    ensures Complete(Read(disk)) == [] <==> Latest(disk).None?
    ensures Latest(disk).Some? ==> Latest(disk).value in Read(disk) && Latest(disk).value.complete
  {
    CompleteAre(Read(disk));
  }

  lemma EntryOf(disk: Disk, c: Checkpoint) returns (e: Entry)
    requires c in Read(disk)
    ensures e in Entries(disk) && IsCheckpoint(e) && ReadOne(e) == c
  {
    ReadAre(disk);
    e :| e in Entries(disk) && IsCheckpoint(e) && ReadOne(e) == c;
  }

  lemma IsRead(disk: Disk, e: Entry)
    requires e in Entries(disk) && IsCheckpoint(e)
    ensures ReadOne(e) in Read(disk)
  {
    ReadAre(disk);
  }

  lemma SameNameSameCheckpoint(disk: Disk, c: Checkpoint, d: Checkpoint)
    requires DistinctNames(disk) && c in Read(disk) && d in Read(disk) && c.name == d.name
    ensures c == d
  {
    var e := EntryOf(disk, c);
    var f := EntryOf(disk, d);
    SameNameSameEntry(disk, e, f);
  }

  lemma NeverBoth(name: string)
    ensures !(PREFIX <= name && TEMP_PREFIX <= name)
  {
    assert PREFIX[0] == 'c' && TEMP_PREFIX[0] == 't';
    assert PREFIX <= name ==> name[0] == 'c';
    assert TEMP_PREFIX <= name ==> name[0] == 't';
  }

  lemma NotTemporary(disk: Disk, c: Checkpoint)
    requires c in Read(disk)
    ensures c.name !in Temporaries(disk)
  {
    var _ := EntryOf(disk, c);
    NeverBoth(c.name);
  }

  /** `sweep_partial` removes exactly the incomplete checkpoints and the temporaries, and only where a
      complete checkpoint stays behind. */
  lemma SweepTakesOnlyTorsos(disk: Disk, e: Entry)
    requires DistinctNames(disk) && e in Entries(disk)
    ensures e in Entries(Removing(disk, Sweepings(disk)))
       <==> Latest(disk).None? || (!IsTemporary(e) && (IsCheckpoint(e) ==> ReadOne(e).complete))
  {
    LatestIsLast(disk);
    WithoutHas(Entries(disk), Sweepings(disk));
    NamedPartial(disk, e);
    forall f | f in Entries(disk) && f.name == e.name ensures f == e {
      SameNameSameEntry(disk, e, f);
    }
  }

  /** On the disk itself: while something can be resumed from, exactly the temporaries and the checkpoints
      without a step in their state file go. */
  lemma {:induction false} SweepOnDisk(disk: Disk, e: Entry)
    requires DistinctNames(disk) && e in Entries(disk)
    ensures var resumable := exists d :: d in Entries(disk) && "checkpoint-" <= d.name && d.state.Written? && d.state.step != Absent;
      e !in Entries(Removing(disk, Sweepings(disk)))
      <==> resumable && ("tmp-checkpoint-" <= e.name || ("checkpoint-" <= e.name && (e.state.Unreadable? || e.state.step == Absent)))
  {
    LatestOnDisk(disk);
    SweepTakesOnlyTorsos(disk, e);
  }

  lemma NamedPartial(disk: Disk, e: Entry)
    requires DistinctNames(disk) && e in Entries(disk)
    ensures e.name in Names(Partial(Read(disk))) <==> IsCheckpoint(e) && !ReadOne(e).complete
  {
    PartialAreFound(Read(disk));
    forall p | p in Partial(Read(disk)) && p.name == e.name ensures IsCheckpoint(e) && ReadOne(e) == p {
      var f := EntryOf(disk, p);
      SameNameSameEntry(disk, e, f);
    }
    if IsCheckpoint(e) { IsRead(disk, e); }
  }

  lemma SweepKeepsTheNewest(disk: Disk)
    requires DistinctNames(disk)
    ensures Latest(disk).Some? ==> Latest(disk).value.name !in Sweepings(disk)
  {
    if Latest(disk).Some? {
      var c := Latest(disk).value;
      LatestIsLast(disk);
      NotTemporary(disk, c);
      PartialAreFound(Read(disk));
      forall p | p in Partial(Read(disk)) ensures p.name != c.name {
        if p.name == c.name { SameNameSameCheckpoint(disk, p, c); }
      }
    }
  }

  lemma PruneKeepsTheNewest(disk: Disk, keep: int)
    requires DistinctNames(disk) && keep >= 1
    ensures Latest(disk).Some? ==> Latest(disk).value.name !in Prunings(disk, keep)
  {
    if Latest(disk).Some? {
      var c := Latest(disk).value;
      TheNewestIsKept(disk, keep);
      NotTemporary(disk, c);
      hide Latest, Read, Keeping, Temporaries;
      SpareAreFound(Read(disk), Names(Keeping(disk, keep)));
    }
  }

  lemma TheNewestIsKept(disk: Disk, keep: int)
    requires keep >= 1 && Latest(disk).Some?
    ensures Latest(disk).value in Read(disk) && Latest(disk).value.name in Names(Keeping(disk, keep))
  {
    var c, keeping := Latest(disk).value, Keeping(disk, keep);
    LatestIsLast(disk);
    assert keeping[|keeping| - 1] == c;
    assert c in keeping;
  }

  lemma {:induction false} CompleteIsOrdered(s: seq<Checkpoint>)
    requires Ordered(s)
    ensures Ordered(Complete(s))
  {
    if s != [] {
      var init, last := s[..|s| - 1], s[|s| - 1];
      CompleteIsOrdered(init);
      CompleteAre(init);
      forall c | c in Complete(init) ensures !Earlier(last, c) {
        var i :| 0 <= i < |init| && init[i] == c;
      }
    }
  }

  /** `prune` leaves the `keep` newest complete checkpoints, or all of them when there are fewer: none
      it takes is later than one it leaves. With nothing complete to keep it takes nothing. */
  lemma PruneKeepsTheNewestFew(disk: Disk, keep: int, e: Entry)
    requires DistinctNames(disk) && keep >= 0 && e in Entries(disk)
    ensures |Keeping(disk, keep)| == if |Complete(Read(disk))| < keep then |Complete(Read(disk))| else keep
    ensures var stays := e in Entries(Removing(disk, Prunings(disk, keep)));
      if keep > 0 && Latest(disk).None? then stays
      else
        && (IsCheckpoint(e) ==> (stays <==> ReadOne(e) in Keeping(disk, keep)))
        && (IsTemporary(e) ==> (stays <==> keep == 0))
    ensures forall c, d :: c in Keeping(disk, keep) && d in Complete(Read(disk)) && d !in Keeping(disk, keep) ==> !Earlier(c, d)
  {
    LatestIsLast(disk);
    KeptAreNewest(disk, keep);
    CompleteAre(Read(disk));
    WithoutHas(Entries(disk), Prunings(disk, keep));
    StaysWhenKept(disk, Keeping(disk, keep), e);
  }

  lemma KeptAreNewest(disk: Disk, keep: int)
    ensures forall c, d :: c in Keeping(disk, keep) && d in Complete(Read(disk)) && d !in Keeping(disk, keep) ==> !Earlier(c, d)
  {
    ReadAre(disk);
    var complete, keeping := Complete(Read(disk)), Keeping(disk, keep);
    var first := |complete| - |keeping|;
    CompleteIsOrdered(Read(disk));
    assert keeping == complete[first..];
    forall c, d | c in keeping && d in complete && d !in keeping ensures !Earlier(c, d) {
      EndIsNewest(complete, first, c, d);
    }
  }

  lemma EndIsNewest(s: seq<Checkpoint>, first: nat, c: Checkpoint, d: Checkpoint)
    requires Ordered(s) && first <= |s| && c in s[first..] && d in s && d !in s[first..]
    ensures !Earlier(c, d)
  {
    var i :| 0 <= i < |s| - first && s[first..][i] == c;
    var j :| 0 <= j < |s| && s[j] == d;
    assert forall k :: first <= k < |s| ==> s[first..][k - first] == s[k];
  }

  lemma StaysWhenKept(disk: Disk, keeping: seq<Checkpoint>, e: Entry)
    requires DistinctNames(disk) && e in Entries(disk) && forall c :: c in keeping ==> c in Complete(Read(disk))
    ensures IsCheckpoint(e) ==> !IsTemporary(e) && e.name !in Temporaries(disk)
    ensures IsTemporary(e) ==> e.name in Temporaries(disk)
    ensures IsCheckpoint(e) ==> (e.name !in Names(Spare(Read(disk), Names(keeping))) <==> ReadOne(e) in keeping)
    ensures IsTemporary(e) ==> e.name !in Names(Spare(Read(disk), Names(keeping)))
  {
    CompleteAre(Read(disk));
    SpareAreFound(Read(disk), Names(keeping));
    NeverBoth(e.name);
    if IsCheckpoint(e) {
      var c := ReadOne(e);
      IsRead(disk, e);
      NotTemporary(disk, c);
      forall d | d in Read(disk) && d.name == c.name ensures d == c { SameNameSameCheckpoint(disk, c, d); }
      assert c.name in Names(keeping) <==> c in keeping;
    }
    if IsTemporary(e) {
      forall c | c in Read(disk) ensures c.name != e.name { NotTemporary(disk, c); }
    }
  }

  // -- a lineage over time -----------------------------------------------------------------

  /** One step in the life of a lineage. A run that crashes, or fails before its plan is made, is one
      whose later steps never come. */
  datatype Event =
    | Start(resume: bool)
    | Train(after: Disk)
    | Settle(succeeded: bool, keep: bool)
    | Sweep
    | Prune(few: int)
    | Discard

  function After(disk: Disk, e: Event): Disk {
    match e
    case Start(resume) => Prepared(disk, resume)
    case Train(after) => after
    case Settle(succeeded, keep) => Settled(disk, succeeded, keep).0
    case Sweep => Removing(disk, Sweepings(disk))
    case Prune(few) => Removing(disk, Prunings(disk, few))
    case Discard => Gone
  }

  function AfterAll(disk: Disk, es: seq<Event>): Disk {
    if es == [] then disk else After(AfterAll(disk, es[..|es| - 1]), es[|es| - 1])
  }

  /** The newest complete checkpoint of `before` is still there, as it was. */
  ghost predicate Careful(before: Disk, after: Disk) {
    Latest(before).Some? ==> exists e :: e in Entries(after) && Usable(e) && ReadOne(e) == Latest(before).value
  }

  /** Whatever a trainer writes or rotates away, it never deletes its newest complete checkpoint. */
  ghost predicate Possible(disk: Disk, e: Event) {
    e.Train? ==> DistinctNames(e.after) && Careful(disk, e.after)
  }

  ghost predicate PossibleAll(disk: Disk, es: seq<Event>) {
    es == [] || (PossibleAll(disk, es[..|es| - 1]) && Possible(AfterAll(disk, es[..|es| - 1]), es[|es| - 1]))
  }

  lemma OneMoreEvent(disk: Disk, es: seq<Event>, e: Event)
    ensures AfterAll(disk, es + [e]) == After(AfterAll(disk, es), e)
    ensures PossibleAll(disk, es + [e]) <==> PossibleAll(disk, es) && Possible(AfterAll(disk, es), e)
  {
    assert (es + [e])[..|es|] == es;
  }

  lemma {:induction false} PossibleSoFar(disk: Disk, es: seq<Event>, n: nat)
    requires PossibleAll(disk, es) && n <= |es|
    ensures PossibleAll(disk, es[..n])
    decreases |es|
  {
    if n == |es| {
      assert es[..n] == es;
    } else {
      PossibleSoFar(disk, es[..|es| - 1], n);
      assert es[..|es| - 1][..n] == es[..n];
    }
  }

  /** The steps that give checkpoints up: a fresh start, success without `keep`, and the two commands. */
  predicate GivesUp(e: Event) {
    e == Start(false) || e == Settle(true, false) || e.Discard? || (e.Prune? && e.few <= 0)
  }

  predicate NeverGivesUp(es: seq<Event>) {
    forall e :: e in es ==> !GivesUp(e)
  }

  lemma StaysDistinct(disk: Disk, e: Event)
    requires DistinctNames(disk) && Possible(disk, e)
    ensures DistinctNames(After(disk, e))
  {
    WithoutIsDistinct(disk, Sweepings(disk));
    if e.Prune? { WithoutIsDistinct(disk, Prunings(disk, e.few)); }
  }

  /** A run starts with its lineage directory there, and in it everything when it resumes and nothing otherwise. */
  lemma StartsWith(disk: Disk, resume: bool)
    ensures Prepared(disk, resume).Listing? && Entries(Prepared(disk, resume)) == if resume then Entries(disk) else []
    ensures Latest(Prepared(disk, resume)) == if resume then Latest(disk) else None
  {
    LatestIsNewest(Prepared(disk, resume));
    if resume { assert Entries(Prepared(disk, resume)) == Entries(disk); }
  }

  /** A step that neither trains nor gives up leaves the newest complete checkpoint what it was. */
  lemma QuietStepKeeps(disk: Disk, e: Event)
    requires DistinctNames(disk) && !GivesUp(e) && !e.Train?
    ensures Latest(After(disk, e)) == Latest(disk)
  {
    hide Latest, Sweepings, Prunings, Removing, Prepared, DistinctNames;
    SweepKeepsTheNewest(disk);
    LatestStays(disk, Sweepings(disk));
    if e.Prune? {
      PruneKeepsTheNewest(disk, e.few);
      LatestStays(disk, Prunings(disk, e.few));
    }
    StartsWith(disk, true);
  }

  lemma StepNeverGoesBack(disk: Disk, e: Event)
    requires DistinctNames(disk) && Possible(disk, e) && !GivesUp(e) && Latest(disk).Some?
    ensures Latest(After(disk, e)).Some? && !Earlier(Latest(After(disk, e)).value, Latest(disk).value)
  {
    if e.Train? {
      LatestIsNewest(e.after);
    } else {
      QuietStepKeeps(disk, e);
    }
  }

  /** Whatever fails, is cancelled or crashes, and whatever is swept or pruned: the newest complete
      checkpoint of a lineage is never lost and never replaced by an earlier one. */
  lemma {:induction false} ProgressIsNeverLost(disk: Disk, es: seq<Event>)
    requires DistinctNames(disk) && PossibleAll(disk, es) && NeverGivesUp(es)
    ensures DistinctNames(AfterAll(disk, es))
    ensures Latest(disk).Some? ==>
              && Latest(AfterAll(disk, es)).Some?
              && Latest(AfterAll(disk, es)).value.step >= Latest(disk).value.step
              && !Earlier(Latest(AfterAll(disk, es)).value, Latest(disk).value)
    decreases |es|
  {
    if es != [] {
      var init, last := es[..|es| - 1], es[|es| - 1];
      assert last in es && forall e :: e in init ==> e in es;
      ProgressIsNeverLost(disk, init);
      var before := AfterAll(disk, init);
      StaysDistinct(before, last);
      if Latest(before).Some? { StepNeverGoesBack(before, last); }
    }
  }

  // -- a trainer's saves ---------------------------------------------------------------------

  /** The states of the directory after each thing a trainer does in it, save or rotation. */
  function Trains(saves: seq<Disk>): seq<Event> {
    if saves == [] then [] else Trains(saves[..|saves| - 1]) + [Train(saves[|saves| - 1])]
  }

  function LastSave(disk: Disk, saves: seq<Disk>): Disk {
    if saves == [] then disk else saves[|saves| - 1]
  }

  /** At each of them the newest complete checkpoint of just before stays; older ones may be rotated away. */
  ghost predicate CarefulSaves(disk: Disk, saves: seq<Disk>) {
    saves == []
    || (var init, last := saves[..|saves| - 1], saves[|saves| - 1];
        CarefulSaves(disk, init) && DistinctNames(last) && Careful(LastSave(disk, init), last))
  }

  lemma {:induction false} SavesAreSteps(disk: Disk, es: seq<Event>, saves: seq<Disk>)
    ensures AfterAll(disk, es + Trains(saves)) == LastSave(AfterAll(disk, es), saves)
    ensures PossibleAll(disk, es) && CarefulSaves(AfterAll(disk, es), saves) ==> PossibleAll(disk, es + Trains(saves))
    decreases |saves|
  {
    if saves == [] {
      assert es + [] == es;
    } else {
      var init, last := saves[..|saves| - 1], saves[|saves| - 1];
      SavesAreSteps(disk, es, init);
      OneMoreEvent(disk, es + Trains(init), Train(last));
      assert es + Trains(saves) == es + Trains(init) + [Train(last)];
    }
  }

  /** Between runs nothing moves: after a run settles, through any sweeps, prunes, and starts that never
      got to train, the next run resumes from exactly the checkpoint recorded for it; from nothing when
      nothing was recorded. */
  lemma {:induction false} ResumesWhereItSettled(disk: Disk, succeeded: bool, keep: bool, quiet: seq<Event>)
    requires DistinctNames(disk) && NeverGivesUp(quiet) && forall e :: e in quiet ==> !e.Train?
    ensures var (left, recorded) := Settled(disk, succeeded, keep);
      DistinctNames(AfterAll(left, quiet)) && Latest(AfterAll(left, quiet)) == recorded
    decreases |quiet|
  {
    var (left, recorded) := Settled(disk, succeeded, keep);
    if quiet == [] {
      WithoutIsDistinct(disk, Sweepings(disk));
      LatestIsNewest(Gone);
    } else {
      ResumesWhereItSettled(disk, succeeded, keep, quiet[..|quiet| - 1]);
      var before, last := AfterAll(left, quiet[..|quiet| - 1]), quiet[|quiet| - 1];
      assert last in quiet && Possible(before, last);
      StaysDistinct(before, last);
      QuietStepKeeps(before, last);
    }
  }

  /** What a run records is the newest complete checkpoint there was when it ended; nothing exactly when
      there was none, or the run succeeded and did not ask to keep it. Then the whole lineage goes, and
      otherwise what a sweep takes. */
  lemma SettlesOnTheNewest(disk: Disk, succeeded: bool, keep: bool)
    requires DistinctNames(disk)
    ensures Settled(disk, succeeded, keep).1 == if succeeded && !keep then None else Latest(disk)
    ensures Settled(disk, succeeded, keep).0 == if succeeded && !keep then Gone else Removing(disk, Sweepings(disk))
  {
    SweepKeepsTheNewest(disk);
    LatestStays(disk, Sweepings(disk));
  }

  /** Checkpoints to resume from disappear in exactly these steps. */
  lemma LostExactlyWhenGivenUp(disk: Disk, e: Event)
    requires DistinctNames(disk) && Possible(disk, e) && Latest(disk).Some?
    ensures Latest(After(disk, e)).None? <==> GivesUp(e)
  {
    if !GivesUp(e) {
      StepNeverGoesBack(disk, e);
    } else {
      LatestIsNewest(After(disk, e));
      if e.Prune? { NothingKept(disk, e.few); }
    }
  }

  lemma NothingKept(disk: Disk, keep: int)
    requires keep <= 0
    ensures forall e :: e in Entries(Removing(disk, Prunings(disk, keep))) ==> !Usable(e)
  {
    assert Keeping(disk, keep) == [];
    SpareAreFound(Read(disk), {});
    WithoutHas(Entries(disk), Prunings(disk, keep));
    assert Names(Keeping(disk, keep)) == {};
    forall e | e in Entries(disk) && Usable(e) ensures e.name in Prunings(disk, keep) {
      IsRead(disk, e);
    }
  }
}
