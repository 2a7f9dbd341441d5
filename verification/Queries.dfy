/**
 Point queries on the tree (`Query::pointQuery_RDF`, `pointQuery_SplitRDF`,
 `pointQuery_RDF_SkyLine`): the levels are searched from the newest to the oldest, and a range
 delete filter stops the search.  Each query counts the files it opens.
 */
module Queries {
  import opened Options
  import opened Entries
  import opened EntryLists
  import opened Levels
  import opened Compaction
  import opened PerLevelFilter
  import opened Tree
  import Skyline

  /** How many files of a level are opened for k. */
  function Probes(files: seq<EntryList>, k: int): nat {
    if files == [] || MinSortKey(files[0]) > k then 0
    else if MaxSortKey(files[0]) < k then Probes(files[1..], k)
    else 1 + Probes(files[1..], k)
  }

  lemma {:induction false} NotBefore(files: seq<EntryList>, k: int)
    requires Chain(files) && (files != [] ==> k < files[0].MinKey())
    ensures ValueAt(Flat(files).points, k) == None
    ensures 0 <= k ==> Probes(files, k) == 0
  {
    if files != [] {
      var f := files[0];
      ChainOrder(files);
      NotBefore(files[1..], k);
      ValueConcat(f.points, Flat(files[1..]).points);
      if f.points != [] {
        RisingHead(f.points);
      }
    }
  }

  /** A level opens at most one file for a key. */
  lemma {:induction false} OneProbe(files: seq<EntryList>, k: int)
    requires Chain(files) && 0 <= k
    ensures Probes(files, k) <= 1
  {
    if files != [] && MinSortKey(files[0]) <= k {
      if MaxSortKey(files[0]) < k {
        OneProbe(files[1..], k);
      } else {
        ChainOrder(files);
        NotBefore(files[1..], k);
      }
    }
  }

  /** k lies between the smallest and the largest point key of f. */
  predicate InSpan(f: EntryList, k: int) {
    f.points != [] && f.points[0].key <= k <= f.points[|f.points| - 1].key
  }

  lemma SpanAhead(files: seq<EntryList>, k: int)
    requires Chain(files) && files != [] && files[0].points != [] && k < files[0].points[0].key
    ensures forall n :: 0 <= n < |files| ==> !InSpan(files[n], k)
  {
    ChainOrder(files);
    var f := files[0];
    MentionsFirst(f);
    forall n | 0 < n < |files| ensures !InSpan(files[n], k) {
      if files[n].points != [] {
        MentionsFirst(files[n]);
      }
    }
  }

  lemma MentionsFirst(f: EntryList)
    requires GoodFile(f) && f.points != []
    ensures f.MinKey() <= f.points[0].key <= f.MaxKey()
  {
    ValueIndex(f.points, f.points[0].key);
    MentionsWithin(f, f.points[0].key);
  }

  /** A level opens a file for k exactly if k lies in the span of the point keys of one of its files. */
  lemma {:induction false} ProbedWhen(files: seq<EntryList>, k: int)
    requires Chain(files) && 0 <= k
    ensures Probes(files, k) == 1 <==> exists n :: 0 <= n < |files| && InSpan(files[n], k)
  {
    if files != [] {
      var f, rest := files[0], files[1..];
      OneProbe(files, k);
      if MinSortKey(f) > k {
        SpanAhead(files, k);
      } else if MaxSortKey(f) < k {
        ProbedWhen(rest, k);
        assert forall n :: 0 < n < |files| ==> files[n] == rest[n - 1];
        if exists n :: 0 <= n < |rest| && InSpan(rest[n], k) {
          var n :| 0 <= n < |rest| && InSpan(rest[n], k);
          assert InSpan(files[n + 1], k);
        }
        if exists n :: 0 <= n < |files| && InSpan(files[n], k) {
          var n :| 0 <= n < |files| && InSpan(files[n], k);
          assert InSpan(rest[n - 1], k);
        }
      } else {
        assert InSpan(files[0], k);
      }
    }
  }

  /** Where the search of a level stops, no later file holds k; a file it passes over does not either. */
  lemma Passed(files: seq<EntryList>, k: int)
    requires Chain(files) && files != []
    ensures MinSortKey(files[0]) > k ==> ValueAt(Flat(files).points, k) == None
    ensures MaxSortKey(files[0]) < k ==> ValueAt(files[0].points, k) == None
    ensures ValueAt(Flat(files).points, k) == OrElse(ValueAt(files[0].points, k), ValueAt(Flat(files[1..]).points, k))
  {
    var f := files[0];
    ChainOrder(files);
    ValueConcat(f.points, Flat(files[1..]).points);
    RisingOrder(f.points);
    ValueIndex(f.points, k);
    if MinSortKey(f) > k {
      assert |files| > 1 ==> k < files[1].MinKey();
      NotBefore(files[1..], k);
    }
  }

  /** Searches the files of a level. */
  method SearchLevel(files: seq<EntryList>, k: int) returns (value: Option<string>, probed: nat)
    requires Chain(files)
    ensures value == ValueAt(Flat(files).points, k)
    ensures probed == Probes(files, k)
  {
    var rest := files;
    probed := 0;
    while rest != []
      invariant Chain(rest) && ValueAt(Flat(files).points, k) == ValueAt(Flat(rest).points, k)
      invariant probed + Probes(rest, k) == Probes(files, k)
      decreases |rest|
    {
      Passed(rest, k);
      if MinSortKey(rest[0]) > k {
        return None, probed;
      }
      if MaxSortKey(rest[0]) >= k {
        probed := probed + 1;
        value := ValueAt(rest[0].points, k);
        if value.Some? {
          FoundLast(rest, k);
          return;
        }
      }
      rest := rest[1..];
    }
    value := None;
  }

  lemma FoundLast(files: seq<EntryList>, k: int)
    requires Chain(files) && files != [] && files[0].points != [] && MinSortKey(files[0]) <= k <= MaxSortKey(files[0])
    ensures Probes(files, k) == 1
  {
    ChainOrder(files);
    NotBefore(files[1..], k);
  }

  /** The number of levels before the first empty one. */
  method TotalLevelCount(levels: seq<seq<EntryList>>) returns (n: nat)
    requires |levels| == LEVELS
    ensures n < LEVELS && (forall i :: 1 <= i <= n ==> levels[i] != []) && (n + 1 < LEVELS ==> levels[n + 1] == [])
  {
    n := 0;
    while n + 1 < LEVELS && levels[n + 1] != []
      invariant n < LEVELS && forall i :: 1 <= i <= n ==> levels[i] != []
    {
      n := n + 1;
    }
  }

  function ValueOf(v: Verdict): Option<string> {
    if v.Live? then Some(v.value) else None
  }

  /** From an empty level down there is nothing. */
  lemma {:induction false} NothingBelow(levels: seq<seq<EntryList>>, plain: seq<seq<Interval>>, split: seq<seq<Interval>>, from: nat, i: nat, k: int)
    requires from <= i && OkFrom(levels, plain, split, from) && (i < |levels| ==> levels[i] == [])
    ensures MeaningFrom(levels, i, k) == Absent && !StoredFrom(levels, i, k)
    decreases |levels| - from
  {
    if from < i && from < |levels| {
      NothingBelow(levels, plain, split, from + 1, i, k);
    } else if i < |levels| {
      NothingBelow(levels, plain, split, i + 1, i + 1, k);
    }
  }

  /** Files opened by the query with the plain filters: a level's filter is asked after its files. */
  ghost function PlainProbes(levels: seq<seq<EntryList>>, plain: seq<seq<Interval>>, i: nat, k: int): nat
    decreases |levels| - i
  {
    if i >= |levels| || levels[i] == [] then 0
    else Probes(levels[i], k) +
         if HasKey(Flat(levels[i]).points, k) || Covers(At(plain, i), k) then 0 else PlainProbes(levels, plain, i + 1, k)
  }

  /** Files opened by the query with the split filters: a level's filter is asked before its files. */
  ghost function SplitProbes(levels: seq<seq<EntryList>>, split: seq<seq<Interval>>, i: nat, k: int): nat
    decreases |levels| - i
  {
    if i >= |levels| || levels[i] == [] || Covers(At(split, i), k) then 0
    else Probes(levels[i], k) + if HasKey(Flat(levels[i]).points, k) then 0 else SplitProbes(levels, split, i + 1, k)
  }

  /** Files opened by the query without a filter per level. */
  ghost function SkylineProbes(levels: seq<seq<EntryList>>, i: nat, k: int): nat
    decreases |levels| - i
  {
    if i >= |levels| || levels[i] == [] then 0
    else Probes(levels[i], k) + if HasKey(Flat(levels[i]).points, k) then 0 else SkylineProbes(levels, i + 1, k)
  }

  /** The split filters never open more files than the plain ones, and those never more than the skyline. */
  lemma {:induction false} ProbeOrder(levels: seq<seq<EntryList>>, plain: seq<seq<Interval>>, split: seq<seq<Interval>>, i: nat, k: int)
    requires OkFrom(levels, plain, split, i)
    ensures SplitProbes(levels, split, i, k) <= PlainProbes(levels, plain, i, k) <= SkylineProbes(levels, i, k)
    decreases |levels| - i
  {
    if i < |levels| {
      assert Agrees(levels[i], At(plain, i), At(split, i), k);
      ProbeOrder(levels, plain, split, i + 1, k);
    }
  }

  /** Level i of a tree that is in order from a level above down. */
  lemma {:induction false} LevelStep(levels: seq<seq<EntryList>>, plain: seq<seq<Interval>>, split: seq<seq<Interval>>, from: nat, i: nat, k: int)
    requires from <= i < |levels| && OkFrom(levels, plain, split, from) && levels[i] != []
    ensures i < |plain| && Chain(levels[i]) && Apart(plain[i]) && Apart(At(split, i))
    ensures var at := ValueAt(Flat(levels[i]).points, k);
            && (at.Some? ==> MeaningFrom(levels, i, k) == Live(at.value))
            && (at.None? && Covers(plain[i], k) ==> MeaningFrom(levels, i, k) == Deleted)
            && (at.None? && !Covers(plain[i], k) ==> MeaningFrom(levels, i, k) == MeaningFrom(levels, i + 1, k))
            && (Covers(At(split, i), k) <==> Covers(plain[i], k) && at.None?)
    decreases i - from
  {
    if from < i {
      LevelStep(levels, plain, split, from + 1, i, k);
    } else {
      assert Agrees(levels[i], At(plain, i), At(split, i), k);
    }
  }

  /** The first point of k in level order, hidden or not. */
  function FirstStored(levels: seq<seq<EntryList>>, i: nat, k: int): Option<string>
    decreases |levels| - i
  {
    if i >= |levels| then None else OrElse(ValueAt(Flat(levels[i]).points, k), FirstStored(levels, i + 1, k))
  }

  lemma {:induction false} FirstStoredIs(levels: seq<seq<EntryList>>, i: nat, k: int)
    ensures FirstStored(levels, i, k).Some? <==> StoredFrom(levels, i, k)
    ensures MeaningFrom(levels, i, k).Live? ==> FirstStored(levels, i, k) == Some(MeaningFrom(levels, i, k).value)
    decreases |levels| - i
  {
    if i < |levels| {
      FirstStoredIs(levels, i + 1, k);
    }
  }

  /** What a query finds from a level down, and how many files it opens for that. */
  datatype Told = Told(value: Option<string>, probes: nat)

  ghost function PlainTold(levels: seq<seq<EntryList>>, plain: seq<seq<Interval>>, k: int, i: nat): Told {
    Told(ValueOf(MeaningFrom(levels, i, k)), PlainProbes(levels, plain, i, k))
  }

  ghost function SplitTold(levels: seq<seq<EntryList>>, split: seq<seq<Interval>>, k: int, i: nat): Told {
    Told(ValueOf(MeaningFrom(levels, i, k)), SplitProbes(levels, split, i, k))
  }

  ghost function StoredTold(levels: seq<seq<EntryList>>, k: int, i: nat): Told {
    Told(FirstStored(levels, i, k), SkylineProbes(levels, i, k))
  }

  /** What the files of a level and a filter tell about k before the levels below are asked; None: they are asked. */
  ghost function LevelTells(files: seq<EntryList>, before: seq<Interval>, after: seq<Interval>, k: int): Option<Told> {
    var at, n := ValueAt(Flat(files).points, k), Probes(files, k);
    if Covers(before, k) then Some(Told(None, 0))
    else if at.Some? || Covers(after, k) then Some(Told(at, n))
    else None
  }

  /** What is told from a level on, given what is told from the next one on. */
  ghost predicate Tells(files: seq<EntryList>, before: seq<Interval>, after: seq<Interval>, k: int, here: Told, below: Told) {
    && Chain(files) && Apart(before) && Apart(after)
    && var tells := LevelTells(files, before, after, k);
       here == if tells.Some? then tells.value else Told(below.value, Probes(files, k) + below.probes)
  }

  lemma OneLevel(levels: seq<seq<EntryList>>, plain: seq<seq<Interval>>, split: seq<seq<Interval>>, k: int, i: nat)
    requires OkFrom(levels, plain, split, 1) && 1 <= i < |levels| && levels[i] != []
    ensures i < |plain|
    ensures Tells(levels[i], [], plain[i], k, PlainTold(levels, plain, k, i), PlainTold(levels, plain, k, i + 1))
    ensures Tells(levels[i], At(split, i), [], k, SplitTold(levels, split, k, i), SplitTold(levels, split, k, i + 1))
    ensures Tells(levels[i], [], [], k, StoredTold(levels, k, i), StoredTold(levels, k, i + 1))
  {
    LevelStep(levels, plain, split, 1, i, k);
  }

  /** The levels that a query looks at tell all there is, and there is nothing below them. */
  lemma QueryLevels(levels: seq<seq<EntryList>>, plain: seq<seq<Interval>>, split: seq<seq<Interval>>, count: nat, k: int)
    requires OkFrom(levels, plain, split, 1) && count < |levels|
    requires (forall i :: 1 <= i <= count ==> levels[i] != []) && (count + 1 < |levels| ==> levels[count + 1] == [])
    ensures count > 0 ==> count < |plain|
    ensures forall i :: 1 <= i <= count ==> Tells(levels[i], [], At(plain, i), k, PlainTold(levels, plain, k, i), PlainTold(levels, plain, k, i + 1))
    ensures forall i :: 1 <= i <= count ==> Tells(levels[i], At(split, i), [], k, SplitTold(levels, split, k, i), SplitTold(levels, split, k, i + 1))
    ensures forall i :: 1 <= i <= count ==> Tells(levels[i], [], [], k, StoredTold(levels, k, i), StoredTold(levels, k, i + 1))
    ensures PlainTold(levels, plain, k, count + 1) == SplitTold(levels, split, k, count + 1) == StoredTold(levels, k, count + 1) == Told(None, 0)
  {
    if count > 0 {
      OneLevel(levels, plain, split, k, count);
    }
    forall i | 1 <= i <= count
      ensures Tells(levels[i], [], At(plain, i), k, PlainTold(levels, plain, k, i), PlainTold(levels, plain, k, i + 1))
      ensures Tells(levels[i], At(split, i), [], k, SplitTold(levels, split, k, i), SplitTold(levels, split, k, i + 1))
      ensures Tells(levels[i], [], [], k, StoredTold(levels, k, i), StoredTold(levels, k, i + 1))
    {
      OneLevel(levels, plain, split, k, i);
    }
    NothingBelow(levels, plain, split, 1, count + 1, k);
    FirstStoredIs(levels, count + 1, k);
  }

  /** The files of one level, between the filter asked before them and the one asked after them. */
  method AskLevel(files: seq<EntryList>, before: seq<Interval>, after: seq<Interval>, k: int)
    returns (value: Option<string>, done: bool, n: nat)
    requires Chain(files) && Apart(before) && Apart(after)
    ensures var tells := LevelTells(files, before, after, k);
            if tells.Some? then done && Told(value, n) == tells.value else !done && value == None && n == Probes(files, k)
  {
    var alive := IsEntryAlive(before, k);
    if !alive {
      return None, true, 0;
    }
    value, n := SearchLevel(files, k);
    if value.Some? {
      return value, true, n;
    }
    alive := IsEntryAlive(after, k);
    done := !alive;
  }

  /** The loop of the three queries over the levels. */
  method Walk(levels: seq<seq<EntryList>>, before: seq<seq<Interval>>, after: seq<seq<Interval>>, count: nat, k: int, ghost told: seq<Told>)
    returns (r: Option<string>, probed: nat)
    requires count < |levels| && |told| == count + 2 && told[count + 1] == Told(None, 0)
    requires forall i :: 1 <= i <= count ==> Tells(levels[i], At(before, i), At(after, i), k, told[i], told[i + 1])
    ensures Told(r, probed) == told[1]
  {
    var i := 1;
    probed := 0;
    while i <= count
      invariant 1 <= i <= count + 1 && told[1] == Told(told[i].value, probed + told[i].probes)
    {
      assert Tells(levels[i], At(before, i), At(after, i), k, told[i], told[i + 1]);
      var done, n;
      r, done, n := AskLevel(levels[i], At(before, i), At(after, i), k);
      probed := probed + n;
      if done {
        return;
      }
      i := i + 1;
    }
    r := None;
  }

  /** pointQuery_RDF below the buffer: a level's filter is asked after its files. */
  method QueryPlain(levels: seq<seq<EntryList>>, plain: seq<seq<Interval>>, ghost split: seq<seq<Interval>>, k: int)
    returns (r: Option<string>, probed: nat)
    requires |levels| == LEVELS && OkFrom(levels, plain, split, 1)
    ensures r == ValueOf(MeaningFrom(levels, 1, k))
    ensures probed == PlainProbes(levels, plain, 1, k)
  {
    var count := TotalLevelCount(levels);
    QueryLevels(levels, plain, split, count, k);
    ghost var told := seq(count + 2, i requires 0 <= i => PlainTold(levels, plain, k, i));
    r, probed := Walk(levels, [], plain, count, k, told);
  }

  /** pointQuery_SplitRDF below the buffer: a level's filter is asked before its files. */
  method QuerySplit(levels: seq<seq<EntryList>>, ghost plain: seq<seq<Interval>>, split: seq<seq<Interval>>, k: int)
    returns (r: Option<string>, probed: nat)
    requires |levels| == LEVELS && |plain| == |split| && OkFrom(levels, plain, split, 1)
    ensures r == ValueOf(MeaningFrom(levels, 1, k))
    ensures probed == SplitProbes(levels, split, 1, k)
  {
    var count := TotalLevelCount(levels);
    QueryLevels(levels, plain, split, count, k);
    ghost var told := seq(count + 2, i requires 0 <= i => SplitTold(levels, split, k, i));
    r, probed := Walk(levels, split, [], count, k, told);
  }

  /** Searches the levels for the first point of k. */
  method FindStored(levels: seq<seq<EntryList>>, ghost plain: seq<seq<Interval>>, ghost split: seq<seq<Interval>>, k: int)
    returns (value: Option<string>, probed: nat)
    requires |levels| == LEVELS && OkFrom(levels, plain, split, 1)
    ensures value == FirstStored(levels, 1, k) && probed == SkylineProbes(levels, 1, k)
  {
    var count := TotalLevelCount(levels);
    QueryLevels(levels, plain, split, count, k);
    ghost var told := seq(count + 2, i requires 0 <= i => StoredTold(levels, k, i));
    value, probed := Walk(levels, [], [], count, k, told);
  }

  /** pointQuery_RDF_SkyLine below the buffer: the point found first is dead if the skyline says so. */
  method QuerySkyline(levels: seq<seq<EntryList>>, ghost plain: seq<seq<Interval>>, ghost split: seq<seq<Interval>>,
                      list: seq<Skyline.Tagged>, k: int, t: int)
    returns (r: Option<string>, probed: nat)
    requires |levels| == LEVELS && OkFrom(levels, plain, split, 1) && Skyline.Lined(list)
    ensures r == if Skyline.Answer(Skyline.ViewOf(list, k), t) then FirstStored(levels, 1, k) else None
    ensures probed == SkylineProbes(levels, 1, k)
  {
    r, probed := FindStored(levels, plain, split, k);
    if r.Some? {
      var alive := Skyline.IsEntryAlive(list, k, t);
      if !alive {
        r := None;
      }
    }
  }
}
