/**
 Levels: chains of files with ascending, disjoint key spans, what a level says about a key,
 and the pieces of a compaction that work on one level.
 */
module Levels {
  import opened Options
  import opened Entries
  import opened EntryLists
  import opened FileCut

  /** What a source of entries says about a key: nothing, that it is deleted, or its value. */
  datatype Verdict = Absent | Deleted | Live(value: string)

  /** A point beats a tombstone of the same source. */
  function VerdictOf(e: EntryList, k: int): Verdict {
    match ValueAt(e.points, k)
    case Some(v) => Live(v)
    case None => if Covers(e.ranges, k) then Deleted else Absent
  }

  /** The newer source decides if it says anything. */
  function Under(newer: Verdict, older: Verdict): Verdict {
    if newer.Absent? then older else newer
  }

  predicate Mentions(e: EntryList, k: int) {
    HasKey(e.points, k) || Covers(e.ranges, k)
  }

  // ---- Files ----

  /** A file is a tidy, non-empty entry list over non-negative keys. */
  predicate GoodFile(f: EntryList) {
    f.Tidy() && !f.Empty() && f.MinKey() >= 0
  }

  /** Smallest and largest point key, -1 in a file without points. */
  function MinSortKey(f: EntryList): int {
    if f.points == [] then -1 else f.points[0].key
  }

  function MaxSortKey(f: EntryList): int {
    if f.points == [] then -1 else f.points[|f.points| - 1].key
  }

  function MinRangeKey(f: EntryList): int {
    if f.ranges == [] then -1 else f.ranges[0].lo
  }

  function MaxRangeKey(f: EntryList): int {
    if f.ranges == [] then -1 else f.ranges[|f.ranges| - 1].hi
  }

  function SstMinKey(f: EntryList): int {
    if MinRangeKey(f) < 0 then MinSortKey(f)
    else if MinSortKey(f) < 0 then MinRangeKey(f)
    else if MinSortKey(f) < MinRangeKey(f) then MinSortKey(f) else MinRangeKey(f)
  }

  function SstMaxKey(f: EntryList): int {
    if MaxSortKey(f) < MaxRangeKey(f) then MaxRangeKey(f) else MaxSortKey(f)
  }

  lemma SstKeys(f: EntryList)
    requires GoodFile(f)
    ensures SstMinKey(f) == f.MinKey() && SstMaxKey(f) == f.MaxKey()
    ensures f.MinKey() <= f.MaxKey()
  {
    RisingOrder(f.points);
    DisjointOrder(f.ranges);
  }

  /** A tidy list mentions only keys between its smallest and its largest key, and mentions both. */
  lemma MentionsWithin(e: EntryList, k: int)
    requires e.Tidy() && Mentions(e, k)
    ensures e.MinKey() <= k <= e.MaxKey()
  {
    RisingOrder(e.points);
    DisjointOrder(e.ranges);
    ValueIndex(e.points, k);
    CoversIndex(e.ranges, k);
  }

  lemma MentionsEnds(e: EntryList)
    requires e.Tidy() && !e.Empty()
    ensures Mentions(e, e.MinKey()) && Mentions(e, e.MaxKey())
  {
    DisjointOrder(e.ranges);
    if e.points != [] {
      ValueIndex(e.points, e.points[0].key);
      ValueIndex(e.points, e.points[|e.points| - 1].key);
    }
    if e.ranges != [] {
      CoversIndex(e.ranges, e.ranges[0].lo);
      CoversIndex(e.ranges, e.ranges[|e.ranges| - 1].hi);
    }
  }

  // ---- Levels ----

  /** Good files whose key spans ascend without overlap. */
  predicate Chain(files: seq<EntryList>) {
    files != [] ==>
      && GoodFile(files[0])
      && (|files| > 1 ==> files[0].MaxKey() < files[1].MinKey())
      && Chain(files[1..])
  }

  function Join(a: EntryList, b: EntryList): EntryList {
    EntryList(a.points + b.points, a.ranges + b.ranges)
  }

  /** All entries of a level, file by file. */
  function Flat(files: seq<EntryList>): EntryList {
    if files == [] then EntryList([], []) else Join(files[0], Flat(files[1..]))
  }

  lemma JoinTidy(a: EntryList, b: EntryList)
    requires GoodFile(a) && GoodFile(b) && a.MaxKey() < b.MinKey()
    ensures GoodFile(Join(a, b))
    ensures Join(a, b).MinKey() == a.MinKey() && Join(a, b).MaxKey() == b.MaxKey()
  {
    SstKeys(a);
    SstKeys(b);
    RisingConcat(a.points, b.points);
    DisjointConcat(a.ranges, b.ranges);
  }

  lemma JoinAssociative(a: EntryList, b: EntryList, c: EntryList)
    ensures Join(Join(a, b), c) == Join(a, Join(b, c))
  {
    assert a.points + b.points + c.points == a.points + (b.points + c.points);
    assert a.ranges + b.ranges + c.ranges == a.ranges + (b.ranges + c.ranges);
  }

  lemma JoinEmpty(a: EntryList)
    ensures Join(a, EntryList([], [])) == a == Join(EntryList([], []), a)
  {
    assert a.points + [] == a.points == [] + a.points;
    assert a.ranges + [] == a.ranges == [] + a.ranges;
  }

  lemma {:induction false} FlatTidy(files: seq<EntryList>)
    requires Chain(files)
    ensures Flat(files).Tidy()
    ensures files != [] ==> GoodFile(Flat(files))
    ensures files != [] ==> Flat(files).MinKey() == files[0].MinKey() && Flat(files).MaxKey() == files[|files| - 1].MaxKey()
  {
    if |files| == 1 {
      assert files[1..] == [];
      JoinEmpty(files[0]);
    } else if |files| > 1 {
      FlatTidy(files[1..]);
      JoinTidy(files[0], Flat(files[1..]));
    }
  }

  lemma {:induction false} FlatConcat(a: seq<EntryList>, b: seq<EntryList>)
    ensures Flat(a + b) == Join(Flat(a), Flat(b))
  {
    if a == [] {
      assert a + b == b;
      JoinEmpty(Flat(b));
    } else {
      assert (a + b)[1..] == a[1..] + b;
      FlatConcat(a[1..], b);
      JoinAssociative(a[0], Flat(a[1..]), Flat(b));
    }
  }

  lemma {:induction false} ChainConcat(a: seq<EntryList>, b: seq<EntryList>)
    requires Chain(a) && Chain(b) && (a != [] && b != [] ==> a[|a| - 1].MaxKey() < b[0].MinKey())
    ensures Chain(a + b)
  {
    if a == [] {
      assert a + b == b;
    } else {
      assert (a + b)[1..] == a[1..] + b;
      ChainConcat(a[1..], b);
    }
  }

  lemma {:induction false} ChainSplit(a: seq<EntryList>, b: seq<EntryList>)
    requires Chain(a + b)
    ensures Chain(a) && Chain(b)
    ensures a != [] && b != [] ==> a[|a| - 1].MaxKey() < b[0].MinKey()
  {
    if a == [] {
      assert a + b == b;
    } else {
      assert (a + b)[1..] == a[1..] + b;
      ChainSplit(a[1..], b);
    }
  }

  lemma {:induction false} ChainOrder(files: seq<EntryList>)
    requires Chain(files)
    ensures forall n :: 0 <= n < |files| ==> GoodFile(files[n])
    ensures forall n :: 0 <= n < |files| ==> files[n].MinKey() <= files[n].MaxKey()
    ensures forall m, n :: 0 <= m < n < |files| ==> files[m].MaxKey() < files[n].MinKey()
  {
    if files != [] {
      var tail := files[1..];
      ChainOrder(tail);
      SstKeys(files[0]);
      forall n | 0 <= n < |files| ensures GoodFile(files[n]) && files[n].MinKey() <= files[n].MaxKey() {
        assert n > 0 ==> files[n] == tail[n - 1];
      }
      forall m, n | 0 <= m < n < |files| ensures files[m].MaxKey() < files[n].MinKey() {
        assert files[n] == tail[n - 1];
        if m > 0 {
          assert files[m] == tail[m - 1];
        } else if n > 1 {
          assert tail[0].MaxKey() < tail[n - 1].MinKey();
        }
      }
    }
  }

  // ---- Cutting a list into files ----

  lemma CutMentions(e: EntryList, out: EntryList, rest: EntryList, splits: nat, k: int)
    requires GoodCut(e, out, rest, splits)
    ensures Mentions(e, k) <==> Mentions(out, k) || Mentions(rest, k)
  {
    ValueConcat(out.points, rest.points);
  }

  /** The parts of a cut stay over non-negative keys. */
  lemma CutGood(e: EntryList, out: EntryList, rest: EntryList, splits: nat)
    requires GoodFile(e) && GoodCut(e, out, rest, splits)
    ensures !out.Empty() ==> GoodFile(out)
    ensures !rest.Empty() ==> GoodFile(rest)
  {
    if !out.Empty() {
      MentionsEnds(out);
      CutMentions(e, out, rest, splits, out.MinKey());
      MentionsWithin(e, out.MinKey());
    }
    if !rest.Empty() {
      MentionsEnds(rest);
      CutMentions(e, out, rest, splits, rest.MinKey());
      MentionsWithin(e, rest.MinKey());
    }
  }

  /** The files hold the entries of e up to rest, with splits tombstones cut at file ends. */
  ghost predicate HoldsUpTo(files: seq<EntryList>, rest: EntryList, e: EntryList, splits: nat) {
    && Chain(files)
    && (rest.Empty() || GoodFile(rest))
    && (files != [] && !rest.Empty() ==> files[|files| - 1].MaxKey() < rest.MinKey())
    && Flat(files).points + rest.points == e.points
    && |Flat(files).ranges| + |rest.ranges| == |e.ranges| + splits
    && forall k :: Covers(e.ranges, k) <==> Covers(Flat(files).ranges, k) || Covers(rest.ranges, k)
  }

  /** The files hold exactly the entries of e. */
  ghost predicate Holds(files: seq<EntryList>, e: EntryList, splits: nat) {
    HoldsUpTo(files, EntryList([], []), e, splits)
  }

  lemma HoldsKeys(files: seq<EntryList>, e: EntryList, splits: nat)
    requires Holds(files, e, splits) && e.Tidy()
    ensures files == [] <==> e.Empty()
    ensures files != [] ==> files[0].MinKey() == e.MinKey() && files[|files| - 1].MaxKey() == e.MaxKey()
  {
    var all := Flat(files);
    FlatTidy(files);
    assert all.points + [] == all.points;
    if !e.Empty() {
      MentionsEnds(e);
      assert Mentions(all, e.MinKey()) && Mentions(all, e.MaxKey());
      MentionsWithin(all, e.MinKey());
      MentionsWithin(all, e.MaxKey());
    }
    if files != [] {
      MentionsEnds(all);
      assert Mentions(e, all.MinKey()) && Mentions(e, all.MaxKey());
      MentionsWithin(e, all.MinKey());
      MentionsWithin(e, all.MaxKey());
    }
  }

  lemma FlatAppend(files: seq<EntryList>, f: EntryList)
    ensures Flat(files + [f]) == Join(Flat(files), f)
  {
    FlatConcat(files, [f]);
    assert [f][1..] == [];
    JoinEmpty(f);
  }

  lemma FlatNext(files: seq<EntryList>, from: nat, n: nat)
    requires from <= n < |files|
    ensures Flat(files[from..n + 1]) == Join(Flat(files[from..n]), files[n])
  {
    FlatAppend(files[from..n], files[n]);
    assert files[from..n + 1] == files[from..n] + [files[n]];
  }

  lemma ChainAppend(files: seq<EntryList>, f: EntryList)
    requires Chain(files) && GoodFile(f) && (files != [] ==> files[|files| - 1].MaxKey() < f.MinKey())
    ensures Chain(files + [f])
  {
    assert [f][1..] == [];
    ChainConcat(files, [f]);
  }

  lemma HoldsMore(files: seq<EntryList>, rest: EntryList, e: EntryList, splits: nat, c: Cut)
    requires HoldsUpTo(files, rest, e, splits) && !rest.Empty()
    requires c.Cut? && !c.out.Empty() && GoodCut(rest, c.out, c.rest, c.splits)
    ensures HoldsUpTo(files + [c.out], c.rest, e, splits + c.splits)
  {
    CutGood(rest, c.out, c.rest, c.splits);
    MentionsEnds(c.out);
    CutMentions(rest, c.out, c.rest, c.splits, c.out.MinKey());
    MentionsWithin(rest, c.out.MinKey());
    ChainAppend(files, c.out);
    FlatAppend(files, c.out);
    CoversConcat(Flat(files).ranges, c.out.ranges);
    assert Flat(files).points + c.out.points + c.rest.points == Flat(files).points + (c.out.points + c.rest.points);
  }

  /** No cut on the way through e underflows. */
  predicate Cuttable(e: EntryList, z: Sizes)
    decreases |e.points| + |e.ranges|
  {
    e.Empty() ||
    (!Underflows(e, z)
     && var c := CutOf(e, z);
        c.Cut? && |c.rest.points| + |c.rest.ranges| < |e.points| + |e.ranges| && Cuttable(c.rest, z))
  }

  /** The files that cutting e again and again gives. */
  function FilesOf(e: EntryList, z: Sizes): seq<EntryList>
    decreases |e.points| + |e.ranges|
  {
    var c := CutOf(e, z);
    if e.Empty() || c.Underflow? || |c.rest.points| + |c.rest.ranges| >= |e.points| + |e.ranges| then []
    else [c.out] + FilesOf(c.rest, z)
  }

  lemma FilesNext(rest: EntryList, z: Sizes, c: Cut)
    requires !rest.Empty() && c == CutOf(rest, z) && c.Cut? && |c.rest.points| + |c.rest.ranges| < |rest.points| + |rest.ranges|
    ensures FilesOf(rest, z) == [c.out] + FilesOf(c.rest, z)
  {
  }

  lemma CuttableNext(rest: EntryList, z: Sizes, c: Cut)
    requires !rest.Empty() && c == CutOf(rest, z) && c.Cut? && |c.rest.points| + |c.rest.ranges| < |rest.points| + |rest.ranges|
    ensures Cuttable(rest, z) <==> !Underflows(rest, z) && Cuttable(c.rest, z)
  {
  }

  /** The files cut so far fit and are the first of those that cutting e gives; rest is still to be cut. */
  ghost predicate Begun(files: seq<EntryList>, rest: EntryList, e: EntryList, z: Sizes) {
    && files + FilesOf(rest, z) == FilesOf(e, z) && (Cuttable(rest, z) <==> Cuttable(e, z)) && |rest.ranges| <= |e.ranges|
    && forall f :: f in files ==> Bytes(|f.points|, |f.ranges|, z) <= z.file
  }

  lemma BegunNext(files: seq<EntryList>, rest: EntryList, e: EntryList, z: Sizes, c: Cut)
    requires Begun(files, rest, e, z) && !rest.Empty() && !Underflows(rest, z) && c == CutOf(rest, z) && c.Cut?
    requires |c.rest.points| + |c.rest.ranges| < |rest.points| + |rest.ranges| && |c.rest.ranges| <= |rest.ranges|
    requires Bytes(|c.out.points|, |c.out.ranges|, z) <= z.file
    ensures Begun(files + [c.out], c.rest, e, z)
  {
    FilesNext(rest, z, c);
    CuttableNext(rest, z, c);
    assert files + ([c.out] + FilesOf(c.rest, z)) == (files + [c.out]) + FilesOf(c.rest, z);
  }

  lemma NotCuttable(rest: EntryList, e: EntryList, files: seq<EntryList>, z: Sizes)
    requires Begun(files, rest, e, z) && !rest.Empty() && Underflows(rest, z) && z.Ok()
    ensures !Cuttable(e, z) && Bytes(1, |e.ranges|, z) > z.file
  {
    TimesMonotone(|rest.ranges|, |e.ranges|, z.range);
    if Bytes(1, |rest.ranges|, z) <= z.file {
      NoUnderflow(rest, z);
    }
  }

  /** Cuts the next file off what is left of e. */
  method CutNextFile(files: seq<EntryList>, rest: EntryList, ghost e: EntryList, ghost splits: nat, z: Sizes) returns (c: Cut)
    requires HoldsUpTo(files, rest, e, splits) && Begun(files, rest, e, z) && !rest.Empty() && z.Ok()
    ensures c.Underflow? ==> !Cuttable(e, z) && Bytes(1, |e.ranges|, z) > z.file
    ensures c.Cut? ==> HoldsUpTo(files + [c.out], c.rest, e, splits + c.splits) && Begun(files + [c.out], c.rest, e, z)
    ensures c.Cut? ==> |c.rest.points| + |c.rest.ranges| < |rest.points| + |rest.ranges|
  {
    c := SplitOut(rest, z);
    if c.Underflow? {
      NotCuttable(rest, e, files, z);
    } else {
      HoldsMore(files, rest, e, splits, c);
      BegunNext(files, rest, e, z, c);
    }
  }

  /** Cuts e into files no larger than the file size.  None: a cut underflowed. */
  method CutFiles(e: EntryList, z: Sizes) returns (r: Option<seq<EntryList>>, splits: nat)
    requires GoodFile(e) && z.Ok()
    ensures r.Some? <==> Cuttable(e, z)
    ensures Bytes(1, |e.ranges|, z) <= z.file ==> r.Some?
    ensures r.Some? ==> Holds(r.value, e, splits) && r.value == FilesOf(e, z)
    ensures r.Some? ==> forall f :: f in r.value ==> Bytes(|f.points|, |f.ranges|, z) <= z.file
  {
    var files, rest := [], e;
    splits := 0;
    assert Flat(files).points + rest.points == e.points;
    while !rest.Empty()
      decreases |rest.points| + |rest.ranges|
      invariant HoldsUpTo(files, rest, e, splits) && Begun(files, rest, e, z)
    {
      var c := CutNextFile(files, rest, e, splits, z);
      if c.Underflow? {
        return None, splits;
      }
      files, rest, splits := files + [c.out], c.rest, splits + c.splits;
    }
    r := Some(files);
  }

  // ---- The files a list overlaps ----

  /** The key spans of the files of a level. */
  function Spans(files: seq<EntryList>): seq<Interval> {
    if files == [] then [] else [Interval(SstMinKey(files[0]), SstMaxKey(files[0]))] + Spans(files[1..])
  }

  lemma {:induction false} SpansOf(files: seq<EntryList>)
    requires Chain(files)
    ensures |Spans(files)| == |files| && Disjoint(Spans(files))
    ensures forall n :: 0 <= n < |files| ==> Spans(files)[n] == Interval(files[n].MinKey(), files[n].MaxKey())
  {
    if files != [] {
      SpansOf(files[1..]);
      SstKeys(files[0]);
      assert Spans(files)[1..] == Spans(files[1..]);
    }
  }

  /** spans[from..to] are the spans that meet [lo, hi]; those before end below, those after start above. */
  predicate Stretch(spans: seq<Interval>, from: nat, to: nat, lo: int, hi: int) {
    && from <= to <= |spans|
    && (forall n :: 0 <= n < from ==> spans[n].hi < lo)
    && (forall n :: from <= n < to ==> lo <= spans[n].hi && spans[n].lo <= hi)
    && (forall n :: to <= n < |spans| ==> hi < spans[n].lo)
  }

  /** Gathers the entries of all files whose span overlaps [lo, hi]. */
  method Overlapping(files: seq<EntryList>, spans: seq<Interval>, lo: int, hi: int)
    returns (x: EntryList, from: nat, to: nat)
    requires |spans| == |files| && Disjoint(spans) && lo <= hi
    ensures Stretch(spans, from, to, lo, hi)
    ensures x == Flat(files[from..to])
  {
    DisjointOrder(spans);
    var n := 0;
    x := EntryList([], []);
    from := 0;
    while n < |files|
      invariant from <= n <= |files|
      invariant forall m :: 0 <= m < from ==> spans[m].hi < lo
      invariant forall m :: from <= m < n ==> lo <= spans[m].hi && spans[m].lo <= hi
      invariant x == Flat(files[from..n])
    {
      assert from < n ==> lo <= spans[n - 1].hi < spans[n].lo;
      if spans[n].hi < lo {
        assert files[n + 1..n + 1] == files[n..n];
        n := n + 1;
        from := n;
        continue;
      }
      if spans[n].lo > hi {
        break;
      }
      FlatNext(files, from, n);
      x := Join(x, files[n]);
      n := n + 1;
    }
    to := n;
  }

  /** Links the new files, which span [lo, hi], into the chain in place of the files they overlap. */
  method Splice(files: seq<EntryList>, spans: seq<Interval>, added: seq<EntryList>, lo: int, hi: int)
    returns (spliced: seq<EntryList>, from: nat, to: nat)
    requires |spans| == |files| > 0 && Disjoint(spans)
    requires added != [] && SstMinKey(added[0]) == lo <= hi
    ensures Stretch(spans, from, to, lo, hi)
    ensures spliced == files[..from] + added + files[to..]
  {
    DisjointOrder(spans);
    var head, end := 0, 0;
    from := 0;
    while end < |files| && spans[end].lo <= hi
      invariant 0 <= end <= |files|
      invariant from <= end && head == if from > 0 then from - 1 else 0
      invariant forall n :: 0 <= n < from ==> spans[n].hi < lo
      invariant forall n :: from <= n < end ==> lo <= spans[n].hi && spans[n].lo <= hi
    {
      if spans[end].hi < lo {
        head := end;
        from := end + 1;
      }
      end := end + 1;
    }
    to := end;
    if spans[0].hi >= SstMinKey(added[0]) {
      spliced := added + files[end..];
      assert files[..0] + added == added;
    } else {
      spliced := files[..head + 1] + added + files[end..];
    }
  }
}
