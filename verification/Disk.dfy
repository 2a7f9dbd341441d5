/**
 Writing a list into one level on disk: gathering and merging the entries it overlaps, bringing both
 filters up to date, cutting the result into files and splicing them in (`sortAndWrite_RDF`,
 `compactAndFlush_RDF`).
 */
module Disk {
  import opened Options
  import opened Entries
  import opened EntryLists
  import opened FileCut
  import opened Levels
  import opened Compaction
  import opened PerLevelFilter

  /** Why the program stops: its own size check, a read past the front of a vector, or a write
      behind the last level head. */
  datatype Failure = TileRelation | CutUnderflow | NoSuchLevel

  datatype Outcome<+T> = Ok(value: T) | Exit(why: Failure)

  type Positive = n: int | n > 0 witness 1

  /** Buffer size in bytes, size ratio between levels, the bytes a full buffer's file counts for, the delete
      tile size in pages, and the sizes that decide where files are cut. */
  datatype Env = Env(bufferSize: nat, sizeRatio: Positive, fileBytes: Positive, tile: Positive, sizes: Sizes) {
    /** The first level takes more than one file. */
    predicate Roomy() {
      bufferSize * sizeRatio >= 2 * fileBytes
    }

    predicate Valid() {
      Roomy() && sizes.Ok()
    }
  }

  /** A level after a merge, with what the merge counted. */
  datatype Written = Written(files: seq<EntryList>, plain: seq<Interval>, split: seq<Interval>,
                             dropped: nat, absorbed: nat, deleted: nat, splits: nat)

  /** Links the files that m was cut into into a level with files, in place of those they overlap. */
  method SpliceIn(files: seq<EntryList>, added: seq<EntryList>, m: EntryList, ghost splits: nat)
    returns (spliced: seq<EntryList>, ghost from: nat, ghost to: nat)
    requires Chain(files) && files != [] && GoodFile(m) && Holds(added, m, splits)
    ensures from <= to <= |files| && Stretch(Spans(files), from, to, m.MinKey(), m.MaxKey())
    ensures spliced == files[..from] + added + files[to..]
  {
    SpansOf(files);
    SstKeys(m);
    HoldsKeys(added, m, splits);
    SstKeys(added[0]);
    spliced, from, to := Splice(files, Spans(files), added, m.MinKey(), m.MaxKey());
  }

  /** Cuts m into files and links them into the level in place of those they overlap. */
  method CompactAndFlush(files: seq<EntryList>, m: EntryList, z: Sizes)
    returns (r: Option<seq<EntryList>>, ghost added: seq<EntryList>, ghost from: nat, ghost to: nat, splits: nat)
    requires Chain(files) && GoodFile(m) && z.Ok()
    ensures r.Some? <==> Cuttable(m, z)
    ensures Bytes(1, |m.ranges|, z) <= z.file ==> r.Some?
    ensures r.Some? ==>
              && from <= to <= |files| && Stretch(Spans(files), from, to, m.MinKey(), m.MaxKey())
              && Holds(added, m, splits) && added == FilesOf(m, z) && r.value == files[..from] + added + files[to..]
              && forall f :: f in added ==> Bytes(|f.points|, |f.ranges|, z) <= z.file
  {
    from, to := 0, 0;
    r, splits := CutFiles(m, z);
    added := if r.Some? then r.value else [];
    if r.None? {
      return;
    }
    if files == [] {
      assert r.value == files[..0] + r.value + files[0..];
    } else {
      var spliced;
      spliced, from, to := SpliceIn(files, r.value, m, splits);
      r := Some(spliced);
    }
  }

  /** Merges e over the entries of the files it overlaps; a level without files leaves e as it is. */
  method GatherAndMerge(e: EntryList, files: seq<EntryList>)
    returns (m: EntryList, ghost from: nat, ghost to: nat, dropped: nat, absorbed: nat, deleted: nat)
    requires GoodFile(e) && Chain(files)
    ensures from <= to <= |files|
    ensures GoodFile(m) && MergedOver(m, e, Flat(files[from..to]))
    ensures Stretch(Spans(files), from, to, m.MinKey(), m.MaxKey()) && Stretch(Spans(files), from, to, e.MinKey(), e.MaxKey())
    ensures deleted == CoveredCount(e.ranges, Flat(files[from..to]).points) == CoveredCount(e.ranges, Flat(files).points)
    ensures |m.points| + dropped + deleted == |e.points| + |Flat(files[from..to]).points|
    ensures |m.ranges| + absorbed == |e.ranges| + |Flat(files[from..to]).ranges|
  {
    SpansOf(files);
    SstKeys(e);
    if files == [] {
      m, from, to, dropped, absorbed, deleted := e, 0, 0, 0, 0, 0;
    } else {
      var x;
      x, from, to := Overlapping(files, Spans(files), e.MinKey(), e.MaxKey());
      SliceChain(files, from, to);
      FlatOfChain(files[from..to]);
      DisjointIsAscending(e.ranges);
      DisjointIsAscending(x.ranges);
      var older;
      older, deleted := ApplyRanges(e.ranges, x.points);
      var points, ranges;
      points, dropped := MergePoints(e.points, older);
      ranges, absorbed := MergeRanges(e.ranges, x.ranges);
      ApartIsDisjoint(ranges);
      m := EntryList(points, ranges);
      StretchKept(files, Spans(files), from, to, e, m);
    }
    CoveredInside(files, from, to, e);
  }

  /** Adds the tombstones of m to both filters and takes the points of m out of the split one. */
  method UpdateFilters(plain: seq<Interval>, split: seq<Interval>, m: EntryList, twice: bool)
    returns (plain': seq<Interval>, split': seq<Interval>)
    requires Apart(plain) && Apart(split) && m.Tidy()
    ensures Apart(plain') && Apart(split')
    ensures forall k :: Covers(plain', k) <==> Covers(plain, k) || Covers(m.ranges, k)
    ensures forall k :: Covers(split', k) <==> (Covers(split, k) || Covers(m.ranges, k)) && !HasKey(m.points, k)
  {
    ApartIsDisjoint(plain);
    ApartIsDisjoint(split);
    DisjointIsAscending(plain);
    DisjointIsAscending(split);
    DisjointIsAscending(m.ranges);
    var n;
    plain', n := MergeRanges(plain, m.ranges);
    split', n := MergeRanges(split, m.ranges);
    split' := SplitByPoints(split', m.points);
    if twice {
      split' := SplitByPoints(split', m.points);
    }
  }

  /** What writing e into a level achieves. */
  ghost predicate WrittenOk(w: Written, e: EntryList, files: seq<EntryList>) {
    && (w.files == [] <==> files == [] && e.Empty())
    && LevelOk(w.files, w.plain, w.split)
    && (forall k :: VerdictOf(Flat(w.files), k) == Under(VerdictOf(e, k), VerdictOf(Flat(files), k)))
    && |Flat(w.files).points| + w.dropped + w.deleted == |Flat(files).points| + |e.points|
    && |Flat(w.files).ranges| + w.absorbed == |Flat(files).ranges| + |e.ranges| + w.splits
  }

  /** All keys of e lie behind f, or all before it. */
  ghost predicate Clear(f: EntryList, e: EntryList) {
    (forall k :: Mentions(e, k) ==> f.MaxKey() < k) || (forall k :: Mentions(e, k) ==> k < f.MinKey())
  }

  predicate FileFits(f: EntryList, z: Sizes) {
    Bytes(|f.points|, |f.ranges|, z) <= z.file
  }

  /** Writing e into a level leaves the files it is clear of, adds files that fit, and deletes as many points as
      the tombstones of e cover. */
  ghost predicate WrittenNear(w: Written, e: EntryList, files: seq<EntryList>, z: Sizes) {
    && (forall f :: f in files && Clear(f, e) ==> f in w.files)
    && (forall f :: f in w.files ==> f in files || FileFits(f, z))
    && w.deleted == CoveredCount(e.ranges, Flat(files).points)
  }

  lemma StretchClear(files: seq<EntryList>, from: nat, to: nat, e: EntryList, n: nat)
    requires Chain(files) && GoodFile(e) && n < |files| && Stretch(Spans(files), from, to, e.MinKey(), e.MaxKey())
    ensures Clear(files[n], e) ==> !(from <= n < to)
  {
    SpansOf(files);
    MentionsEnds(e);
  }

  lemma ClearStay(files: seq<EntryList>, from: nat, to: nat, e: EntryList, files': seq<EntryList>)
    requires Chain(files) && GoodFile(e) && Stretch(Spans(files), from, to, e.MinKey(), e.MaxKey())
    requires forall n :: 0 <= n < |files| && !(from <= n < to) ==> files[n] in files'
    ensures forall f :: f in files && Clear(f, e) ==> f in files'
  {
    forall f | f in files && Clear(f, e) ensures f in files' {
      var n :| 0 <= n < |files| && files[n] == f;
      StretchClear(files, from, to, e, n);
    }
  }

  lemma CoveredThree(ranges: seq<Interval>, front: seq<EntryList>, mid: seq<EntryList>, back: seq<EntryList>)
    ensures CoveredCount(ranges, Flat(front + mid + back).points) ==
            CoveredCount(ranges, Flat(front).points) + CoveredCount(ranges, Flat(mid).points) + CoveredCount(ranges, Flat(back).points)
  {
    FlatThree(front, mid, back);
    CoveredConcat(ranges, Flat(front).points + Flat(mid).points, Flat(back).points);
    CoveredConcat(ranges, Flat(front).points, Flat(mid).points);
  }

  /** No tombstone of e covers a point of a file outside the stretch. */
  lemma CoveredInside(files: seq<EntryList>, from: nat, to: nat, e: EntryList)
    requires Chain(files) && GoodFile(e) && from <= to <= |files| && Stretch(Spans(files), from, to, e.MinKey(), e.MaxKey())
    ensures CoveredCount(e.ranges, Flat(files).points) == CoveredCount(e.ranges, Flat(files[from..to]).points)
  {
    ThreeSlices(files, from, to);
    CoveredThree(e.ranges, files[..from], files[from..to], files[to..]);
    OutsideSlices(files, from, to, e);
  }

  predicate Misses(f: EntryList, e: EntryList) {
    GoodFile(f) && (f.MaxKey() < e.MinKey() || e.MaxKey() < f.MinKey())
  }

  lemma OutsideSlices(files: seq<EntryList>, from: nat, to: nat, e: EntryList)
    requires Chain(files) && GoodFile(e) && from <= to <= |files| && Stretch(Spans(files), from, to, e.MinKey(), e.MaxKey())
    ensures CoveredCount(e.ranges, Flat(files[..from]).points) == 0 && CoveredCount(e.ranges, Flat(files[to..]).points) == 0
  {
    forall n | 0 <= n < |files| && !(from <= n < to) ensures Misses(files[n], e) {
      SpansOf(files);
      ChainOrder(files);
    }
    Outside(files[..from], e);
    Outside(files[to..], e);
  }

  lemma {:induction false} Outside(files: seq<EntryList>, e: EntryList)
    requires GoodFile(e) && forall n :: 0 <= n < |files| ==> Misses(files[n], e)
    ensures CoveredCount(e.ranges, Flat(files).points) == 0
  {
    if files != [] {
      Outside(files[1..], e);
      CoveredConcat(e.ranges, files[0].points, Flat(files[1..]).points);
      OutsideOne(files[0], e);
    }
  }

  lemma OutsideOne(f: EntryList, e: EntryList)
    requires GoodFile(e) && Misses(f, e)
    ensures CoveredCount(e.ranges, f.points) == 0
  {
    forall k | HasKey(f.points, k) ensures !Covers(e.ranges, k) {
      MentionsWithin(f, k);
      if Covers(e.ranges, k) {
        MentionsWithin(e, k);
      }
    }
    CoveredNone(e.ranges, f.points);
  }

  /** The size check before writing into an empty level. */
  predicate TileMismatch(points: nat, tile: nat)
    requires tile >= 1
  {
    points % tile != 0 && points / tile < 1
  }

  lemma TileMismatchWhen(points: nat, tile: nat)
    requires tile >= 1
    ensures TileMismatch(points, tile) <==> 0 < points < tile
  {}

  /** Writes the sorted list e into a level. */
  method WriteLevel(e: EntryList, files: seq<EntryList>, plain: seq<Interval>, split: seq<Interval>, env: Env)
    returns (r: Outcome<Written>)
    requires GoodFile(e) && LevelOk(files, plain, split) && env.Valid()
    ensures r == Exit(TileRelation) <==> files == [] && 0 < |e.points| < env.tile
    ensures r != Exit(NoSuchLevel)
    ensures r == Exit(CutUnderflow) ==> env.sizes.file < Bytes(1, |e.ranges| + |Flat(files).ranges|, env.sizes)
    ensures r.Ok? ==> WrittenOk(r.value, e, files) && WrittenNear(r.value, e, files, env.sizes)
  {
    TileMismatchWhen(|e.points|, env.tile);
    if files == [] && TileMismatch(|e.points|, env.tile) {
      return Exit(TileRelation);
    }
    var m, from, to, dropped, absorbed, deleted := GatherAndMerge(e, files);
    r := WriteMerged(e, m, files, plain, split, from, to, env.sizes, dropped, absorbed, deleted);
  }

  /** Writes what merging e over the files from one on up to another has given. */
  method WriteMerged(ghost e: EntryList, m: EntryList, files: seq<EntryList>, plain: seq<Interval>, split: seq<Interval>,
                     ghost from: nat, ghost to: nat, z: Sizes, dropped: nat, absorbed: nat, deleted: nat)
    returns (r: Outcome<Written>)
    requires LevelOk(files, plain, split) && from <= to <= |files| && z.Ok()
    requires GoodFile(e) && Stretch(Spans(files), from, to, e.MinKey(), e.MaxKey())
    requires GoodFile(m) && MergedOver(m, e, Flat(files[from..to])) && Stretch(Spans(files), from, to, m.MinKey(), m.MaxKey())
    requires deleted == CoveredCount(e.ranges, Flat(files).points)
    requires |m.points| + dropped + deleted == |e.points| + |Flat(files[from..to]).points|
    requires |m.ranges| + absorbed == |e.ranges| + |Flat(files[from..to]).ranges|
    ensures r == Exit(CutUnderflow) || r.Ok?
    ensures r == Exit(CutUnderflow) <==> !Cuttable(m, z)
    ensures r == Exit(CutUnderflow) ==> z.file < Bytes(1, |e.ranges| + |Flat(files).ranges|, z)
    ensures r.Ok? ==> WrittenOk(r.value, e, files) && WrittenNear(r.value, e, files, z)
  {
    var flushed, plain', split', splits := FlushMerged(e, m, files, plain, split, from, to, z);
    FlatPart(files, from, to);
    if flushed.None? {
      TimesMonotone(|m.ranges|, |e.ranges| + |Flat(files).ranges|, z.range);
      return Exit(CutUnderflow);
    }
    r := Ok(Written(flushed.value, plain', split', dropped, absorbed, deleted, splits));
  }

  /** Writes the merged list m into its level and both filters. */
  method FlushMerged(ghost e: EntryList, m: EntryList, files: seq<EntryList>, plain: seq<Interval>, split: seq<Interval>,
                     ghost from: nat, ghost to: nat, z: Sizes)
    returns (flushed: Option<seq<EntryList>>, plain': seq<Interval>, split': seq<Interval>, splits: nat)
    requires LevelOk(files, plain, split) && from <= to <= |files| && z.Ok()
    requires GoodFile(e) && Stretch(Spans(files), from, to, e.MinKey(), e.MaxKey())
    requires GoodFile(m) && MergedOver(m, e, Flat(files[from..to])) && Stretch(Spans(files), from, to, m.MinKey(), m.MaxKey())
    ensures flushed.Some? <==> Cuttable(m, z)
    ensures Bytes(1, |m.ranges|, z) <= z.file ==> flushed.Some?
    ensures flushed.Some? ==> forall f :: f in files && Clear(f, e) ==> f in flushed.value
    ensures flushed.Some? ==> forall f :: f in flushed.value ==> f in files || FileFits(f, z)
    ensures flushed.Some? ==>
              && flushed.value != []
              && LevelOk(flushed.value, plain', split')
              && (forall k :: VerdictOf(Flat(flushed.value), k) == Under(VerdictOf(e, k), VerdictOf(Flat(files), k)))
              && |Flat(flushed.value).points| + |Flat(files[from..to]).points| == |Flat(files).points| + |m.points|
              && |Flat(flushed.value).ranges| + |Flat(files[from..to]).ranges| == |Flat(files).ranges| + |m.ranges| + splits
  {
    plain', split' := UpdateFilters(plain, split, m, files != []);
    SortRangesKeeps(m.ranges, true);
    ghost var added, from', to';
    flushed, added, from', to', splits := CompactAndFlush(files, EntryList(m.points, SortRanges(m.ranges, true)), z);
    if flushed.Some? {
      SameStretch(files, from, to, from', to', m);
      WrittenLevel(files, from, to, added, e, m, splits, plain, split, plain', split');
      OthersStay(files, from, to, added);
      ClearStay(files, from, to, e, flushed.value);
    }
  }

  lemma OthersStay(files: seq<EntryList>, from: nat, to: nat, added: seq<EntryList>)
    requires from <= to <= |files|
    ensures var files' := files[..from] + added + files[to..];
            && (forall n :: 0 <= n < |files| && !(from <= n < to) ==> files[n] in files')
            && (forall f :: f in files' ==> f in files || f in added)
  {
    var files' := files[..from] + added + files[to..];
    forall n | 0 <= n < |files| && !(from <= n < to) ensures files[n] in files' {
      if n < from {
        assert files'[n] == files[n];
      } else {
        assert files'[n - to + from + |added|] == files[n];
      }
    }
  }

  lemma FlatPart(files: seq<EntryList>, from: nat, to: nat)
    requires from <= to <= |files|
    ensures |Flat(files[from..to]).ranges| <= |Flat(files).ranges|
  {
    ThreeSlices(files, from, to);
    FlatThree(files[..from], files[from..to], files[to..]);
  }

  lemma SameStretch(files: seq<EntryList>, from: nat, to: nat, from': nat, to': nat, m: EntryList)
    requires Chain(files) && GoodFile(m)
    requires Stretch(Spans(files), from, to, m.MinKey(), m.MaxKey())
    requires Stretch(Spans(files), from', to', m.MinKey(), m.MaxKey())
    ensures from == from' && to == to'
  {
    SpansOf(files);
    SstKeys(m);
    StretchUnique(Spans(files), from, to, from', to', m.MinKey(), m.MaxKey());
  }

  lemma WrittenLevel(files: seq<EntryList>, from: nat, to: nat, added: seq<EntryList>, e: EntryList, m: EntryList, splits: nat,
                     plain: seq<Interval>, split: seq<Interval>, plain': seq<Interval>, split': seq<Interval>)
    requires LevelOk(files, plain, split) && from <= to <= |files| && Apart(plain') && Apart(split')
    requires GoodFile(m) && MergedOver(m, e, Flat(files[from..to])) && Holds(added, m, splits)
    requires Stretch(Spans(files), from, to, m.MinKey(), m.MaxKey())
    requires forall k :: Covers(plain', k) <==> Covers(plain, k) || Covers(m.ranges, k)
    requires forall k :: Covers(split', k) <==> (Covers(split, k) || Covers(m.ranges, k)) && !HasKey(m.points, k)
    ensures var files' := files[..from] + added + files[to..];
            && files' != []
            && LevelOk(files', plain', split')
            && (forall k :: VerdictOf(Flat(files'), k) == Under(VerdictOf(e, k), VerdictOf(Flat(files), k)))
            && |Flat(files').points| + |Flat(files[from..to]).points| == |Flat(files).points| + |m.points|
            && |Flat(files').ranges| + |Flat(files[from..to]).ranges| == |Flat(files).ranges| + |m.ranges| + splits
  {
    var front, mid, back := files[..from], files[from..to], files[to..];
    ThreeSlices(files, from, to);
    SpansOf(files);
    HoldsKeys(added, m, splits);
    MergedIntoLevel(front, mid, back, added, e, m, splits, plain, split, plain', split');
    MergedCounts(front, mid, back, added, m, splits);
  }
}
