/**
 The LSM tree on disk: 31 levels with their filters, and the cascade that pushes files down until no level
 is saturated (`sortAndWrite_RDF`, `checkAndAdjustLevelSaturation_RDF`).
 */
module Tree {
  import opened Entries
  import opened EntryLists
  import opened FileCut
  import opened Levels
  import opened Compaction
  import opened PerLevelFilter
  import opened Disk

  /** Size of the array of level heads; levels 1 to 31 are used. */
  const LEVELS: nat := 32

  /** Filter i of a filter vector; a filter that has not been created yet is empty. */
  function At(fs: seq<seq<Interval>>, i: nat): seq<Interval> {
    if i < |fs| then fs[i] else []
  }

  function Pow(base: nat, n: nat): nat {
    if n == 0 then 1 else base * Pow(base, n - 1)
  }

  /** A level with this many files is saturated. */
  function MaxFiles(env: Env, level: nat): nat {
    env.bufferSize * Pow(env.sizeRatio, level) / env.fileBytes
  }

  /** How often f goes into x. */
  lemma TwiceFits(x: nat, f: Positive)
    ensures x / f >= 2 <==> x >= 2 * f
  {
    assert x == f * (x / f) + x % f;
    if x / f >= 2 {
      assert f * (x / f) >= f * 2;
    } else {
      assert f * (x / f) <= f * 1;
    }
  }

  lemma GrowsBy(size: nat, ratio: Positive, power: nat)
    ensures size * (ratio * power) == (size * power) * ratio >= size * power
  {
    ProductGrows(size * power, ratio);
  }

  lemma ProductGrows(x: nat, ratio: Positive)
    ensures x * ratio >= x
  {
  }

  lemma {:induction false} LevelGrows(env: Env, level: nat)
    requires level >= 1
    ensures env.bufferSize * Pow(env.sizeRatio, level) >= env.bufferSize * env.sizeRatio
  {
    if level == 1 {
      assert Pow(env.sizeRatio, 1) == env.sizeRatio * Pow(env.sizeRatio, 0) == env.sizeRatio;
    } else {
      LevelGrows(env, level - 1);
      GrowsBy(env.bufferSize, env.sizeRatio, Pow(env.sizeRatio, level - 1));
    }
  }

  /** No level is saturated by a single file, if and only if the first one is not. */
  lemma MaxFilesAtLeastTwo(env: Env, level: nat)
    requires level >= 1
    ensures env.Roomy() ==> MaxFiles(env, level) >= 2
    ensures level == 1 && MaxFiles(env, level) >= 2 ==> env.Roomy()
  {
    LevelGrows(env, level);
    TwiceFits(env.bufferSize * Pow(env.sizeRatio, level), env.fileBytes);
    if level == 1 {
      assert Pow(env.sizeRatio, 1) == env.sizeRatio * Pow(env.sizeRatio, 0) == env.sizeRatio;
    }
  }

  lemma QuotientGrows(x: nat, ratio: Positive, f: Positive)
    ensures (x * ratio) / f >= ratio * (x / f)
  {
    var q := x / f;
    assert x == f * q + x % f;
    assert x * ratio == (f * q) * ratio + (x % f) * ratio;
    assert (f * q) * ratio == f * (ratio * q);
    ProductAtLeast(x * ratio, f, ratio * q);
  }

  lemma ProductAtLeast(x: nat, f: Positive, q: nat)
    requires x >= f * q
    ensures x / f >= q
  {
    assert x == f * (x / f) + x % f;
    ProductOrder(x / f + 1, q, f);
  }

  lemma ProductOrder(a: nat, b: nat, f: Positive)
    ensures a <= b ==> f * a <= f * b
  {
  }

  /** From level to level the limit grows at least by the size ratio. */
  lemma MaxFilesGrow(env: Env, level: nat)
    ensures MaxFiles(env, level + 1) >= env.sizeRatio * MaxFiles(env, level)
  {
    var power := Pow(env.sizeRatio, level);
    GrowsBy(env.bufferSize, env.sizeRatio, power);
    QuotientGrows(env.bufferSize * power, env.sizeRatio, env.fileBytes);
  }

  /** From level i down: the files of a level are in order, both filters agree with them, and no
      empty level lies above a level with files. */
  ghost predicate OkFrom(levels: seq<seq<EntryList>>, plain: seq<seq<Interval>>, split: seq<seq<Interval>>, i: nat)
    decreases |levels| - i
  {
    i < |levels| ==>
      && LevelOk(levels[i], At(plain, i), At(split, i))
      && (levels[i] != [] ==> i < |plain|)
      && (i + 1 < |levels| && levels[i + 1] != [] ==> levels[i] != [])
      && OkFrom(levels, plain, split, i + 1)
  }

  /** From level i down, no level holds as many files as would make it saturated. */
  predicate Limited(levels: seq<seq<EntryList>>, env: Env, i: nat)
    decreases |levels| - i
  {
    i < |levels| ==> |levels[i]| < MaxFiles(env, i) && Limited(levels, env, i + 1)
  }

  /** What levels i, i + 1, ... say about k: the first of them that says anything decides. */
  function MeaningFrom(levels: seq<seq<EntryList>>, i: nat, k: int): Verdict
    decreases |levels| - i
  {
    if i >= |levels| then Absent
    else Under(VerdictOf(Flat(levels[i]), k), MeaningFrom(levels, i + 1, k))
  }

  function PointsFrom(levels: seq<seq<EntryList>>, i: nat): nat
    decreases |levels| - i
  {
    if i >= |levels| then 0 else |Flat(levels[i]).points| + PointsFrom(levels, i + 1)
  }

  function RangesFrom(levels: seq<seq<EntryList>>, i: nat): nat
    decreases |levels| - i
  {
    if i >= |levels| then 0 else |Flat(levels[i]).ranges| + RangesFrom(levels, i + 1)
  }

  /** Some level from i down stores a point of k, hidden or not. */
  predicate StoredFrom(levels: seq<seq<EntryList>>, i: nat, k: int)
    decreases |levels| - i
  {
    i < |levels| && (VerdictOf(Flat(levels[i]), k).Live? || StoredFrom(levels, i + 1, k))
  }

  /** The deeper levels do not depend on the levels above. */
  lemma {:induction false} FromSame(a: seq<seq<EntryList>>, b: seq<seq<EntryList>>, i: nat)
    requires |a| == |b| && i <= |a| && a[i..] == b[i..]
    ensures forall k :: MeaningFrom(a, i, k) == MeaningFrom(b, i, k) && StoredFrom(a, i, k) == StoredFrom(b, i, k)
    ensures PointsFrom(a, i) == PointsFrom(b, i) && RangesFrom(a, i) == RangesFrom(b, i)
    decreases |a| - i
  {
    if i < |a| {
      assert a[i..][0] == b[i..][0];
      assert a[i + 1..] == a[i..][1..] && b[i + 1..] == b[i..][1..];
      assert a[i] == b[i];
      FromSame(a, b, i + 1);
      forall k ensures MeaningFrom(a, i, k) == MeaningFrom(b, i, k) && StoredFrom(a, i, k) == StoredFrom(b, i, k) {
        assert MeaningFrom(a, i + 1, k) == MeaningFrom(b, i + 1, k) && StoredFrom(a, i + 1, k) == StoredFrom(b, i + 1, k);
      }
    }
  }

  /** How many files of the next level overlap f, judged by point keys. */
  function OverlapCount(f: EntryList, next: seq<EntryList>): nat {
    if next == [] then 0
    else
      (if MaxSortKey(next[0]) <= MinSortKey(f) || MinSortKey(next[0]) >= MaxSortKey(f) then 0 else 1)
      + OverlapCount(f, next[1..])
  }

  /** The files of the next level, from one on, that reach over the smallest point key of f and start below its
      largest. */
  ghost function Overlaps(f: EntryList, next: seq<EntryList>, from: nat): set<int> {
    set n | from <= n < |next| && MaxSortKey(next[n]) > MinSortKey(f) && MinSortKey(next[n]) < MaxSortKey(f)
  }

  lemma {:induction false} OverlapCountFrom(f: EntryList, next: seq<EntryList>, from: nat)
    requires from <= |next|
    ensures OverlapCount(f, next[from..]) == |Overlaps(f, next, from)|
    decreases |next| - from
  {
    if from < |next| {
      OverlapCountFrom(f, next, from + 1);
      assert next[from..][1..] == next[from + 1..];
      var here := if from in Overlaps(f, next, from) then {from} else {};
      assert Overlaps(f, next, from) == here + Overlaps(f, next, from + 1);
    }
  }

  /** OverlapCount counts the files of the next level whose point keys overlap those of f. */
  lemma OverlapCountIs(f: EntryList, next: seq<EntryList>)
    ensures OverlapCount(f, next) == |Overlaps(f, next, 0)|
  {
    OverlapCountFrom(f, next, 0);
    assert next[0..] == next;
  }

  /** File n is the first with the fewest overlaps in the next level. */
  predicate Chosen(files: seq<EntryList>, next: seq<EntryList>, n: nat)
    requires n < |files|
  {
    && (forall m :: 0 <= m < |files| ==> OverlapCount(files[n], next) <= OverlapCount(files[m], next))
    && (forall m :: 0 <= m < n ==> OverlapCount(files[n], next) < OverlapCount(files[m], next))
  }

  method MinOverlapFile(files: seq<EntryList>, next: seq<EntryList>) returns (n: nat)
    requires files != []
    ensures n < |files| && Chosen(files, next, n)
  {
    n := 0;
    var least := OverlapCount(files[0], next);
    for i := 1 to |files|
      invariant 0 <= n < |files| && n < i && least == OverlapCount(files[n], next)
      invariant forall m :: 0 <= m < i ==> least <= OverlapCount(files[m], next)
      invariant forall m :: 0 <= m < n ==> least < OverlapCount(files[m], next)
    {
      var overlap := OverlapCount(files[i], next);
      if overlap < least {
        n, least := i, overlap;
      }
    }
  }

  /** The tree with its filters and the counters of the merges. */
  datatype State = State(levels: seq<seq<EntryList>>, plain: seq<seq<Interval>>, split: seq<seq<Interval>>,
                         mergedPoints: nat, mergedRanges: nat, deletedPoints: nat, splits: nat) {

    ghost predicate Ok(from: nat) {
      |levels| == LEVELS && |plain| == |split| && 1 <= |plain| <= LEVELS && OkFrom(levels, plain, split, from)
    }
  }

  /** What holds from a level down does not depend on the levels above. */
  lemma {:induction false} OkSame(s: State, u: State, i: nat)
    requires |s.levels| == |u.levels| && i <= |s.levels| && |s.plain| <= |u.plain| && s.levels[i..] == u.levels[i..]
    requires forall j :: i <= j ==> At(u.plain, j) == At(s.plain, j) && At(u.split, j) == At(s.split, j)
    requires OkFrom(s.levels, s.plain, s.split, i)
    ensures OkFrom(u.levels, u.plain, u.split, i)
    decreases |s.levels| - i
  {
    if i < |s.levels| {
      assert s.levels[i..][0] == u.levels[i..][0];
      assert s.levels[i + 1..] == s.levels[i..][1..] && u.levels[i + 1..] == u.levels[i..][1..];
      assert i + 1 < |s.levels| ==> s.levels[i..][1] == u.levels[i..][1];
      OkSame(s, u, i + 1);
    }
  }

  lemma {:induction false} LimitedSame(a: seq<seq<EntryList>>, b: seq<seq<EntryList>>, env: Env, i: nat)
    requires |a| == |b| && i <= |a| && a[i..] == b[i..] && Limited(a, env, i)
    ensures Limited(b, env, i)
    decreases |a| - i
  {
    if i < |a| {
      assert a[i..][0] == b[i..][0];
      assert a[i + 1..] == a[i..][1..] && b[i + 1..] == b[i..][1..];
      LimitedSame(a, b, env, i + 1);
    }
  }

  lemma {:induction false} EmptyOk(levels: seq<seq<EntryList>>, env: Env, i: nat)
    requires env.Valid() && i >= 1 && forall j :: 0 <= j < |levels| ==> levels[j] == []
    ensures OkFrom(levels, [[]], [[]], i) && Limited(levels, env, i)
    decreases |levels| - i
  {
    if i < |levels| {
      EmptyOk(levels, env, i + 1);
      MaxFilesAtLeastTwo(env, i);
    }
  }

  /** Nothing above a level has changed: neither the files nor the filters. */
  ghost predicate SameAbove(s: State, t: State, level: nat)
    requires |s.levels| == |t.levels| == LEVELS && level <= LEVELS
  {
    && t.levels[..level] == s.levels[..level]
    && |s.plain| <= |t.plain|
    && forall i :: 0 <= i < level ==> At(t.plain, i) == At(s.plain, i) && At(t.split, i) == At(s.split, i)
  }

  /** From a level down: points and range entries are accounted for, with extra ones added. */
  predicate Balanced(s: State, t: State, level: nat, points: nat, ranges: nat) {
    && s.mergedRanges <= t.mergedRanges && s.splits <= t.splits
    && PointsFrom(t.levels, level) + t.mergedPoints + t.deletedPoints ==
       PointsFrom(s.levels, level) + s.mergedPoints + s.deletedPoints + points
    && RangesFrom(t.levels, level) + t.mergedRanges + s.splits ==
       RangesFrom(s.levels, level) + s.mergedRanges + t.splits + ranges
  }

  /** From a level down, b says about k what a says, and stores no point of k that a does not. */
  predicate SameKey(a: seq<seq<EntryList>>, b: seq<seq<EntryList>>, level: nat, k: int) {
    && MeaningFrom(b, level, k) == MeaningFrom(a, level, k)
    && (StoredFrom(b, level, k) ==> StoredFrom(a, level, k))
  }

  /** From a level down, b says about k what e says over a. */
  predicate WroteKey(a: seq<seq<EntryList>>, b: seq<seq<EntryList>>, e: EntryList, level: nat, k: int) {
    && MeaningFrom(b, level, k) == Under(VerdictOf(e, k), MeaningFrom(a, level, k))
    && (StoredFrom(b, level, k) ==> StoredFrom(a, level, k) || VerdictOf(e, k).Live?)
  }

  /** What checkAndAdjustLevelSaturation_RDF(level) achieves. */
  ghost predicate Adjusted(s: State, t: State, env: Env, level: nat)
    requires |s.levels| == LEVELS && level < LEVELS
  {
    && t.Ok(level) && Limited(t.levels, env, level)
    && SameAbove(s, t, level)
    && (t.levels[level] == [] <==> s.levels[level] == [])
    && (forall k :: SameKey(s.levels, t.levels, level, k))
    && Balanced(s, t, level, 0, 0)
  }

  /** What sortAndWrite_RDF(e, level) achieves; the levels from limit down are below their file limit. */
  ghost predicate WroteInto(s: State, t: State, env: Env, e: EntryList, level: nat, limit: nat)
    requires |s.levels| == LEVELS && 1 <= level < LEVELS
  {
    && t.Ok(level) && Limited(t.levels, env, limit)
    && t.levels[..level] == s.levels[..level]
    && SameAbove(s, t, level - 1)
    && (if level > 1 then TakenOut(s, t, e.ranges, level - 1) else At(t.plain, 0) == At(s.plain, 0) && At(t.split, 0) == At(s.split, 0))
    && (t.levels[level] == [] <==> s.levels[level] == [] && e.Empty())
    && (forall k :: WroteKey(s.levels, t.levels, e, level, k))
    && Balanced(s, t, level, |e.points|, |e.ranges|)
  }

  /** What writing e into a level leaves alone: the levels below, and in the level itself the files e is clear of;
      new files fit, and the points that the tombstones of e cover are counted as deleted. */
  ghost predicate WroteHere(s: State, u: State, env: Env, e: EntryList, level: nat)
    requires |s.levels| == |u.levels| == LEVELS && level < LEVELS
  {
    && u.levels[level + 1..] == s.levels[level + 1..]
    && (forall i :: level < i ==> At(u.plain, i) == At(s.plain, i) && At(u.split, i) == At(s.split, i))
    && (forall f :: f in s.levels[level] && Clear(f, e) ==> f in u.levels[level])
    && (forall f :: f in u.levels[level] ==> f in s.levels[level] || FileFits(f, env.sizes))
    && u.deletedPoints == s.deletedPoints + CoveredCount(e.ranges, Flat(s.levels[level]).points)
  }

  /** A level below its file limit is left alone, and a saturated one loses just the files beyond it. */
  ghost predicate Drained(s: State, t: State, env: Env, level: nat)
    requires |s.levels| == |t.levels| == LEVELS && level < LEVELS
  {
    var limit := MaxFiles(env, level);
    if |s.levels[level]| < limit then t == s
    else |t.levels[level]| == limit - 1 && forall f :: f in t.levels[level] ==> f in s.levels[level]
  }

  lemma DrainedMore(s: State, n: nat, v: State, t: State, env: Env, level: nat)
    requires |s.levels| == |v.levels| == |t.levels| == LEVELS && level < LEVELS && n < |s.levels[level]|
    requires |s.levels[level]| >= MaxFiles(env, level) && v.levels[level] == Without(s.levels[level], n) && Drained(v, t, env, level)
    ensures Drained(s, t, env, level)
  {
    assert forall f :: f in v.levels[level] ==> f in s.levels[level];
  }

  /** From level i down every file is within the file size. */
  predicate Sized(levels: seq<seq<EntryList>>, z: Sizes, i: nat)
    decreases |levels| - i
  {
    i < |levels| ==> AllFit(levels[i], z) && Sized(levels, z, i + 1)
  }

  predicate AllFit(files: seq<EntryList>, z: Sizes) {
    forall f :: f in files ==> FileFits(f, z)
  }

  lemma {:induction false} SizedSame(a: seq<seq<EntryList>>, b: seq<seq<EntryList>>, z: Sizes, i: nat)
    requires |a| == |b| && i <= |a| && a[i..] == b[i..] && Sized(a, z, i)
    ensures Sized(b, z, i)
    decreases |a| - i
  {
    if i < |a| {
      assert a[i..][0] == b[i..][0];
      assert a[i + 1..] == a[i..][1..] && b[i + 1..] == b[i..][1..];
      SizedSame(a, b, z, i + 1);
    }
  }

  lemma {:induction false} SizedEmpty(levels: seq<seq<EntryList>>, z: Sizes, i: nat)
    requires forall j :: 0 <= j < |levels| ==> levels[j] == []
    ensures Sized(levels, z, i)
    decreases |levels| - i
  {
    if i < |levels| {
      SizedEmpty(levels, z, i + 1);
    }
  }

  lemma SizedWrote(s: State, u: State, env: Env, e: EntryList, level: nat)
    requires |s.levels| == |u.levels| == LEVELS && level < LEVELS && WroteHere(s, u, env, e, level) && Sized(s.levels, env.sizes, level)
    ensures Sized(u.levels, env.sizes, level)
  {
    SizedSame(s.levels, u.levels, env.sizes, level + 1);
  }

  /** The filters of a level have lost exactly the keys of rs. */
  ghost predicate TakenOut(s: State, t: State, rs: seq<Interval>, level: nat) {
    Cleared(At(s.plain, level), At(t.plain, level), rs) && Cleared(At(s.split, level), At(t.split, level), rs)
  }

  /** A level without its file n. */
  function Without(files: seq<EntryList>, n: nat): seq<EntryList>
    requires n < |files|
  {
    files[..n] + files[n + 1..]
  }

  /** The tree with file n of a level unlinked. */
  function Unlinked(s: State, level: nat, n: nat): State
    requires level < |s.levels| && n < |s.levels[level]|
  {
    s.(levels := s.levels[level := Without(s.levels[level], n)])
  }

  /** Pushing file n of a saturated level into the next one and adjusting again. */
  lemma PushedDown(s: State, n: nat, v: State, t: State, env: Env, level: nat)
    requires s.Ok(level) && 1 <= level < LEVELS - 1 && n < |s.levels[level]| && 2 <= |s.levels[level]|
    requires WroteInto(Unlinked(s, level, n), v, env, s.levels[level][n], level + 1, level + 1)
    requires Adjusted(v, t, env, level)
    ensures Adjusted(s, t, env, level)
  {
    PushedShape(s, n, v, level);
    PushedFiles(s.levels[level], n, At(s.plain, level), At(s.split, level), At(v.plain, level), At(v.split, level));
    forall k ensures SameKey(s.levels, t.levels, level, k) {
      assert SameKey(v.levels, t.levels, level, k);
      assert WroteKey(Unlinked(s, level, n).levels, v.levels, s.levels[level][n], level + 1, k);
      PushedKey(s, n, v, level, k);
    }
    PushedCounts(s, n, v, level);
  }

  lemma PushedShape(s: State, n: nat, v: State, level: nat)
    requires |s.levels| == |v.levels| == LEVELS && 1 <= level < LEVELS && n < |s.levels[level]|
    requires var u := Unlinked(s, level, n); SameAbove(u, v, level) && v.levels[..level + 1] == u.levels[..level + 1]
    ensures v.levels[level] == Without(s.levels[level], n) && SameAbove(s, v, level)
  {
    var u := Unlinked(s, level, n);
    assert v.levels[level] == v.levels[..level + 1][level] == u.levels[..level + 1][level];
    assert v.levels[..level] == v.levels[..level + 1][..level] == u.levels[..level + 1][..level] == s.levels[..level];
  }

  lemma SplitAt(files: seq<EntryList>, n: nat)
    requires n < |files|
    ensures files == files[..n] + [files[n]] + files[n + 1..]
  {
  }

  /** What pushing a file leaves in its level. */
  lemma PushedFiles(files: seq<EntryList>, n: nat, plain: seq<Interval>, split: seq<Interval>, plain': seq<Interval>, split': seq<Interval>)
    requires LevelOk(files, plain, split) && n < |files|
    requires Cleared(plain, plain', files[n].ranges) && Cleared(split, split', files[n].ranges)
    ensures LevelOk(Without(files, n), plain', split')
    ensures forall k :: VerdictOf(Flat(files), k) == Under(VerdictOf(Flat(Without(files, n)), k), VerdictOf(files[n], k))
    ensures forall k :: VerdictOf(files[n], k).Live? ==> VerdictOf(Flat(files), k).Live?
  {
    SplitAt(files, n);
    FileRemoved(files[..n], files[n], files[n + 1..], plain, split, plain', split');
  }

  lemma PushedKey(s: State, n: nat, v: State, level: nat, k: int)
    requires |s.levels| == |v.levels| == LEVELS && 1 <= level < LEVELS && n < |s.levels[level]|
    requires v.levels[level] == Without(s.levels[level], n)
    requires var f := s.levels[level][n];
             && VerdictOf(Flat(s.levels[level]), k) == Under(VerdictOf(Flat(v.levels[level]), k), VerdictOf(f, k))
             && (VerdictOf(f, k).Live? ==> VerdictOf(Flat(s.levels[level]), k).Live?)
             && WroteKey(Unlinked(s, level, n).levels, v.levels, f, level + 1, k)
    ensures SameKey(s.levels, v.levels, level, k)
  {
    UnlinkedBelow(s, n, level, level + 1);
    assert MeaningFrom(s.levels, level, k) == Under(VerdictOf(Flat(s.levels[level]), k), MeaningFrom(s.levels, level + 1, k));
    assert MeaningFrom(v.levels, level, k) == Under(VerdictOf(Flat(v.levels[level]), k), MeaningFrom(v.levels, level + 1, k));
  }

  lemma UnlinkedBelow(s: State, n: nat, level: nat, below: nat)
    requires level < |s.levels| && n < |s.levels[level]| && below == level + 1
    ensures var u := Unlinked(s, level, n).levels;
            && (forall k :: MeaningFrom(u, below, k) == MeaningFrom(s.levels, below, k))
            && (forall k :: StoredFrom(u, below, k) == StoredFrom(s.levels, below, k))
            && PointsFrom(u, below) == PointsFrom(s.levels, below) && RangesFrom(u, below) == RangesFrom(s.levels, below)
  {
    var u := Unlinked(s, level, n);
    assert u.levels[below..] == s.levels[below..];
    FromSame(s.levels, u.levels, below);
  }

  lemma PushedCounts(s: State, n: nat, v: State, level: nat)
    requires |s.levels| == |v.levels| == LEVELS && 1 <= level < LEVELS && n < |s.levels[level]|
    requires v.levels[level] == Without(s.levels[level], n)
    requires Balanced(Unlinked(s, level, n), v, level + 1, |s.levels[level][n].points|, |s.levels[level][n].ranges|)
    ensures Balanced(s, v, level, 0, 0)
  {
    UnlinkedBelow(s, n, level, level + 1);
    RemovedCounts(s.levels[level], n);
  }

  lemma RemovedCounts(files: seq<EntryList>, n: nat)
    requires n < |files|
    ensures |Flat(files).points| == |Flat(Without(files, n)).points| + |files[n].points|
    ensures |Flat(files).ranges| == |Flat(Without(files, n)).ranges| + |files[n].ranges|
  {
    SplitAt(files, n);
    FlatThree(files[..n], [files[n]], files[n + 1..]);
    FlatConcat(files[..n], files[n + 1..]);
    FlatOne(files[n]);
  }

  // ---- Writing a list ----

  /** A filter vector with filter i set, growing by one if i is its size. */
  function Put(fs: seq<seq<Interval>>, i: nat, f: seq<Interval>): seq<seq<Interval>>
    requires i <= |fs|
  {
    if i < |fs| then fs[i := f] else fs + [f]
  }

  /** What the buffer hands down: any order, distinct keys; a file of a level is in order. */
  ghost predicate Incoming(e: EntryList, level: nat) {
    if level == 1 then DistinctKeys(e.points) && AllProper(e.ranges) && forall k :: Mentions(e, k) ==> k >= 0
    else GoodFile(e)
  }

  /** sorted says the same as e, with own tombstones fewer. */
  ghost predicate SameList(e: EntryList, sorted: EntryList, own: nat) {
    && (sorted.Empty() <==> e.Empty())
    && (forall k :: VerdictOf(sorted, k) == VerdictOf(e, k))
    && (forall k :: Covers(sorted.ranges, k) <==> Covers(e.ranges, k))
    && |sorted.points| == |e.points| && |sorted.ranges| + own == |e.ranges|
  }

  /** Sorts the list; on the way to level 1 also merges its tombstones. */
  method Sorted(e: EntryList, level: nat) returns (sorted: EntryList, own: nat)
    requires Incoming(e, level)
    ensures SameList(e, sorted, own) && (sorted.Empty() || GoodFile(sorted)) && sorted.Tidy()
    ensures level != 1 ==> sorted == e
  {
    var points, ranges := SortPoints(e.points), SortRanges(e.ranges, false);
    own := 0;
    if level == 1 {
      SortPointsSorts(e.points);
      SortRangesSorts(e.ranges);
      var merged;
      merged, own := MergeOwnRanges(ranges);
      ApartIsDisjoint(merged);
      EmptyAlike(merged, e.ranges);
      sorted := EntryList(points, merged);
      if !sorted.Empty() {
        MentionsEnds(sorted);
        assert Mentions(e, sorted.MinKey());
      }
    } else {
      SortPointsKeeps(e.points);
      SortRangesKeeps(e.ranges, false);
      sorted := EntryList(points, ranges);
    }
  }

  lemma EmptyAlike(a: seq<Interval>, b: seq<Interval>)
    requires a != [] ==> a[0].lo <= a[0].hi
    requires b != [] ==> b[0].lo <= b[0].hi
    requires forall k :: Covers(a, k) <==> Covers(b, k)
    ensures a == [] <==> b == []
  {
    assert a != [] ==> Covers(a, a[0].lo);
    assert b != [] ==> Covers(b, b[0].lo);
  }

  /** The filter g is the filter f without the keys of rs. */
  ghost predicate Cleared(f: seq<Interval>, g: seq<Interval>, rs: seq<Interval>) {
    Apart(g) && forall k :: Covers(g, k) <==> Covers(f, k) && !Covers(rs, k)
  }

  /** p is the filter vector fs, with the keys of ranges taken out of the filter above level. */
  ghost predicate Lifted(fs: seq<seq<Interval>>, p: seq<seq<Interval>>, ranges: seq<Interval>, level: nat)
    requires 1 <= level <= |fs|
  {
    if level == 1 then p == fs
    else
      && |p| == |fs| && p == fs[level - 1 := p[level - 1]] && Cleared(fs[level - 1], p[level - 1], ranges)
  }

  /** The tree with a level and its filters rewritten, and the merge counted. */
  function Placed(s: State, p: seq<seq<Interval>>, q: seq<seq<Interval>>, w: Written, own: nat, level: nat): State
    requires level < |s.levels| && level <= |p| && level <= |q|
  {
    State(s.levels[level := w.files], Put(p, level, w.plain), Put(q, level, w.split), s.mergedPoints + w.dropped,
          s.mergedRanges + own + w.absorbed, s.deletedPoints + w.deleted, s.splits + w.splits)
  }

  /** The tree before and after a level and the filters beside it are rewritten. */
  ghost predicate Rewrote(s: State, u: State, e: EntryList, level: nat, sorted: EntryList, own: nat, w: Written)
    requires |s.levels| == LEVELS && 1 <= level < LEVELS
  {
    && SameList(e, sorted, own) && WrittenOk(w, sorted, s.levels[level])
    && u.levels == s.levels[level := w.files] && At(u.plain, level) == w.plain && At(u.split, level) == w.split
    && level < |u.plain| == |u.split| <= LEVELS && |s.plain| <= |u.plain|
    && (forall i :: 0 <= i && i != level && i != level - 1 ==> At(u.plain, i) == At(s.plain, i) && At(u.split, i) == At(s.split, i))
    && (if level > 1 then TakenOut(s, u, e.ranges, level - 1) else At(u.plain, 0) == At(s.plain, 0) && At(u.split, 0) == At(s.split, 0))
    && u.mergedPoints == s.mergedPoints + w.dropped && u.mergedRanges == s.mergedRanges + own + w.absorbed
    && u.deletedPoints == s.deletedPoints + w.deleted && u.splits == s.splits + w.splits
  }

  lemma WroteShape(s: State, u: State, e: EntryList, level: nat, sorted: EntryList, own: nat, w: Written)
    requires s.Ok(level) && 1 <= level < LEVELS && Rewrote(s, u, e, level, sorted, own, w)
    ensures u.Ok(level) && u.levels[..level] == s.levels[..level] && SameAbove(s, u, level - 1)
  {
    assert u.levels[level + 1..] == s.levels[level + 1..];
    assert forall i :: level < i ==> At(u.plain, i) == At(s.plain, i) && At(u.split, i) == At(s.split, i);
    OkSame(s, u, level + 1);
  }

  lemma WroteMeaning(s: State, u: State, e: EntryList, level: nat, sorted: EntryList, own: nat, w: Written)
    requires s.Ok(level) && 1 <= level < LEVELS && Rewrote(s, u, e, level, sorted, own, w)
    ensures forall k :: WroteKey(s.levels, u.levels, e, level, k)
    ensures Balanced(s, u, level, |e.points|, |e.ranges|)
  {
    assert u.levels[level + 1..] == s.levels[level + 1..];
    FromSame(s.levels, u.levels, level + 1);
    forall k ensures WroteKey(s.levels, u.levels, e, level, k) {
      assert MeaningFrom(s.levels, level, k) == Under(VerdictOf(Flat(s.levels[level]), k), MeaningFrom(s.levels, level + 1, k));
      assert MeaningFrom(u.levels, level, k) == Under(VerdictOf(Flat(u.levels[level]), k), MeaningFrom(u.levels, level + 1, k));
    }
  }

  lemma PlacedRewrote(s: State, p: seq<seq<Interval>>, q: seq<seq<Interval>>, e: EntryList, level: nat,
                      sorted: EntryList, own: nat, w: Written)
    requires s.Ok(level) && 1 <= level < LEVELS && level <= |s.plain|
    requires SameList(e, sorted, own) && WrittenOk(w, sorted, s.levels[level])
    requires Lifted(s.plain, p, sorted.ranges, level) && Lifted(s.split, q, sorted.ranges, level)
    ensures Rewrote(s, Placed(s, p, q, w, own, level), e, level, sorted, own, w)
  {
    PutLifted(s.plain, p, sorted.ranges, level, w.plain);
    PutLifted(s.split, q, sorted.ranges, level, w.split);
    var u := Placed(s, p, q, w, own, level);
    assert level > 1 ==> TakenOut(s, u, e.ranges, level - 1);
  }

  lemma PutLifted(fs: seq<seq<Interval>>, p: seq<seq<Interval>>, ranges: seq<Interval>, level: nat, f: seq<Interval>)
    requires 1 <= level <= |fs| && Lifted(fs, p, ranges, level)
    ensures level <= |p| && |Put(p, level, f)| == (if level < |fs| then |fs| else level + 1)
    ensures At(Put(p, level, f), level) == f
    ensures forall i :: 0 <= i && i != level && i != level - 1 ==> At(Put(p, level, f), i) == At(fs, i)
    ensures level == 1 ==> At(Put(p, level, f), 0) == At(fs, 0)
    ensures level > 1 ==> Cleared(At(fs, level - 1), At(Put(p, level, f), level - 1), ranges)
  {
  }

  lemma WriteStopped(s: State, env: Env, level: nat, sorted: EntryList, ranges: nat, why: Failure)
    requires |s.levels| == LEVELS && level < LEVELS && |sorted.ranges| <= ranges && why != NoSuchLevel
    requires why == TileRelation ==> env.tile > 1
    requires why == CutUnderflow ==> env.sizes.file < Bytes(1, |sorted.ranges| + |Flat(s.levels[level]).ranges|, env.sizes)
    ensures Stopped(s, s, env, level, ranges, why)
  {
    TimesMonotone(|sorted.ranges| + |Flat(s.levels[level]).ranges|, RangesFrom(s.levels, level) + ranges, env.sizes.range);
  }

  lemma WroteOne(s: State, p: seq<seq<Interval>>, q: seq<seq<Interval>>, env: Env, e: EntryList, level: nat,
                 sorted: EntryList, own: nat, w: Written)
    requires s.Ok(level) && Limited(s.levels, env, level) && 1 <= level < LEVELS && level <= |s.plain|
    requires SameList(e, sorted, own) && WrittenOk(w, sorted, s.levels[level])
    requires Lifted(s.plain, p, sorted.ranges, level) && Lifted(s.split, q, sorted.ranges, level)
    ensures WroteInto(s, Placed(s, p, q, w, own, level), env, e, level, level + 1)
  {
    var u := Placed(s, p, q, w, own, level);
    PlacedRewrote(s, p, q, e, level, sorted, own, w);
    WroteShape(s, u, e, level, sorted, own, w);
    WroteMeaning(s, u, e, level, sorted, own, w);
    assert u.levels[level + 1..] == s.levels[level + 1..];
    LimitedSame(s.levels, u.levels, env, level + 1);
  }

  lemma WroteNear(s: State, p: seq<seq<Interval>>, q: seq<seq<Interval>>, env: Env, e: EntryList, level: nat,
                  sorted: EntryList, own: nat, w: Written)
    requires s.Ok(level) && 1 <= level < LEVELS && level <= |s.plain|
    requires SameList(e, sorted, own) && WrittenNear(w, sorted, s.levels[level], env.sizes)
    requires Lifted(s.plain, p, sorted.ranges, level) && Lifted(s.split, q, sorted.ranges, level)
    ensures WroteHere(s, Placed(s, p, q, w, own, level), env, e, level)
  {
    PutLifted(s.plain, p, sorted.ranges, level, w.plain);
    PutLifted(s.split, q, sorted.ranges, level, w.split);
    CoveredSame(sorted.ranges, e.ranges, Flat(s.levels[level]).points);
    SameMentions(e, sorted, own);
    forall f | f in s.levels[level] && Clear(f, e) ensures f in w.files {
      assert Clear(f, sorted);
    }
  }

  lemma SameMentions(e: EntryList, sorted: EntryList, own: nat)
    requires SameList(e, sorted, own)
    ensures forall k :: Mentions(sorted, k) <==> Mentions(e, k)
  {
    forall k ensures Mentions(sorted, k) <==> Mentions(e, k) {
      assert VerdictOf(sorted, k) == VerdictOf(e, k);
    }
  }

  lemma WroteThenAdjusted(s: State, u: State, t: State, env: Env, e: EntryList, level: nat)
    requires |s.levels| == LEVELS && 1 <= level < LEVELS
    requires WroteInto(s, u, env, e, level, level + 1) && Adjusted(u, t, env, level)
    ensures WroteInto(s, t, env, e, level, level)
  {
    AboveTwice(s, u, t, level);
    KeysTwice(s.levels, u.levels, t.levels, e, level);
  }

  lemma AboveTwice(s: State, u: State, t: State, level: nat)
    requires |s.levels| == |u.levels| == |t.levels| == LEVELS && 1 <= level < LEVELS
    requires SameAbove(s, u, level - 1) && SameAbove(u, t, level)
    ensures SameAbove(s, t, level - 1)
    ensures At(t.plain, level - 1) == At(u.plain, level - 1) && At(t.split, level - 1) == At(u.split, level - 1)
  {
    assert t.levels[..level - 1] == t.levels[..level][..level - 1] == u.levels[..level][..level - 1];
  }

  lemma KeysTwice(a: seq<seq<EntryList>>, b: seq<seq<EntryList>>, c: seq<seq<EntryList>>, e: EntryList, level: nat)
    requires forall k :: WroteKey(a, b, e, level, k)
    requires forall k :: SameKey(b, c, level, k)
    ensures forall k :: WroteKey(a, c, e, level, k)
  {
    forall k ensures WroteKey(a, c, e, level, k) {
      assert WroteKey(a, b, e, level, k) && SameKey(b, c, level, k);
    }
  }

  lemma PushedOk(s: State, n: nat, v: State, env: Env, level: nat)
    requires s.Ok(level) && 1 <= level < LEVELS - 1 && n < |s.levels[level]| && 2 <= |s.levels[level]|
    requires WroteInto(Unlinked(s, level, n), v, env, s.levels[level][n], level + 1, level + 1)
    ensures v.Ok(level) && v.levels[level] == Without(s.levels[level], n)
    ensures Balanced(s, v, level, 0, 0)
  {
    PushedShape(s, n, v, level);
    PushedFiles(s.levels[level], n, At(s.plain, level), At(s.split, level), At(v.plain, level), At(v.split, level));
    PushedCounts(s, n, v, level);
  }

  /** What is known when the program stops: under which condition, in terms of the tree before. */
  predicate Stopped(s: State, t: State, env: Env, level: nat, ranges: nat, why: Failure) {
    match why
    case TileRelation => env.tile > 1
    case CutUnderflow =>
      && s.splits <= t.splits
      && env.sizes.file < Bytes(1, RangesFrom(s.levels, level) + ranges + t.splits - s.splits, env.sizes)
    case NoSuchLevel => |t.levels| == LEVELS && |t.levels[LEVELS - 1]| >= MaxFiles(env, LEVELS - 1)
  }

  lemma StoppedBefore(s: State, level: nat, ranges: nat, v: State, level': nat, ranges': nat, t: State, env: Env, why: Failure)
    requires Stopped(v, t, env, level', ranges', why) && s.splits <= v.splits
    requires RangesFrom(v.levels, level') + ranges' - v.splits <= RangesFrom(s.levels, level) + ranges - s.splits
    ensures Stopped(s, t, env, level, ranges, why)
  {
    if why == CutUnderflow {
      TimesMonotone(RangesFrom(v.levels, level') + ranges' + t.splits - v.splits,
                    RangesFrom(s.levels, level) + ranges + t.splits - s.splits, env.sizes.range);
    }
  }

  lemma UnlinkedRanges(s: State, level: nat, n: nat)
    requires level < |s.levels| && n < |s.levels[level]|
    ensures RangesFrom(Unlinked(s, level, n).levels, level + 1) + |s.levels[level][n].ranges| <= RangesFrom(s.levels, level)
  {
    UnlinkedBelow(s, n, level, level + 1);
    RemovedCounts(s.levels[level], n);
  }

  lemma ChainFile(files: seq<EntryList>, n: nat)
    requires Chain(files) && n < |files|
    ensures GoodFile(files[n])
  {
    SpansOf(files);
    ChainOrder(files);
  }

  /** Below level 1, removes the keys of ranges from the filter above. */
  method TakeOut(fs: seq<seq<Interval>>, level: nat, ranges: seq<Interval>) returns (r: seq<seq<Interval>>)
    requires 1 <= level <= |fs| && Apart(fs[level - 1]) && Disjoint(ranges)
    ensures Lifted(fs, r, ranges, level)
  {
    r := fs;
    if level > 1 {
      DisjointIsAscending(ranges);
      var f := RemoveRanges(fs[level - 1], ranges);
      r := fs[level - 1 := f];
    }
  }

  /** Writes a sorted list, which may be empty, into a level. */
  method WriteSorted(e: EntryList, files: seq<EntryList>, plain: seq<Interval>, split: seq<Interval>, env: Env)
    returns (r: Outcome<Written>)
    requires (e.Empty() || GoodFile(e)) && LevelOk(files, plain, split) && env.Valid()
    ensures r == Exit(TileRelation) <==> files == [] && 0 < |e.points| < env.tile
    ensures r != Exit(NoSuchLevel)
    ensures r == Exit(CutUnderflow) ==> env.sizes.file < Bytes(1, |e.ranges| + |Flat(files).ranges|, env.sizes)
    ensures r.Ok? ==> WrittenOk(r.value, e, files) && WrittenNear(r.value, e, files, env.sizes)
  {
    if e.Empty() {
      CoveredNone(e.ranges, Flat(files).points);
      r := Ok(Written(files, plain, split, 0, 0, 0, 0));
    } else {
      r := WriteLevel(e, files, plain, split, env);
    }
  }

  /** The levels on disk (DiskMetaFile) and the filter of every level (FADEMetaFile). */
  class DiskMetaFile {
    const env: Env
    var levels: seq<seq<EntryList>>
    var plain: seq<seq<Interval>>
    var split: seq<seq<Interval>>
    var mergedPoints: nat
    var mergedRanges: nat
    var deletedPoints: nat
    var splits: nat

    function Now(): State
      reads this
    {
      State(levels, plain, split, mergedPoints, mergedRanges, deletedPoints, splits)
    }

    method Set(s: State)
      modifies this
      ensures Now() == s
    {
      levels, plain, split, splits := s.levels, s.plain, s.split, s.splits;
      mergedPoints, mergedRanges, deletedPoints := s.mergedPoints, s.mergedRanges, s.deletedPoints;
    }

    ghost predicate Valid()
      reads this
    {
      && env.Valid() && Now().Ok(1) && Limited(levels, env, 1) && Sized(levels, env.sizes, 1)
      && At(plain, 0) == [] && At(split, 0) == []
    }

    constructor (env: Env)
      requires env.Valid()
      ensures this.env == env && Valid()
      ensures Now() == State(seq(LEVELS, _ => []), [[]], [[]], 0, 0, 0, 0)
    {
      this.env := env;
      levels, plain, split := seq(LEVELS, _ => []), [[]], [[]];
      mergedPoints, mergedRanges, deletedPoints, splits := 0, 0, 0, 0;
      new;
      EmptyOk(levels, env, 1);
      SizedEmpty(levels, env.sizes, 1);
    }

    /** Sorts e and merges it into a level, taking its tombstones out of the filters it came from. */
    method WriteInto(e: EntryList, level: nat) returns (r: Outcome<()>)
      requires env.Valid() && 1 <= level < LEVELS && Now().Ok(level) && level <= |plain| && Limited(levels, env, level)
      requires Incoming(e, level)
      requires Apart(At(plain, level - 1)) && Apart(At(split, level - 1))
      modifies this
      ensures r.Ok? ==> WroteInto(old(Now()), Now(), env, e, level, level + 1) && WroteHere(old(Now()), Now(), env, e, level)
      ensures r.Exit? ==> Stopped(old(Now()), Now(), env, level, |e.ranges|, r.why) && Now() == old(Now())
      ensures r == Exit(TileRelation) <==> old(levels[level]) == [] && 0 < |e.points| < env.tile
    {
      var s := Now();
      var sorted, own := Sorted(e, level);
      var p := TakeOut(plain, level, sorted.ranges);
      var q := TakeOut(split, level, sorted.ranges);
      var r' := WriteSorted(sorted, levels[level], At(p, level), At(q, level), env);
      if r'.Exit? {
        WriteStopped(s, env, level, sorted, |e.ranges|, r'.why);
        return Exit(r'.why);
      }
      var w := r'.value;
      WroteOne(s, p, q, env, e, level, sorted, own, w);
      WroteNear(s, p, q, env, e, level, sorted, own, w);
      Set(Placed(s, p, q, w, own, level));
      r := Ok(());
    }

    /** Writes e into a level, then pushes files down until no level is saturated.  first and u are the outcome and
        the tree after the write alone. */
    method SortAndWrite(e: EntryList, level: nat) returns (r: Outcome<()>, ghost first: Outcome<()>, ghost u: State)
      requires env.Valid() && 1 <= level < LEVELS && Now().Ok(level) && level <= |plain| && Limited(levels, env, level)
      requires Incoming(e, level) && Sized(levels, env.sizes, level)
      requires Apart(At(plain, level - 1)) && Apart(At(split, level - 1))
      modifies this
      ensures r.Ok? ==> WroteInto(old(Now()), Now(), env, e, level, level) && Sized(levels, env.sizes, level)
      ensures r.Exit? ==> Stopped(old(Now()), Now(), env, level, |e.ranges|, r.why)
      ensures first == Exit(TileRelation) <==> old(levels[level]) == [] && 0 < |e.points| < env.tile
      ensures first.Exit? ==> r == first && Now() == old(Now())
      ensures first.Ok? ==> |u.levels| == LEVELS && WroteHere(old(Now()), u, env, e, level)
      ensures first.Ok? ==> |u.levels| == LEVELS && if r.Ok? then Drained(u, Now(), env, level) else |u.levels[level]| >= MaxFiles(env, level)
      decreases LEVELS - level, 1, 0
    {
      ghost var s := Now();
      r := WriteInto(e, level);
      first, u := r, Now();
      if r.Exit? {
        return;
      }
      SizedWrote(s, u, env, e, level);
      r := CheckAndAdjustLevelSaturation(level);
      if r.Ok? {
        WroteThenAdjusted(s, u, Now(), env, e, level);
      } else {
        StoppedBefore(s, level, |e.ranges|, u, level, 0, Now(), env, r.why);
      }
    }

    /** Writes the entries of the buffer into level 1. */
    method Flush(e: EntryList) returns (r: Outcome<()>, ghost first: Outcome<()>, ghost u: State)
      requires Valid() && Incoming(e, 1)
      modifies this
      ensures r.Ok? ==> Valid() && (forall k :: WroteKey(old(levels), levels, e, 1, k)) && Balanced(old(Now()), Now(), 1, |e.points|, |e.ranges|)
      ensures r.Exit? ==> Stopped(old(Now()), Now(), env, 1, |e.ranges|, r.why)
      ensures first == Exit(TileRelation) <==> old(levels[1]) == [] && 0 < |e.points| < env.tile
      ensures first.Exit? ==> r == first && Now() == old(Now())
      ensures first.Ok? ==> |u.levels| == LEVELS && WroteHere(old(Now()), u, env, e, 1)
      ensures first.Ok? ==> |u.levels| == LEVELS && if r.Ok? then Drained(u, Now(), env, 1) else |u.levels[1]| >= MaxFiles(env, 1)
    {
      r, first, u := SortAndWrite(e, 1);
    }

    /** While a level is saturated, pushes its file with the fewest overlaps into the next level. */
    method CheckAndAdjustLevelSaturation(level: nat) returns (r: Outcome<()>)
      requires env.Valid() && 1 <= level < LEVELS && Now().Ok(level) && Limited(levels, env, level + 1)
      requires Sized(levels, env.sizes, level)
      modifies this
      ensures |old(levels[level])| < MaxFiles(env, level) ==> r.Ok?
      ensures r.Ok? ==> Adjusted(old(Now()), Now(), env, level) && Drained(old(Now()), Now(), env, level) && Sized(levels, env.sizes, level)
      ensures r.Exit? ==> Stopped(old(Now()), Now(), env, level, 0, r.why)
      decreases LEVELS - level, 0, |levels[level]|
    {
      ghost var s := Now();
      if |levels[level]| < MaxFiles(env, level) {
        return Ok(());
      }
      if level + 1 == LEVELS {
        return Exit(NoSuchLevel);
      }
      MaxFilesAtLeastTwo(env, level);
      ghost var n;
      r, n := PushOne(level);
      if r.Exit? {
        return;
      }
      ghost var v := Now();
      PushedOk(s, n, v, env, level);
      r := CheckAndAdjustLevelSaturation(level);
      if r.Ok? {
        PushedDown(s, n, v, Now(), env, level);
        DrainedMore(s, n, v, Now(), env, level);
      } else {
        StoppedBefore(s, level, 0, v, level, 0, Now(), env, r.why);
      }
    }

    /** Unlinks the file with the fewest overlaps in the next level and writes it there. */
    method PushOne(level: nat) returns (r: Outcome<()>, ghost n: nat)
      requires env.Valid() && 1 <= level < LEVELS - 1 && Now().Ok(level) && Limited(levels, env, level + 1)
      requires |levels[level]| >= 2 && Sized(levels, env.sizes, level)
      modifies this
      ensures n < |old(levels[level])| && Chosen(old(levels[level]), old(levels[level + 1]), n)
      ensures r.Ok? ==> WroteInto(Unlinked(old(Now()), level, n), Now(), env, old(levels[level][n]), level + 1, level + 1)
      ensures r.Ok? ==> Sized(levels, env.sizes, level)
      ensures r.Exit? ==> Stopped(old(Now()), Now(), env, level, 0, r.why)
      decreases LEVELS - level - 1, 2, 0
    {
      ghost var s := Now();
      var m := MinOverlapFile(levels[level], levels[level + 1]);
      n := m;
      var f := levels[level][m];
      ChainFile(levels[level], m);
      UnlinkedRanges(s, level, m);
      levels := levels[level := Without(levels[level], m)];
      ghost var u := Now();
      assert u.levels[level + 1..] == s.levels[level + 1..];
      OkSame(s, u, level + 1);
      LimitedSame(s.levels, u.levels, env, level + 1);
      SizedSame(s.levels, u.levels, env.sizes, level + 1);
      ghost var first, v;
      r, first, v := SortAndWrite(f, level + 1);
      if r.Exit? {
        StoppedBefore(s, level, 0, u, level + 1, |f.ranges|, Now(), env, r.why);
      } else {
        PushedShape(s, m, Now(), level);
      }
    }
  }
}
