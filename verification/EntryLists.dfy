/**
 Lists of point and range entries as they move between the buffer, the levels and the files:
 sorting, merging, applying tombstones to older points, and cutting a list into files.
 */
module EntryLists {
  import opened Options
  import opened Entries

  datatype EntryList = EntryList(points: seq<Point>, ranges: seq<Interval>) {

    predicate Empty() {
      points == [] && ranges == []
    }

    /** Points without duplicates in key order, tombstones disjoint in key order. */
    predicate Tidy() {
      Rising(points) && Disjoint(ranges)
    }

    /** The smallest key mentioned, -1 for an empty list. */
    function MinKey(): int {
      if Empty() then -1
      else if points == [] then ranges[0].lo
      else if ranges == [] then points[0].key
      else if points[0].key < ranges[0].lo then points[0].key else ranges[0].lo
    }

    /** The largest key mentioned, -1 for an empty list. */
    function MaxKey(): int {
      if Empty() then -1
      else if points == [] then ranges[|ranges| - 1].hi
      else if ranges == [] then points[|points| - 1].key
      else if points[|points| - 1].key < ranges[|ranges| - 1].hi then ranges[|ranges| - 1].hi else points[|points| - 1].key
    }
  }

  /** Every key of a lies below every key of b. */
  predicate Below(a: EntryList, b: EntryList) {
    !a.Empty() && !b.Empty() ==> a.MaxKey() < b.MinKey()
  }

  // ---- Sorting ----

  function InsertPoint(p: Point, ps: seq<Point>): seq<Point> {
    if ps == [] || p.key < ps[0].key then [p] + ps else [ps[0]] + InsertPoint(p, ps[1..])
  }

  function SortPoints(ps: seq<Point>): seq<Point> {
    if ps == [] then [] else InsertPoint(ps[0], SortPoints(ps[1..]))
  }

  predicate DistinctKeys(ps: seq<Point>) {
    ps != [] ==> !HasKey(ps[1..], ps[0].key) && DistinctKeys(ps[1..])
  }

  lemma {:induction false} InsertPointSorts(p: Point, ps: seq<Point>)
    requires Rising(ps) && !HasKey(ps, p.key)
    ensures |InsertPoint(p, ps)| == |ps| + 1
    ensures Rising(InsertPoint(p, ps))
    ensures InsertPoint(p, ps)[0] == p || (ps != [] && InsertPoint(p, ps)[0] == ps[0])
    ensures forall k :: ValueAt(InsertPoint(p, ps), k) == if k == p.key then Some(p.value) else ValueAt(ps, k)
  {
    if ps != [] {
      RisingHead(ps);
      if p.key < ps[0].key {
        assert ([p] + ps)[1..] == ps;
      } else {
        InsertPointSorts(p, ps[1..]);
        assert ([ps[0]] + InsertPoint(p, ps[1..]))[1..] == InsertPoint(p, ps[1..]);
      }
    }
  }

  lemma {:induction false} SortPointsSorts(ps: seq<Point>)
    requires DistinctKeys(ps)
    ensures |SortPoints(ps)| == |ps| && Rising(SortPoints(ps))
    ensures forall k :: ValueAt(SortPoints(ps), k) == ValueAt(ps, k)
  {
    if ps != [] {
      SortPointsSorts(ps[1..]);
      InsertPointSorts(ps[0], SortPoints(ps[1..]));
    }
  }

  lemma {:induction false} SortPointsKeeps(ps: seq<Point>)
    requires Rising(ps)
    ensures SortPoints(ps) == ps
  {
    if ps != [] {
      SortPointsKeeps(ps[1..]);
      assert ps == [ps[0]] + ps[1..];
    }
  }

  /** The key std::sort compares: the start or the end of a tombstone. */
  function SortKey(r: Interval, byEnd: bool): int {
    if byEnd then r.hi else r.lo
  }

  function InsertRange(r: Interval, rs: seq<Interval>, byEnd: bool): seq<Interval> {
    if rs == [] || SortKey(r, byEnd) < SortKey(rs[0], byEnd) then [r] + rs
    else [rs[0]] + InsertRange(r, rs[1..], byEnd)
  }

  function SortRanges(rs: seq<Interval>, byEnd: bool): seq<Interval> {
    if rs == [] then [] else InsertRange(rs[0], SortRanges(rs[1..], byEnd), byEnd)
  }

  predicate AllProper(rs: seq<Interval>) {
    rs != [] ==> rs[0].lo <= rs[0].hi && AllProper(rs[1..])
  }

  lemma {:induction false} InsertRangeSorts(r: Interval, rs: seq<Interval>)
    requires Ascending(rs) && r.lo <= r.hi
    ensures var out := InsertRange(r, rs, false);
            && |out| == |rs| + 1
            && Ascending(out)
            && (out[0] == r || (rs != [] && out[0] == rs[0]))
            && forall k :: Covers(out, k) <==> Covers(rs, k) || In(k, r)
  {
    if rs != [] {
      if r.lo < rs[0].lo {
        assert ([r] + rs)[1..] == rs;
      } else {
        InsertRangeSorts(r, rs[1..]);
        assert ([rs[0]] + InsertRange(r, rs[1..], false))[1..] == InsertRange(r, rs[1..], false);
      }
    }
  }

  lemma {:induction false} SortRangesSorts(rs: seq<Interval>)
    requires AllProper(rs)
    ensures |SortRanges(rs, false)| == |rs| && Ascending(SortRanges(rs, false))
    ensures forall k :: Covers(SortRanges(rs, false), k) <==> Covers(rs, k)
  {
    if rs != [] {
      SortRangesSorts(rs[1..]);
      InsertRangeSorts(rs[0], SortRanges(rs[1..], false));
    }
  }

  /** Disjoint tombstones in start order are also in end order: neither sort moves them. */
  lemma {:induction false} SortRangesKeeps(rs: seq<Interval>, byEnd: bool)
    requires Disjoint(rs)
    ensures SortRanges(rs, byEnd) == rs
  {
    if rs != [] {
      SortRangesKeeps(rs[1..], byEnd);
      assert rs == [rs[0]] + rs[1..];
    }
  }

  // ---- Merging an upper list into the entries of the level below ----

  lemma {:induction false} RisingAppend(ps: seq<Point>, p: Point)
    requires Rising(ps) && (ps != [] ==> ps[|ps| - 1].key < p.key)
    ensures Rising(ps + [p])
    ensures forall k :: ValueAt(ps + [p], k) == OrElse(ValueAt(ps, k), if k == p.key then Some(p.value) else None)
  {
    RisingConcat(ps, [p]);
    ValueConcat(ps, [p]);
    assert [p][1..] == [];
    assert forall k :: ValueAt([p], k) == if k == p.key then Some(p.value) else None;
  }

  /** How many of the points the tombstones cover. */
  function CoveredCount(ranges: seq<Interval>, ps: seq<Point>): nat {
    if ps == [] then 0 else (if Covers(ranges, ps[0].key) then 1 else 0) + CoveredCount(ranges, ps[1..])
  }

  lemma {:induction false} CoveredConcat(ranges: seq<Interval>, a: seq<Point>, b: seq<Point>)
    ensures CoveredCount(ranges, a + b) == CoveredCount(ranges, a) + CoveredCount(ranges, b)
  {
    if a == [] {
      assert a + b == b;
    } else {
      CoveredConcat(ranges, a[1..], b);
      assert (a + b)[1..] == a[1..] + b;
    }
  }

  lemma {:induction false} CoveredNone(ranges: seq<Interval>, ps: seq<Point>)
    requires forall k :: HasKey(ps, k) ==> !Covers(ranges, k)
    ensures CoveredCount(ranges, ps) == 0
  {
    if ps != [] {
      assert HasKey(ps, ps[0].key);
      CoveredNone(ranges, ps[1..]);
    }
  }

  lemma {:induction false} CoveredSame(a: seq<Interval>, b: seq<Interval>, ps: seq<Point>)
    requires forall k :: Covers(a, k) <==> Covers(b, k)
    ensures CoveredCount(a, ps) == CoveredCount(b, ps)
  {
    if ps != [] {
      CoveredSame(a, b, ps[1..]);
    }
  }

  /** Deletes from the older points ps those that the tombstones cover. */
  method ApplyRanges(ranges: seq<Interval>, ps: seq<Point>) returns (kept: seq<Point>, deleted: nat)
    requires Ascending(ranges) && Rising(ps)
    ensures Rising(kept)
    ensures forall k :: ValueAt(kept, k) == if Covers(ranges, k) then None else ValueAt(ps, k)
    ensures |kept| + deleted == |ps| && deleted == CoveredCount(ranges, ps)
  {
    if ranges == [] {
      CoveredNone(ranges, ps);
      return ps, 0;
    }
    kept, deleted := [], 0;
    var rest, tombs := ps, ranges;
    while rest != []
      decreases |rest|
      invariant Rising(rest) && Ascending(tombs)
      invariant Rising(kept)
      invariant kept != [] && rest != [] ==> kept[|kept| - 1].key < rest[0].key
      invariant |kept| + deleted + |rest| == |ps| && deleted + CoveredCount(ranges, rest) == CoveredCount(ranges, ps)
      invariant forall k :: HasKey(rest, k) ==> (Covers(ranges, k) <==> Covers(tombs, k))
      invariant forall k :: (if Covers(ranges, k) then None else ValueAt(ps, k)) ==
                            OrElse(ValueAt(kept, k), if Covers(ranges, k) then None else ValueAt(rest, k))
    {
      var p := rest[0];
      RisingHead(rest);
      while tombs != [] && p.key > tombs[0].hi
        decreases |tombs|
        invariant Ascending(tombs)
        invariant forall k :: HasKey(rest, k) ==> (Covers(ranges, k) <==> Covers(tombs, k))
      {
        tombs := tombs[1..];
      }
      if tombs != [] {
        CoversFrom(tombs);
      }
      assert HasKey(rest, p.key);
      if tombs != [] && tombs[0].lo <= p.key <= tombs[0].hi {
        deleted := deleted + 1;
      } else {
        RisingAppend(kept, p);
        kept := kept + [p];
      }
      rest := rest[1..];
    }
  }

  predicate Ahead(done: seq<Point>, rest: seq<Point>) {
    done != [] && rest != [] ==> done[|done| - 1].key < rest[0].key
  }

  /** A merge of a over b half way: merged is done, a' and b' are still to come. */
  ghost predicate Merging(a: seq<Point>, b: seq<Point>, merged: seq<Point>, a': seq<Point>, b': seq<Point>) {
    && Rising(merged) && Rising(a') && Rising(b')
    && Ahead(merged, a') && Ahead(merged, b')
    && forall k :: OrElse(ValueAt(a, k), ValueAt(b, k)) ==
                   OrElse(ValueAt(merged, k), OrElse(ValueAt(a', k), ValueAt(b', k)))
  }

  lemma TakeUpper(a: seq<Point>, b: seq<Point>, merged: seq<Point>, a': seq<Point>, b': seq<Point>)
    requires Merging(a, b, merged, a', b')
    requires a' != [] && (b' == [] || a'[0].key <= b'[0].key)
    ensures Merging(a, b, merged + [a'[0]], a'[1..], if b' != [] && b'[0].key == a'[0].key then b'[1..] else b')
  {
    RisingAppend(merged, a'[0]);
  }

  lemma TakeLower(a: seq<Point>, b: seq<Point>, merged: seq<Point>, a': seq<Point>, b': seq<Point>)
    requires Merging(a, b, merged, a', b')
    requires b' != [] && (a' == [] || b'[0].key < a'[0].key)
    ensures Merging(a, b, merged + [b'[0]], a', b'[1..])
  {
    RisingAppend(merged, b'[0]);
    if a' != [] {
      RisingHead(a');
    }
  }

  /** Two-way merge of points; where both lists hold a key, the entry of a (the upper list) stays. */
  method MergePoints(a: seq<Point>, b: seq<Point>) returns (merged: seq<Point>, dropped: nat)
    requires Rising(a) && Rising(b)
    ensures Rising(merged)
    ensures forall k :: ValueAt(merged, k) == OrElse(ValueAt(a, k), ValueAt(b, k))
    ensures |merged| + dropped == |a| + |b|
  {
    merged, dropped := [], 0;
    var a', b' := a, b;
    while a' != [] || b' != []
      decreases |a'| + |b'|
      invariant |merged| + dropped + |a'| + |b'| == |a| + |b|
      invariant Merging(a, b, merged, a', b')
    {
      if a' != [] && (b' == [] || a'[0].key <= b'[0].key) {
        TakeUpper(a, b, merged, a', b');
        merged := merged + [a'[0]];
        if b' != [] && b'[0].key == a'[0].key {
          b', dropped := b'[1..], dropped + 1;
        }
        a' := a'[1..];
      } else {
        TakeLower(a, b, merged, a', b');
        merged, b' := merged + [b'[0]], b'[1..];
      }
    }
  }

  /** Coalesces one ascending list with itself, as a buffer flush does. */
  method MergeOwnRanges(a: seq<Interval>) returns (merged: seq<Interval>, absorbed: nat)
    requires Ascending(a)
    ensures Apart(merged)
    ensures forall k :: Covers(merged, k) <==> Covers(a, k)
    ensures |merged| + absorbed == |a|
  {
    merged, absorbed := [], 0;
    var a' := a;
    while a' != []
      decreases |a'|
      invariant Ascending(a')
      invariant Apart(merged)
      invariant a' != [] ==> FitsBehind(merged, a'[0].lo)
      invariant |merged| + absorbed + |a'| == |a|
      invariant forall k :: Covers(a, k) <==> Covers(merged, k) || Covers(a', k)
    {
      var lo, hi, count := a'[0].lo, a'[0].hi, 0;
      while a' != [] && a'[0].lo <= hi + 1
        decreases |a'|
        invariant Ascending(a')
        invariant lo <= hi
        invariant FitsBehind(merged, lo)
        invariant a' != [] ==> lo <= a'[0].lo
        invariant count == 0 ==> a' != [] && a'[0] == Interval(lo, hi)
        invariant |merged| + absorbed + count + |a'| == |a|
        invariant forall k :: Covers(a, k) <==> Covers(merged, k) || lo <= k <= hi || Covers(a', k)
      {
        hi, a', count := if hi < a'[0].hi then a'[0].hi else hi, a'[1..], count + 1;
      }
      ApartAppend(merged, Interval(lo, hi));
      absorbed, merged := absorbed + count - 1, merged + [Interval(lo, hi)];
    }
  }
}
