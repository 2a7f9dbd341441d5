/**
 The per-level range delete filter kept as a vector of intervals, with the merge that the
 entry lists share with it.  Both filters of a level (plain and split) are lists in the
 normal form `Apart`; `ApartUnique` shows that the normal form is determined by its meaning.
 */
module PerLevelFilter {
  import opened Entries

  /** Grows [lo, hi] over every entry at the front of a or b that overlaps or touches it. */
  method Extend(lo: int, hi: int, a: seq<Interval>, b: seq<Interval>)
    returns (top: int, a': seq<Interval>, b': seq<Interval>, count: nat)
    requires lo <= hi && Ascending(a) && Ascending(b)
    requires a != [] ==> lo <= a[0].lo
    requires b != [] ==> lo <= b[0].lo
    ensures hi <= top && Ascending(a') && Ascending(b')
    ensures a' != [] ==> top + 1 < a'[0].lo
    ensures b' != [] ==> top + 1 < b'[0].lo
    ensures count + |a'| + |b'| == |a| + |b|
    ensures forall k :: lo <= k <= top || Covers(a', k) || Covers(b', k) <==> lo <= k <= hi || Covers(a, k) || Covers(b, k)
  {
    top, a', b', count := hi, a, b, 0;
    while a' != [] || b' != []
      decreases |a'| + |b'|
      invariant hi <= top && Ascending(a') && Ascending(b')
      invariant a' != [] ==> lo <= a'[0].lo
      invariant b' != [] ==> lo <= b'[0].lo
      invariant count + |a'| + |b'| == |a| + |b|
      invariant forall k :: lo <= k <= top || Covers(a', k) || Covers(b', k) <==> lo <= k <= hi || Covers(a, k) || Covers(b, k)
    {
      if a' != [] && a'[0].lo <= top + 1 {
        top, a' := if top < a'[0].hi then a'[0].hi else top, a'[1..];
      } else if b' != [] && b'[0].lo <= top + 1 {
        top, b' := if top < b'[0].hi then b'[0].hi else top, b'[1..];
      } else {
        break;
      }
      count := count + 1;
    }
  }

  /** Combines two ascending lists; absorbed counts the list entries that vanished into others. */
  method MergeRanges(a: seq<Interval>, b: seq<Interval>) returns (merged: seq<Interval>, absorbed: nat)
    requires Ascending(a)
    requires Ascending(b)
    ensures Apart(merged)
    ensures forall k :: Covers(merged, k) <==> Covers(a, k) || Covers(b, k)
    ensures |merged| + absorbed == |a| + |b|
  {
    merged, absorbed := [], 0;
    var a', b' := a, b;
    while a' != [] || b' != []
      decreases |a'| + |b'|
      invariant Ascending(a') && Ascending(b')
      invariant Apart(merged)
      invariant a' != [] ==> FitsBehind(merged, a'[0].lo)
      invariant b' != [] ==> FitsBehind(merged, b'[0].lo)
      invariant |merged| + absorbed + |a'| + |b'| == |a| + |b|
      invariant forall k :: Covers(a, k) || Covers(b, k) <==> Covers(merged, k) || Covers(a', k) || Covers(b', k)
    {
      var lo, hi;
      if a' != [] && (b' == [] || a'[0].lo <= b'[0].lo) {
        lo, hi, a' := a'[0].lo, a'[0].hi, a'[1..];
      } else {
        lo, hi, b' := b'[0].lo, b'[0].hi, b'[1..];
      }
      var count;
      hi, a', b', count := Extend(lo, hi, a', b');
      ApartAppend(merged, Interval(lo, hi));
      absorbed, merged := absorbed + count, merged + [Interval(lo, hi)];
    }
  }

  /** Adds the single interval [start, end] to a filter in normal form. */
  method AddRange(rs: seq<Interval>, start: int, end: int) returns (added: seq<Interval>)
    requires Apart(rs) && start <= end
    ensures Apart(added)
    ensures forall k :: Covers(added, k) <==> Covers(rs, k) || start <= k <= end
  {
    added := [];
    var lo, hi, rest := start, end, rs;
    while rest != [] && rest[0].lo <= end + 1
      decreases |rest|
      invariant Apart(rest)
      invariant Apart(added)
      invariant lo <= start && end <= hi
      invariant FitsBehind(added, lo)
      invariant rest != [] ==> FitsBehind(added, rest[0].lo)
      invariant rest != [] ==> hi == end || hi + 1 < rest[0].lo
      invariant rest != [] && rest[0].hi < start - 1 ==> lo == start && hi == end
      invariant forall k :: Covers(rs, k) || start <= k <= end <==> Covers(added, k) || lo <= k <= hi || Covers(rest, k)
    {
      if rest[0].hi < start - 1 {
        ApartAppend(added, rest[0]);
        added := added + [rest[0]];
      } else {
        lo, hi := if rest[0].lo < lo then rest[0].lo else lo, if hi < rest[0].hi then rest[0].hi else hi;
      }
      rest := rest[1..];
    }
    ApartAppend(added, Interval(lo, hi));
    CoversConcat(added + [Interval(lo, hi)], rest);
    ApartConcat(added + [Interval(lo, hi)], rest);
    added := added + [Interval(lo, hi)] + rest;
  }

  /** Takes the keys of discard out of a filter. */
  method RemoveRanges(rs: seq<Interval>, discard: seq<Interval>) returns (kept: seq<Interval>)
    requires Apart(rs)
    requires Ascending(discard)
    ensures Apart(kept)
    ensures forall k :: Covers(kept, k) <==> Covers(rs, k) && !Covers(discard, k)
  {
    kept := [];
    var rest, out := rs, discard;
    while rest != [] || out != []
      decreases |rest| + |out|
      invariant Apart(rest) && Ascending(out)
      invariant Apart(kept)
      invariant rest != [] ==> FitsBehind(kept, rest[0].lo)
      invariant forall k :: Covers(rs, k) && !Covers(discard, k) <==>
                            Covers(kept, k) || (Covers(rest, k) && !Covers(out, k))
    {
      if out == [] {
        ApartAppend(kept, rest[0]);
        kept, rest := kept + [rest[0]], rest[1..];
        continue;
      }
      if rest == [] {
        break;
      }
      var r, d := rest[0], out[0];
      ApartHead(rest);
      CoversFrom(out);
      if r.lo > d.hi {
        out := out[1..];
      } else if r.hi < d.lo {
        ApartAppend(kept, r);
        kept, rest := kept + [r], rest[1..];
      } else if r == d {
        rest, out := rest[1..], out[1..];
      } else if r.lo < d.lo && r.hi <= d.hi {
        ApartAppend(kept, Interval(r.lo, d.lo - 1));
        kept, rest := kept + [Interval(r.lo, d.lo - 1)], rest[1..];
      } else if r.lo >= d.lo && r.hi <= d.hi {
        rest := rest[1..];
      } else if r.lo >= d.lo && r.hi > d.hi {
        rest, out := [Interval(d.hi + 1, r.hi)] + rest[1..], out[1..];
      } else if r.lo < d.lo && r.hi > d.hi {
        ApartAppend(kept, Interval(r.lo, d.lo - 1));
        kept, rest, out := kept + [Interval(r.lo, d.lo - 1)], [Interval(d.hi + 1, r.hi)] + rest[1..], out[1..];
      } else {
        assert false;
      }
    }
  }

  /** Takes the keys of the given points out of a filter. */
  method SplitByPoints(rs: seq<Interval>, ps: seq<Point>) returns (split: seq<Interval>)
    requires Apart(rs) && Rising(ps)
    ensures Apart(split)
    ensures forall k :: Covers(split, k) <==> Covers(rs, k) && !HasKey(ps, k)
  {
    split := [];
    var rest, left := rs, ps;
    while left != [] && rest != []
      decreases |rest| + |left|
      invariant Apart(rest) && Rising(left)
      invariant Apart(split)
      invariant rest != [] ==> FitsBehind(split, rest[0].lo)
      invariant forall k :: Covers(rs, k) && !HasKey(ps, k) <==>
                            Covers(split, k) || (Covers(rest, k) && !HasKey(left, k))
    {
      var r, key := rest[0], left[0].key;
      ApartHead(rest);
      RisingHead(left);
      if key < r.lo {
        left := left[1..];
      } else if key > r.hi {
        ApartAppend(split, r);
        split, rest := split + [r], rest[1..];
      } else if key == r.lo && key == r.hi {
        rest, left := rest[1..], left[1..];
      } else if key == r.lo {
        rest, left := [Interval(key + 1, r.hi)] + rest[1..], left[1..];
      } else if key == r.hi {
        ApartAppend(split, Interval(r.lo, r.hi - 1));
        split, rest := split + [Interval(r.lo, r.hi - 1)], rest[1..];
      } else {
        ApartAppend(split, Interval(r.lo, key - 1));
        split, rest, left := split + [Interval(r.lo, key - 1)], [Interval(key + 1, r.hi)] + rest[1..], left[1..];
      }
    }
    CoversConcat(split, rest);
    ApartConcat(split, rest);
    split := split + rest;
  }

  /** Whether a filter lets k through: a binary search for the last interval starting at or before k. */
  method IsEntryAlive(rs: seq<Interval>, k: int) returns (alive: bool)
    requires Apart(rs)
    ensures alive <==> !Covers(rs, k)
  {
    if |rs| == 0 {
      return true;
    }
    var from, to := 0, |rs|;
    ApartOrder(rs);
    while from < to
      invariant 0 <= from <= to <= |rs|
      invariant forall n :: 0 <= n < from ==> rs[n].lo <= k
      invariant forall n :: to <= n < |rs| ==> k < rs[n].lo
    {
      var mid := (from + to) / 2;
      if rs[mid].lo <= k {
        from := mid + 1;
      } else {
        to := mid;
      }
    }
    var at := if from > 0 then from - 1 else 0;
    alive := !(rs[at].lo <= k <= rs[at].hi);
    CoversIndex(rs, k);
  }

  lemma {:induction false} ApartOrder(rs: seq<Interval>)
    requires Apart(rs)
    ensures forall n :: 0 <= n < |rs| ==> rs[n].lo <= rs[n].hi
    ensures forall m, n :: 0 <= m < n < |rs| ==> rs[m].hi + 1 < rs[n].lo
  {
    if rs != [] {
      var tail := rs[1..];
      ApartOrder(tail);
      forall m, n | 0 <= m < n < |rs| ensures rs[m].hi + 1 < rs[n].lo {
        assert rs[n] == tail[n - 1];
        if m > 0 {
          assert rs[m] == tail[m - 1];
        } else if n > 1 {
          assert tail[0].hi + 1 < tail[n - 1].lo;
        }
      }
      forall n | 0 <= n < |rs| ensures rs[n].lo <= rs[n].hi {
        if n > 0 {
          assert rs[n] == tail[n - 1];
        }
      }
    }
  }

  /** Two normal forms that cover the same keys are the same list. */
  lemma {:induction false} ApartUnique(a: seq<Interval>, b: seq<Interval>)
    requires Apart(a) && Apart(b)
    requires forall k :: Covers(a, k) <==> Covers(b, k)
    ensures a == b
  {
    if a != [] {
      ApartHead(a);
      FirstGap(a);
    }
    if b != [] {
      ApartHead(b);
      FirstGap(b);
    }
    assert a != [] ==> Covers(a, a[0].lo);
    assert b != [] ==> Covers(b, b[0].lo);
    if a != [] && b != [] {
      assert a[0] == b[0];
      forall k ensures Covers(a[1..], k) <==> Covers(b[1..], k) {
        assert Covers(a, k) <==> Covers(b, k);
      }
      ApartUnique(a[1..], b[1..]);
      assert a == [a[0]] + a[1..] && b == [b[0]] + b[1..];
    }
  }

  /** The first interval of a normal form is a maximal covered stretch. */
  lemma FirstGap(rs: seq<Interval>)
    requires Apart(rs) && rs != []
    ensures forall k :: rs[0].lo <= k <= rs[0].hi ==> Covers(rs, k)
    ensures !Covers(rs, rs[0].hi + 1)
  {
    ApartHead(rs);
  }
}
