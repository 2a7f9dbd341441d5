/**
 Point entries, range entries (tombstones) and what lists of them mean.

 A tombstone is a closed key interval.  `Covers` is the meaning of a list of tombstones and
 `ValueAt` the meaning of a list of points.  `Apart` is the normal form of a tombstone list:
 ascending, with at least one uncovered key between neighbours.  An iterator over a list is
 modelled by the part of the list it has not passed yet, so the order predicates recurse on
 the front of a list.
 */
module Entries {
  import opened Options

  /** The keys lo, lo+1, ..., hi, both ends included. */
  datatype Interval = Interval(lo: int, hi: int)

  predicate In(k: int, r: Interval) {
    r.lo <= k <= r.hi
  }

  predicate Covers(rs: seq<Interval>, k: int) {
    rs != [] && (In(k, rs[0]) || Covers(rs[1..], k))
  }

  /** Every entry is a real interval, and the entries start in ascending order. */
  predicate Ascending(rs: seq<Interval>) {
    rs != [] ==>
      && rs[0].lo <= rs[0].hi
      && (|rs| > 1 ==> rs[0].lo <= rs[1].lo)
      && Ascending(rs[1..])
  }

  /** Ascending and pairwise disjoint. */
  predicate Disjoint(rs: seq<Interval>) {
    rs != [] ==>
      && rs[0].lo <= rs[0].hi
      && (|rs| > 1 ==> rs[0].hi < rs[1].lo)
      && Disjoint(rs[1..])
  }

  /** Ascending, disjoint, and not even touching. */
  predicate Apart(rs: seq<Interval>) {
    rs != [] ==>
      && rs[0].lo <= rs[0].hi
      && (|rs| > 1 ==> rs[0].hi + 1 < rs[1].lo)
      && Apart(rs[1..])
  }

  lemma {:induction false} ApartIsDisjoint(rs: seq<Interval>)
    requires Apart(rs)
    ensures Disjoint(rs)
  {
    if rs != [] {
      ApartIsDisjoint(rs[1..]);
    }
  }

  lemma {:induction false} DisjointIsAscending(rs: seq<Interval>)
    requires Disjoint(rs)
    ensures Ascending(rs)
  {
    if rs != [] {
      DisjointIsAscending(rs[1..]);
    }
  }

  /** Where a list ends; r fits behind it with a gap. */
  predicate FitsBehind(rs: seq<Interval>, lo: int) {
    rs != [] ==> rs[|rs| - 1].hi + 1 < lo
  }

  lemma {:induction false} ApartAppend(rs: seq<Interval>, r: Interval)
    requires Apart(rs) && r.lo <= r.hi && FitsBehind(rs, r.lo)
    ensures Apart(rs + [r])
    ensures forall k :: Covers(rs + [r], k) <==> Covers(rs, k) || In(k, r)
  {
    CoversAppend(rs, r);
    if rs != [] {
      assert (rs + [r])[1..] == rs[1..] + [r];
      ApartAppend(rs[1..], r);
    }
  }

  lemma CoversAppend(rs: seq<Interval>, r: Interval)
    ensures forall k :: Covers(rs + [r], k) <==> Covers(rs, k) || In(k, r)
  {
    if rs != [] {
      assert (rs + [r])[1..] == rs[1..] + [r];
      CoversAppend(rs[1..], r);
    }
  }

  lemma CoversConcat(a: seq<Interval>, b: seq<Interval>)
    ensures forall k :: Covers(a + b, k) <==> Covers(a, k) || Covers(b, k)
  {
    if a == [] {
      assert a + b == b;
    } else {
      assert (a + b)[1..] == a[1..] + b;
      CoversConcat(a[1..], b);
    }
  }

  /** The keys covered by an ascending list start at its first entry. */
  lemma CoversFrom(rs: seq<Interval>)
    requires rs != [] && Ascending(rs)
    ensures forall k :: Covers(rs, k) ==> rs[0].lo <= k
  {
    if |rs| > 1 {
      CoversFrom(rs[1..]);
    }
  }

  lemma ApartHead(rs: seq<Interval>)
    requires rs != [] && Apart(rs)
    ensures forall k :: Covers(rs, k) ==> rs[0].lo <= k
    ensures forall k :: Covers(rs[1..], k) ==> rs[0].hi + 1 < k
  {
    if |rs| > 1 {
      ApartHead(rs[1..]);
    }
  }

  lemma {:induction false} ApartConcat(a: seq<Interval>, b: seq<Interval>)
    requires Apart(a) && Apart(b) && (b != [] ==> FitsBehind(a, b[0].lo))
    ensures Apart(a + b)
  {
    if a == [] {
      assert a + b == b;
    } else {
      assert (a + b)[1..] == a[1..] + b;
      ApartConcat(a[1..], b);
    }
  }

  lemma {:induction false} CoversIndex(rs: seq<Interval>, k: int)
    ensures Covers(rs, k) <==> exists n :: 0 <= n < |rs| && In(k, rs[n])
  {
    if rs != [] {
      var tail := rs[1..];
      CoversIndex(tail, k);
      if exists n :: 0 <= n < |rs| && In(k, rs[n]) {
        var n :| 0 <= n < |rs| && In(k, rs[n]);
        assert n > 0 ==> In(k, tail[n - 1]);
      }
      if exists n :: 0 <= n < |tail| && In(k, tail[n]) {
        var n :| 0 <= n < |tail| && In(k, tail[n]);
        assert In(k, rs[n + 1]);
      }
    }
  }

  lemma {:induction false} DisjointOrder(rs: seq<Interval>)
    requires Disjoint(rs)
    ensures forall n :: 0 <= n < |rs| ==> rs[n].lo <= rs[n].hi
    ensures forall m, n :: 0 <= m < n < |rs| ==> rs[m].hi < rs[n].lo
  {
    if rs != [] {
      var tail := rs[1..];
      DisjointOrder(tail);
      forall m, n | 0 <= m < n < |rs| ensures rs[m].hi < rs[n].lo {
        assert rs[n] == tail[n - 1];
        if m > 0 {
          assert rs[m] == tail[m - 1];
        } else if n > 1 {
          assert tail[0].hi < tail[n - 1].lo;
        }
      }
      forall n | 0 <= n < |rs| ensures rs[n].lo <= rs[n].hi {
        assert n > 0 ==> rs[n] == tail[n - 1];
      }
    }
  }

  lemma {:induction false} DisjointSplit(a: seq<Interval>, b: seq<Interval>)
    requires Disjoint(a + b)
    ensures Disjoint(a) && Disjoint(b)
  {
    if a == [] {
      assert a + b == b;
    } else {
      assert (a + b)[1..] == a[1..] + b;
      DisjointSplit(a[1..], b);
    }
  }

  lemma {:induction false} DisjointConcat(a: seq<Interval>, b: seq<Interval>)
    requires Disjoint(a) && Disjoint(b) && (a != [] && b != [] ==> a[|a| - 1].hi < b[0].lo)
    ensures Disjoint(a + b)
  {
    if a == [] {
      assert a + b == b;
    } else {
      assert (a + b)[1..] == a[1..] + b;
      DisjointConcat(a[1..], b);
    }
  }

  datatype Point = Point(key: int, value: string)

  /** The value of the first point with key k. */
  function ValueAt(ps: seq<Point>, k: int): Option<string> {
    if ps == [] then None
    else if ps[0].key == k then Some(ps[0].value)
    else ValueAt(ps[1..], k)
  }

  predicate HasKey(ps: seq<Point>, k: int) {
    ValueAt(ps, k).Some?
  }

  /** Keys strictly ascending, hence no key twice. */
  predicate Rising(ps: seq<Point>) {
    ps != [] ==>
      && (|ps| > 1 ==> ps[0].key < ps[1].key)
      && Rising(ps[1..])
  }

  lemma RisingHead(ps: seq<Point>)
    requires ps != [] && Rising(ps)
    ensures forall k :: k < ps[0].key ==> ValueAt(ps, k) == None
    ensures forall k :: k <= ps[0].key ==> ValueAt(ps[1..], k) == None
  {
    if |ps| > 1 {
      RisingHead(ps[1..]);
    }
  }

  lemma ValueConcat(a: seq<Point>, b: seq<Point>)
    ensures forall k :: ValueAt(a + b, k) == OrElse(ValueAt(a, k), ValueAt(b, k))
  {
    if a == [] {
      assert a + b == b;
    } else {
      assert (a + b)[1..] == a[1..] + b;
      ValueConcat(a[1..], b);
    }
  }

  lemma {:induction false} RisingConcat(a: seq<Point>, b: seq<Point>)
    requires Rising(a) && Rising(b) && (a != [] && b != [] ==> a[|a| - 1].key < b[0].key)
    ensures Rising(a + b)
  {
    if a == [] {
      assert a + b == b;
    } else {
      assert (a + b)[1..] == a[1..] + b;
      RisingConcat(a[1..], b);
    }
  }

  lemma {:induction false} ValueIndex(ps: seq<Point>, k: int)
    ensures HasKey(ps, k) <==> exists n :: 0 <= n < |ps| && ps[n].key == k
  {
    if ps != [] {
      var tail := ps[1..];
      ValueIndex(tail, k);
      if exists n :: 0 <= n < |ps| && ps[n].key == k {
        var n :| 0 <= n < |ps| && ps[n].key == k;
        assert n > 0 ==> tail[n - 1].key == k;
      }
      if exists n :: 0 <= n < |tail| && tail[n].key == k {
        var n :| 0 <= n < |tail| && tail[n].key == k;
        assert ps[n + 1].key == k;
      }
    }
  }

  lemma {:induction false} RisingOrder(ps: seq<Point>)
    requires Rising(ps)
    ensures forall m, n :: 0 <= m < n < |ps| ==> ps[m].key < ps[n].key
  {
    if ps != [] {
      var tail := ps[1..];
      RisingOrder(tail);
      forall m, n | 0 <= m < n < |ps| ensures ps[m].key < ps[n].key {
        assert ps[n] == tail[n - 1];
        if m > 0 {
          assert ps[m] == tail[m - 1];
        } else if n > 1 {
          assert tail[0].key < tail[n - 1].key;
        }
      }
    }
  }

  lemma {:induction false} RisingSplit(a: seq<Point>, b: seq<Point>)
    requires Rising(a + b)
    ensures Rising(a) && Rising(b)
  {
    if a == [] {
      assert a + b == b;
    } else {
      assert (a + b)[1..] == a[1..] + b;
      RisingSplit(a[1..], b);
    }
  }
}
