/**
 Cutting the front of an entry list off as one file (`split_out_by_size_inByte`).

 A list is filled into a file in the order of point keys and tombstone ends until the next
 entry no longer fits.  A tombstone that straddles the end of the file is then cut in two;
 if the file has no room for the extra piece, points are taken back out.  Taking out the
 last point makes the code read element -1 of an empty vector; `Underflow` is that case, and
 `Underflows` tells beforehand exactly which lists lead to it.
 */
module FileCut {
  import opened Entries
  import opened EntryLists

  /** per_kv_size, per_range_delete_size and file_size in bytes. */
  datatype Sizes = Sizes(kv: nat, range: nat, file: nat) {
    /** A file holds at least one point and one tombstone. */
    predicate Ok() {
      kv >= 1 && range >= 1 && kv + range <= file
    }
  }

  /** n entries of the given size: n times size, by repeated addition. */
  function Times(n: nat, size: nat): nat {
    if n == 0 then 0 else size + Times(n - 1, size)
  }

  /** The size of a file with i points and j tombstones. */
  function Bytes(i: nat, j: nat, z: Sizes): nat {
    Times(i, z.kv) + Times(j, z.range)
  }

  lemma {:induction false} TimesMonotone(m: nat, n: nat, size: nat)
    requires m <= n
    ensures Times(m, size) <= Times(n, size)
  {
    if m < n {
      TimesMonotone(m, n - 1, size);
    }
  }

  datatype Cut = Cut(out: EntryList, rest: EntryList, splits: nat) | Underflow

  /** How many tombstones at the front of rs end before key. */
  function Leading(rs: seq<Interval>, key: int): nat {
    if rs == [] || rs[0].hi >= key then 0 else 1 + Leading(rs[1..], key)
  }

  lemma {:induction false} LeadingBounds(rs: seq<Interval>, key: int)
    ensures Leading(rs, key) <= |rs|
    ensures forall i :: 0 <= i < Leading(rs, key) ==> rs[i].hi < key
    ensures Leading(rs, key) < |rs| ==> rs[Leading(rs, key)].hi >= key
  {
    if rs != [] && rs[0].hi < key {
      LeadingBounds(rs[1..], key);
      forall i | 0 <= i < Leading(rs, key) ensures rs[i].hi < key {
        assert i > 0 ==> rs[i] == rs[1..][i - 1];
      }
    }
  }

  /** The lists on which the cut takes out its last point: the first point and the tombstones
      before it fit into a file, the tombstone the point lies in no longer does. */
  predicate Underflows(e: EntryList, z: Sizes) {
    && e.points != []
    && var p, j := e.points[0].key, Leading(e.ranges, e.points[0].key);
    && j < |e.ranges|
    && e.ranges[j].lo <= p < e.ranges[j].hi
    && Bytes(1, j, z) <= z.file < Bytes(1, j + 1, z)
  }

  /** The first i points and j tombstones of e lie before the others, except that tombstone j
      may start before point i - 1. */
  predicate CutAt(e: EntryList, i: nat, j: nat) {
    && i <= |e.points| && j <= |e.ranges|
    && (j > 0 && i < |e.points| ==> e.ranges[j - 1].hi < e.points[i].key)
    && (i > 0 && j < |e.ranges| ==> e.points[i - 1].key < e.ranges[j].hi)
  }

  /** The size of what is moved next when i points and j tombstones are in the file. */
  function NextSize(e: EntryList, i: nat, j: nat, z: Sizes): nat
    requires i <= |e.points| && j <= |e.ranges| && (i < |e.points| || j < |e.ranges|)
  {
    if j == |e.ranges| || (i < |e.points| && e.points[i].key < e.ranges[j].hi) then z.kv
    else if i == |e.points| || e.points[i].key > e.ranges[j].hi then z.range
    else z.kv + z.range
  }

  /** Nothing is left, or what comes next does not fit. */
  predicate Full(e: EntryList, i: nat, j: nat, z: Sizes)
    requires i <= |e.points| && j <= |e.ranges|
  {
    i < |e.points| || j < |e.ranges| ==> Bytes(i, j, z) + NextSize(e, i, j, z) > z.file
  }

  /** How many points and tombstones a file takes that holds i and j of them already. */
  function Filled(e: EntryList, z: Sizes, i: nat, j: nat): (r: (nat, nat))
    requires i <= |e.points| && j <= |e.ranges|
    ensures r.0 <= |e.points| && r.1 <= |e.ranges|
    decreases |e.points| - i + |e.ranges| - j
  {
    if (i == |e.points| && j == |e.ranges|) || Bytes(i, j, z) + NextSize(e, i, j, z) > z.file then (i, j)
    else if j == |e.ranges| || (i < |e.points| && e.points[i].key < e.ranges[j].hi) then Filled(e, z, i + 1, j)
    else if i == |e.points| || e.points[i].key > e.ranges[j].hi then Filled(e, z, i, j + 1)
    else Filled(e, z, i + 1, j + 1)
  }

  /** Moves entries from the front of e into a file until the next one does not fit: i points
      and j tombstones. */
  method Fill(e: EntryList, z: Sizes) returns (i: nat, j: nat)
    requires e.Tidy() && z.Ok()
    ensures CutAt(e, i, j) && Full(e, i, j, z)
    ensures (i, j) == Filled(e, z, 0, 0)
    ensures Bytes(i, j, z) <= z.file
  {
    i, j := 0, 0;
    var size := 0;
    while size < z.file
      decreases |e.points| - i + |e.ranges| - j
      invariant CutAt(e, i, j)
      invariant size == Bytes(i, j, z) <= z.file
      invariant Filled(e, z, i, j) == Filled(e, z, 0, 0)
    {
      if i == |e.points| && j == |e.ranges| {
        break;
      }
      CutNext(e, i, j);
      if j == |e.ranges| || (i < |e.points| && e.points[i].key < e.ranges[j].hi) {
        if size + z.kv > z.file {
          break;
        }
        i, size := i + 1, size + z.kv;
      } else if i == |e.points| || e.points[i].key > e.ranges[j].hi {
        if size + z.range > z.file {
          break;
        }
        j, size := j + 1, size + z.range;
      } else {
        if size + z.kv + z.range > z.file {
          break;
        }
        i, j, size := i + 1, j + 1, size + z.kv + z.range;
      }
    }
  }

  /** Moving the next entry, or the next point and the tombstone ending with it, keeps the order. */
  lemma CutNext(e: EntryList, i: nat, j: nat)
    requires e.Tidy() && CutAt(e, i, j) && (i < |e.points| || j < |e.ranges|)
    ensures if j == |e.ranges| || (i < |e.points| && e.points[i].key < e.ranges[j].hi) then CutAt(e, i + 1, j)
            else if i == |e.points| || e.points[i].key > e.ranges[j].hi then CutAt(e, i, j + 1)
            else CutAt(e, i + 1, j + 1)
  {
    RisingOrder(e.points);
    DisjointOrder(e.ranges);
  }

  /** On a list that underflows, the file takes the first point and exactly the tombstones before it. */
  lemma FilledUnderflow(e: EntryList, i: nat, j: nat, z: Sizes)
    requires e.Tidy() && z.Ok() && Underflows(e, z)
    requires CutAt(e, i, j) && Full(e, i, j, z) && Bytes(i, j, z) <= z.file
    ensures i > 0 && j == Leading(e.ranges, e.points[0].key)
  {
    RisingOrder(e.points);
    DisjointOrder(e.ranges);
    var lead := Leading(e.ranges, e.points[0].key);
    LeadingBounds(e.ranges, e.points[0].key);
    if i == 0 {
      assert j <= lead;
      TimesMonotone(if j < lead then j + 1 else j, lead, z.range);
    } else {
      assert j >= lead;
      if j > lead {
        TimesMonotone(lead + 1, j, z.range);
        TimesMonotone(1, i, z.kv);
      }
    }
  }

  /** How many of i points are left in a file that has to take in a piece of tombstone j; 0 if none. */
  function Trimmed(e: EntryList, z: Sizes, i: nat, j: nat): (r: nat)
    requires i <= |e.points| && j < |e.ranges|
    ensures r <= i
  {
    if i > 0 && e.ranges[j].lo <= e.points[i - 1].key && Bytes(i, j + 1, z) > z.file then Trimmed(e, z, i - 1, j) else i
  }

  lemma CutBack(e: EntryList, i: nat, j: nat)
    requires e.Tidy() && CutAt(e, i, j) && i > 0 && j < |e.ranges| && e.ranges[j].lo <= e.points[i - 1].key
    ensures CutAt(e, i - 1, j)
  {
    RisingOrder(e.points);
    DisjointOrder(e.ranges);
  }

  lemma FirstPoint(e: EntryList, i: nat)
    requires e.Tidy() && 0 < i <= |e.points|
    ensures e.points[0].key <= e.points[i - 1].key
  {
    RisingOrder(e.points);
  }

  /** Takes points back out of a full file until it has room for a piece of tombstone j or ends
      before that tombstone.  Fails when it would take out the last point. */
  method Trim(e: EntryList, z: Sizes, filled: nat, j: nat) returns (ok: bool, i: nat)
    requires e.Tidy() && CutAt(e, filled, j) && filled > 0 && j < |e.ranges|
    requires Bytes(filled, j, z) <= z.file
    ensures ok <==> !(e.ranges[j].lo <= e.points[0].key && Bytes(1, j + 1, z) > z.file)
    ensures ok ==> 0 < i <= filled && CutAt(e, i, j) && Bytes(i, j, z) <= z.file
    ensures ok && e.ranges[j].lo <= e.points[i - 1].key ==> Bytes(i, j + 1, z) <= z.file
    ensures i == filled || (i < filled && e.ranges[j].lo <= e.points[i].key && Bytes(i + 1, j + 1, z) > z.file)
    ensures i == Trimmed(e, z, filled, j) && (!ok ==> i == 0)
  {
    i := filled;
    while e.ranges[j].lo <= e.points[i - 1].key
      decreases i
      invariant 0 < i <= filled && CutAt(e, i, j) && Bytes(i, j, z) <= z.file
      invariant i == filled || (e.ranges[j].lo <= e.points[i].key && Bytes(i + 1, j + 1, z) > z.file)
      invariant Trimmed(e, z, i, j) == Trimmed(e, z, filled, j)
    {
      TimesMonotone(1, i, z.kv);
      if Bytes(i, j, z) + z.range <= z.file {
        break;
      }
      CutBack(e, i, j);
      i := i - 1;
      if i == 0 {
        return false, 0;
      }
    }
    FirstPoint(e, i);
    ok := true;
  }

  /** What a cut of e into out and rest keeps. */
  ghost predicate GoodCut(e: EntryList, out: EntryList, rest: EntryList, splits: nat) {
    && out.Tidy() && rest.Tidy()
    && Below(out, rest)
    && out.points + rest.points == e.points
    && |out.ranges| + |rest.ranges| == |e.ranges| + splits
    && forall k :: Covers(e.ranges, k) <==> Covers(out.ranges, k) || Covers(rest.ranges, k)
  }

  lemma PointsCut(ps: seq<Point>, i: nat)
    requires Rising(ps) && i <= |ps|
    ensures Rising(ps[..i]) && Rising(ps[i..]) && ps[..i] + ps[i..] == ps
  {
    var a, b := ps[..i], ps[i..];
    assert Rising(a + b) by {
      assert a + b == ps;
    }
    RisingSplit(a, b);
  }

  lemma RangesCut(rs: seq<Interval>, j: nat)
    requires Disjoint(rs) && j <= |rs|
    ensures Disjoint(rs[..j]) && Disjoint(rs[j..])
    ensures forall k :: Covers(rs, k) <==> Covers(rs[..j], k) || Covers(rs[j..], k)
  {
    assert rs == rs[..j] + rs[j..];
    DisjointSplit(rs[..j], rs[j..]);
    CoversConcat(rs[..j], rs[j..]);
  }

  lemma CutBelow(e: EntryList, i: nat, j: nat)
    requires e.Tidy() && CutAt(e, i, j)
    requires i > 0 && j < |e.ranges| ==> e.points[i - 1].key < e.ranges[j].lo
    ensures Below(EntryList(e.points[..i], e.ranges[..j]), EntryList(e.points[i..], e.ranges[j..]))
  {
    RisingOrder(e.points);
    DisjointOrder(e.ranges);
  }

  /** Cutting between two tombstones. */
  lemma CleanCut(e: EntryList, i: nat, j: nat)
    requires e.Tidy() && CutAt(e, i, j)
    requires i > 0 && j < |e.ranges| ==> e.points[i - 1].key < e.ranges[j].lo
    ensures GoodCut(e, EntryList(e.points[..i], e.ranges[..j]), EntryList(e.points[i..], e.ranges[j..]), 0)
  {
    PointsCut(e.points, i);
    RangesCut(e.ranges, j);
    CutBelow(e, i, j);
  }

  /** Tombstone j replaced by two that meet after key m. */
  function Severed(rs: seq<Interval>, j: nat, m: int): (cut: seq<Interval>)
    requires j < |rs|
    ensures |cut| == |rs| + 1
  {
    if j == 0 then [Interval(rs[0].lo, m), Interval(m + 1, rs[0].hi)] + rs[1..]
    else [rs[0]] + Severed(rs[1..], j - 1, m)
  }

  lemma {:induction false} SeveredMeaning(rs: seq<Interval>, j: nat, m: int)
    requires Disjoint(rs) && j < |rs| && rs[j].lo <= m < rs[j].hi
    ensures Disjoint(Severed(rs, j, m))
    ensures Severed(rs, j, m)[0].lo == rs[0].lo
    ensures forall k :: Covers(Severed(rs, j, m), k) <==> Covers(rs, k)
  {
    var cut := Severed(rs, j, m);
    if j == 0 {
      assert cut[1..][1..] == rs[1..];
    } else {
      SeveredMeaning(rs[1..], j - 1, m);
      assert cut[1..] == Severed(rs[1..], j - 1, m);
    }
  }

  lemma {:induction false} SeveredAt(rs: seq<Interval>, j: nat, m: int)
    requires j < |rs|
    ensures Severed(rs, j, m)[j] == Interval(rs[j].lo, m)
    ensures Severed(rs, j, m)[j + 1] == Interval(m + 1, rs[j].hi)
  {
    if j > 0 {
      SeveredAt(rs[1..], j - 1, m);
    }
  }

  function SeveredCut(e: EntryList, i: nat, j: nat): Cut
    requires 0 < i <= |e.points| && j < |e.ranges|
  {
    var rs := Severed(e.ranges, j, e.points[i - 1].key);
    Cut(EntryList(e.points[..i], rs[..j + 1]), EntryList(e.points[i..], rs[j + 1..]), 1)
  }

  /** Cuts tombstone j behind the last point of the file. */
  method Sever(e: EntryList, z: Sizes, i: nat, j: nat) returns (c: Cut)
    requires e.Tidy() && CutAt(e, i, j) && i > 0 && j < |e.ranges|
    requires e.ranges[j].lo <= e.points[i - 1].key && Bytes(i, j + 1, z) <= z.file
    ensures c.Cut? && c.splits == 1 && GoodCut(e, c.out, c.rest, 1)
    ensures |c.out.points| == i && |c.out.ranges| == j + 1 && c == SeveredCut(e, i, j)
  {
    var m := e.points[i - 1].key;
    var whole := EntryList(e.points, Severed(e.ranges, j, m));
    RisingOrder(e.points);
    SeveredMeaning(e.ranges, j, m);
    SeveredAt(e.ranges, j, m);
    CleanCut(whole, i, j + 1);
    c := Cut(EntryList(whole.points[..i], whole.ranges[..j + 1]), EntryList(whole.points[i..], whole.ranges[j + 1..]), 1);
  }

  /** A filled file has to give up its last point exactly on the lists that underflow. */
  lemma UnderflowSeen(e: EntryList, i: nat, j: nat, z: Sizes)
    requires e.Tidy() && z.Ok() && CutAt(e, i, j) && Full(e, i, j, z) && Bytes(i, j, z) <= z.file
    ensures Underflows(e, z) <==>
            i > 0 && j < |e.ranges| && e.ranges[j].lo <= e.points[0].key && Bytes(1, j + 1, z) > z.file
  {
    if Underflows(e, z) {
      FilledUnderflow(e, i, j, z);
    } else if i > 0 && j < |e.ranges| {
      RisingOrder(e.points);
      DisjointOrder(e.ranges);
      LeadingBounds(e.ranges, e.points[0].key);
      TimesMonotone(1, i, z.kv);
      if e.ranges[j].lo <= e.points[0].key {
        assert e.points[0].key <= e.points[i - 1].key;
        assert Leading(e.ranges, e.points[0].key) == j;
      }
    }
  }

  /** Few enough tombstones to fit into a file beside one point never underflow. */
  lemma NoUnderflow(e: EntryList, z: Sizes)
    requires z.Ok() && Bytes(1, |e.ranges|, z) <= z.file
    ensures !Underflows(e, z)
  {
    if e.points != [] && Leading(e.ranges, e.points[0].key) < |e.ranges| {
      TimesMonotone(Leading(e.ranges, e.points[0].key) + 1, |e.ranges|, z.range);
    }
  }

  /** A tombstone below the only point leaves the point no room for a piece of the tombstone around it. */
  lemma UnderflowExample(e: EntryList, z: Sizes)
    requires e.ranges == [Interval(0, 0), Interval(2, 9)] && |e.points| == 1 && e.points[0].key == 5 && z == Sizes(1, 1, 2)
    ensures e.Tidy() && z.Ok() && Underflows(e, z)
  {
    var rs := e.ranges;
    assert rs[1..] == [Interval(2, 9)] && rs[1..][1..] == [] && e.points[1..] == [];
    assert Leading(rs[1..], 5) == 0 && Leading(rs, 5) == 1;
    assert Times(1, 1) == 1 && Times(2, 1) == 2;
    assert Bytes(1, 1, z) == 2 && Bytes(1, 2, z) == 3;
    assert Disjoint(rs[1..]) && Rising(e.points);
  }

  /** The cut behind i points and j tombstones. */
  function PartOf(e: EntryList, i: nat, j: nat): Cut
    requires i <= |e.points| && j <= |e.ranges|
  {
    if i > 0 && j < |e.ranges| && e.ranges[j].lo <= e.points[i - 1].key then SeveredCut(e, i, j)
    else Cut(EntryList(e.points[..i], e.ranges[..j]), EntryList(e.points[i..], e.ranges[j..]), 0)
  }

  method Part(e: EntryList, z: Sizes, i: nat, j: nat) returns (c: Cut)
    requires e.Tidy() && CutAt(e, i, j) && Bytes(i, j, z) <= z.file && (e.Empty() || i + j > 0)
    requires i > 0 && j < |e.ranges| && e.ranges[j].lo <= e.points[i - 1].key ==> Bytes(i, j + 1, z) <= z.file
    ensures c == PartOf(e, i, j) && c.Cut? && |c.out.points| == i && |c.out.ranges| == j + c.splits
    ensures c.splits <= 1 && GoodCut(e, c.out, c.rest, c.splits) && |c.rest.ranges| <= |e.ranges|
    ensures Bytes(|c.out.points|, |c.out.ranges|, z) <= z.file
    ensures !e.Empty() ==> !c.out.Empty() && |c.rest.points| + |c.rest.ranges| < |e.points| + |e.ranges|
  {
    if i > 0 && j < |e.ranges| && e.ranges[j].lo <= e.points[i - 1].key {
      c := Sever(e, z, i, j);
    } else {
      CleanCut(e, i, j);
      c := Cut(EntryList(e.points[..i], e.ranges[..j]), EntryList(e.points[i..], e.ranges[j..]), 0);
    }
  }

  /** The cut that filling and trimming lead to. */
  function CutOf(e: EntryList, z: Sizes): Cut {
    var (filled, j) := Filled(e, z, 0, 0);
    var i := if filled > 0 && j < |e.ranges| then Trimmed(e, z, filled, j) else filled;
    if filled > 0 && i == 0 then Underflow else PartOf(e, i, j)
  }

  /** A file of i points and j whole tombstones was filled until the next entry did not fit, and gave back only
      points that left no room for a piece of tombstone j around them. */
  ghost predicate Greedy(e: EntryList, z: Sizes, i: nat, j: nat) {
    exists filled: nat :: i <= filled <= |e.points| && GreedyAt(e, z, i, j, filled)
  }

  predicate GreedyAt(e: EntryList, z: Sizes, i: nat, j: nat, filled: nat)
    requires i <= filled <= |e.points|
  {
    && j <= |e.ranges| && Full(e, filled, j, z)
    && (i < filled ==> j < |e.ranges| && e.ranges[j].lo <= e.points[i].key && Bytes(i + 1, j + 1, z) > z.file)
  }

  /** Cuts one file off the front of e. */
  method SplitOut(e: EntryList, z: Sizes) returns (c: Cut)
    requires e.Tidy() && z.Ok()
    ensures c == CutOf(e, z) && (c.Underflow? <==> Underflows(e, z))
    ensures c.Cut? ==> c.splits <= 1 && GoodCut(e, c.out, c.rest, c.splits) && |c.rest.ranges| <= |e.ranges|
    ensures c.Cut? ==> Bytes(|c.out.points|, |c.out.ranges|, z) <= z.file
    ensures c.Cut? ==> c.splits <= |c.out.ranges| && Greedy(e, z, |c.out.points|, |c.out.ranges| - c.splits)
    ensures c.Cut? && !e.Empty() ==> !c.out.Empty() && |c.rest.points| + |c.rest.ranges| < |e.points| + |e.ranges|
  {
    var i, j := Fill(e, z);
    assert e.Empty() || i + j > 0;
    ghost var filled := i;
    var ok := true;
    if i > 0 && j < |e.ranges| {
      ok, i := Trim(e, z, i, j);
    }
    UnderflowSeen(e, filled, j, z);
    if !ok {
      return Underflow;
    }
    assert GreedyAt(e, z, i, j, filled);
    c := Part(e, z, i, j);
  }
}
