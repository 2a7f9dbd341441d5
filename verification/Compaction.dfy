/**
 What a compaction does to the meaning of a level and of its two filters.
 */
module Compaction {
  import opened Options
  import opened Entries
  import opened EntryLists
  import opened FileCut
  import opened Levels

  /** A level with its plain filter (exactly the tombstoned keys) and its split filter (the
      tombstoned keys that no point of the level brings back). */
  ghost predicate LevelOk(files: seq<EntryList>, plain: seq<Interval>, split: seq<Interval>) {
    Chain(files) && Apart(plain) && Apart(split) && forall k :: Agrees(files, plain, split, k)
  }

  /** At k, the plain filter has the tombstones of the level, the split filter those that no point
      of the level lies in. */
  predicate Agrees(files: seq<EntryList>, plain: seq<Interval>, split: seq<Interval>, k: int) {
    && (Covers(plain, k) <==> Covers(Flat(files).ranges, k))
    && (Covers(split, k) <==> Covers(Flat(files).ranges, k) && !HasKey(Flat(files).points, k))
  }

  /** m is the upper list e merged over the older entries x. */
  ghost predicate MergedOver(m: EntryList, e: EntryList, x: EntryList) {
    && m.Tidy()
    && (forall k :: ValueAt(m.points, k) ==
                    OrElse(ValueAt(e.points, k), if Covers(e.ranges, k) then None else ValueAt(x.points, k)))
    && (forall k :: Covers(m.ranges, k) <==> Covers(e.ranges, k) || Covers(x.ranges, k))
  }

  lemma MergedVerdict(m: EntryList, e: EntryList, x: EntryList, k: int)
    requires MergedOver(m, e, x)
    ensures VerdictOf(m, k) == Under(VerdictOf(e, k), VerdictOf(x, k))
    ensures Mentions(m, k) <==> Mentions(e, k) || Mentions(x, k)
  {}

  lemma NotBoth(a: EntryList, b: EntryList, k: int)
    requires a.Tidy() && b.Tidy() && Below(a, b)
    ensures !(Mentions(a, k) && Mentions(b, k))
  {
    if Mentions(a, k) && Mentions(b, k) {
      MentionsWithin(a, k);
      MentionsWithin(b, k);
    }
  }

  /** Three lists side by side: at most one of them mentions k, and together they say what that one says. */
  lemma Parts(a: EntryList, b: EntryList, c: EntryList, k: int)
    requires a.Tidy() && b.Tidy() && c.Tidy()
    requires Below(a, b) && Below(b, c) && Below(a, c)
    ensures !(Mentions(a, k) && Mentions(b, k)) && !(Mentions(b, k) && Mentions(c, k)) && !(Mentions(a, k) && Mentions(c, k))
    ensures var j := Join(Join(a, b), c);
            && ValueAt(j.points, k) == OrElse(ValueAt(a.points, k), OrElse(ValueAt(b.points, k), ValueAt(c.points, k)))
            && (Covers(j.ranges, k) <==> Covers(a.ranges, k) || Covers(b.ranges, k) || Covers(c.ranges, k))
  {
    NotBoth(a, b, k);
    NotBoth(b, c, k);
    NotBoth(a, c, k);
    ValueConcat(a.points, b.points);
    ValueConcat(a.points + b.points, c.points);
    CoversConcat(a.ranges, b.ranges);
    CoversConcat(a.ranges + b.ranges, c.ranges);
  }

  lemma TwoParts(a: seq<EntryList>, b: seq<EntryList>)
    requires Chain(a + b)
    ensures Flat(a).Tidy() && Flat(b).Tidy() && Below(Flat(a), Flat(b))
  {
    ChainSplit(a, b);
    FlatTidy(a);
    FlatTidy(b);
  }

  lemma BelowTransitive(a: EntryList, b: EntryList, c: EntryList)
    requires b.Tidy() && !b.Empty() && Below(a, b) && Below(b, c)
    ensures Below(a, c)
  {
    MentionsEnds(b);
    MentionsWithin(b, b.MaxKey());
  }

  lemma ThreeOrdered(front: seq<EntryList>, mid: seq<EntryList>, back: seq<EntryList>)
    requires Chain(front + mid) && Chain(mid + back) && mid != []
    ensures Flat(front).Tidy() && Flat(mid).Tidy() && Flat(back).Tidy()
    ensures Below(Flat(front), Flat(mid)) && Below(Flat(mid), Flat(back)) && Below(Flat(front), Flat(back))
  {
    TwoParts(front, mid);
    TwoParts(mid, back);
    ChainSplit(front, mid);
    FlatTidy(mid);
    BelowTransitive(Flat(front), Flat(mid), Flat(back));
  }

  lemma FlatThree(front: seq<EntryList>, mid: seq<EntryList>, back: seq<EntryList>)
    ensures Flat(front + mid + back) == Join(Join(Flat(front), Flat(mid)), Flat(back))
  {
    FlatConcat(front + mid, back);
    FlatConcat(front, mid);
  }

  lemma ChainThree(front: seq<EntryList>, mid: seq<EntryList>, back: seq<EntryList>)
    requires Chain(front + mid + back)
    ensures Chain(front + mid) && Chain(mid + back)
  {
    assert front + mid + back == front + (mid + back);
    ChainSplit(front + mid, back);
    ChainSplit(front, mid + back);
  }

  lemma FlatOne(f: EntryList)
    ensures Flat([f]) == f
  {
    assert [f][1..] == [];
    JoinEmpty(f);
  }

  /** What one key sees when the middle list is taken out. */
  lemma RemovedKey(a: EntryList, f: EntryList, b: EntryList, k: int)
    requires a.Tidy() && f.Tidy() && b.Tidy()
    requires Below(a, f) && Below(f, b) && Below(a, b)
    ensures var whole, left := Join(Join(a, f), b), Join(a, b);
            && VerdictOf(whole, k) == Under(VerdictOf(left, k), VerdictOf(f, k))
            && (VerdictOf(f, k).Live? ==> VerdictOf(whole, k).Live?)
            && (Covers(left.ranges, k) <==> Covers(whole.ranges, k) && !Covers(f.ranges, k))
            && (Covers(left.ranges, k) && !HasKey(left.points, k) <==>
                Covers(whole.ranges, k) && !HasKey(whole.points, k) && !Covers(f.ranges, k))
  {
    Parts(a, f, b, k);
    ValueConcat(a.points, b.points);
    CoversConcat(a.ranges, b.ranges);
  }

  /** A level without file n is still a chain. */
  lemma ChainWithout(front: seq<EntryList>, f: EntryList, back: seq<EntryList>)
    requires Chain(front + [f] + back)
    ensures Chain(front + back)
  {
    ChainThree(front, [f], back);
    ChainSplit(front, [f]);
    ChainSplit([f], back);
    SstKeys(f);
    ChainConcat(front, back);
  }

  /** Taking one file out of a level and its tombstones out of the filters. */
  lemma FileRemoved(front: seq<EntryList>, f: EntryList, back: seq<EntryList>, plain: seq<Interval>, split: seq<Interval>,
                    plain': seq<Interval>, split': seq<Interval>)
    requires LevelOk(front + [f] + back, plain, split) && Apart(plain') && Apart(split')
    requires forall k :: Covers(plain', k) <==> Covers(plain, k) && !Covers(f.ranges, k)
    requires forall k :: Covers(split', k) <==> Covers(split, k) && !Covers(f.ranges, k)
    ensures LevelOk(front + back, plain', split')
    ensures forall k :: VerdictOf(Flat(front + [f] + back), k) == Under(VerdictOf(Flat(front + back), k), VerdictOf(f, k))
    ensures forall k :: VerdictOf(f, k).Live? ==> VerdictOf(Flat(front + [f] + back), k).Live?
  {
    ChainWithout(front, f, back);
    ChainThree(front, [f], back);
    ThreeOrdered(front, [f], back);
    FlatThree(front, [f], back);
    FlatConcat(front, back);
    FlatOne(f);
    forall k
      ensures Agrees(front + back, plain', split', k)
      ensures VerdictOf(Flat(front + [f] + back), k) == Under(VerdictOf(Flat(front + back), k), VerdictOf(f, k))
      ensures VerdictOf(f, k).Live? ==> VerdictOf(Flat(front + [f] + back), k).Live?
    {
      assert Agrees(front + [f] + back, plain, split, k);
      RemovedKey(Flat(front), f, Flat(back), k);
    }
  }

  // ---- Merging a list into a level ----

  /** What one key sees when the middle list x is replaced by n, which is e merged over x. */
  lemma ReplacedKey(a: EntryList, x: EntryList, b: EntryList, n: EntryList, e: EntryList, k: int)
    requires a.Tidy() && x.Tidy() && b.Tidy() && MergedOver(n, e, x)
    requires Below(a, x) && Below(x, b) && Below(a, b) && Below(a, n) && Below(n, b)
    ensures var before, after := Join(Join(a, x), b), Join(Join(a, n), b);
            && VerdictOf(after, k) == Under(VerdictOf(e, k), VerdictOf(before, k))
            && (Covers(after.ranges, k) <==> Covers(before.ranges, k) || Covers(n.ranges, k))
            && (Covers(after.ranges, k) && !HasKey(after.points, k) <==>
                ((Covers(before.ranges, k) && !HasKey(before.points, k)) || Covers(n.ranges, k)) && !HasKey(n.points, k))
  {
    Parts(a, x, b, k);
    Parts(a, n, b, k);
    MergedVerdict(n, e, x, k);
  }

  /** The span of a merged list reaches from the first to the last key of its two sources. */
  lemma MergedSpan(m: EntryList, e: EntryList, x: EntryList)
    requires MergedOver(m, e, x) && GoodFile(e) && (x.Empty() || GoodFile(x))
    ensures GoodFile(m)
    ensures m.MinKey() == if x.Empty() || e.MinKey() < x.MinKey() then e.MinKey() else x.MinKey()
    ensures m.MaxKey() == if x.Empty() || e.MaxKey() > x.MaxKey() then e.MaxKey() else x.MaxKey()
  {
    MentionsEnds(e);
    MergedVerdict(m, e, x, e.MinKey());
    MergedVerdict(m, e, x, e.MaxKey());
    MentionsWithin(m, e.MinKey());
    MentionsWithin(m, e.MaxKey());
    MentionsEnds(m);
    MergedVerdict(m, e, x, m.MinKey());
    MergedVerdict(m, e, x, m.MaxKey());
    MergedEnd(m, e, x, m.MinKey());
    MergedEnd(m, e, x, m.MaxKey());
    if !x.Empty() {
      MentionsEnds(x);
      MergedVerdict(m, e, x, x.MinKey());
      MergedVerdict(m, e, x, x.MaxKey());
      MentionsWithin(m, x.MinKey());
      MentionsWithin(m, x.MaxKey());
    }
  }

  lemma MergedEnd(m: EntryList, e: EntryList, x: EntryList, k: int)
    requires MergedOver(m, e, x) && e.Tidy() && x.Tidy() && Mentions(m, k)
    ensures e.MinKey() <= k <= e.MaxKey() || (!x.Empty() && x.MinKey() <= k <= x.MaxKey())
  {
    MergedVerdict(m, e, x, k);
    if Mentions(e, k) {
      MentionsWithin(e, k);
    } else {
      MentionsWithin(x, k);
    }
  }

  lemma StretchUnique(spans: seq<Interval>, from: nat, to: nat, from': nat, to': nat, lo: int, hi: int)
    requires Disjoint(spans) && lo <= hi
    requires Stretch(spans, from, to, lo, hi) && Stretch(spans, from', to', lo, hi)
    ensures from == from' && to == to'
  {
    DisjointOrder(spans);
    assert from < |spans| ==> spans[from].lo <= spans[from].hi;
    assert from' < |spans| ==> spans[from'].lo <= spans[from'].hi;
    assert to < |spans| ==> spans[to].lo <= spans[to].hi;
    assert to' < |spans| ==> spans[to'].lo <= spans[to'].hi;
  }

  lemma ThreeSlices(files: seq<EntryList>, from: nat, to: nat)
    requires from <= to <= |files|
    ensures files == files[..from] + files[from..to] + files[to..]
    ensures from > 0 ==> files[..from][from - 1] == files[from - 1]
    ensures to < |files| ==> files[to..][0] == files[to]
  {
  }

  lemma SliceChain(files: seq<EntryList>, from: nat, to: nat)
    requires Chain(files) && from <= to <= |files|
    ensures Chain(files[from..to])
  {
    ThreeSlices(files, from, to);
    ChainThree(files[..from], files[from..to], files[to..]);
    ChainSplit(files[from..to], files[to..]);
  }

  lemma FlatOfChain(files: seq<EntryList>)
    requires Chain(files)
    ensures Flat(files).Tidy() && (files == [] ==> Flat(files).Empty())
    ensures files != [] ==> GoodFile(Flat(files)) && Flat(files).MinKey() == files[0].MinKey() && Flat(files).MaxKey() == files[|files| - 1].MaxKey()
  {
    FlatTidy(files);
  }

  /** Merging in the overlapped files widens the span, but over no further file. */
  lemma StretchKept(files: seq<EntryList>, spans: seq<Interval>, from: nat, to: nat, e: EntryList, m: EntryList)
    requires Chain(files) && spans == Spans(files) && GoodFile(e)
    requires from <= to <= |files| && Stretch(spans, from, to, e.MinKey(), e.MaxKey())
    requires MergedOver(m, e, Flat(files[from..to]))
    ensures GoodFile(m) && Stretch(spans, from, to, m.MinKey(), m.MaxKey())
  {
    SpansOf(files);
    DisjointOrder(spans);
    SliceChain(files, from, to);
    FlatOfChain(files[from..to]);
    MergedSpan(m, e, Flat(files[from..to]));
    if from < to {
      assert spans[from].lo == files[from].MinKey() && spans[to - 1].hi == files[to - 1].MaxKey();
    }
  }

  lemma HoldsFlat(added: seq<EntryList>, m: EntryList, splits: nat, e: EntryList, x: EntryList)
    requires GoodFile(m) && Holds(added, m, splits) && MergedOver(m, e, x)
    ensures added != [] && Chain(added) && GoodFile(Flat(added)) && MergedOver(Flat(added), e, x)
    ensures added[0].MinKey() == Flat(added).MinKey() == m.MinKey()
    ensures added[|added| - 1].MaxKey() == Flat(added).MaxKey() == m.MaxKey()
    ensures |Flat(added).points| == |m.points| && |Flat(added).ranges| == |m.ranges| + splits
    ensures forall k :: HasKey(Flat(added).points, k) <==> HasKey(m.points, k)
    ensures forall k :: Covers(Flat(added).ranges, k) <==> Covers(m.ranges, k)
  {
    HoldsKeys(added, m, splits);
    FlatTidy(added);
    assert Flat(added).points + [] == Flat(added).points;
  }

  lemma ReplacedOrder(front: seq<EntryList>, mid: seq<EntryList>, back: seq<EntryList>, n: EntryList)
    requires Chain(front + mid + back) && n.Tidy()
    requires front != [] ==> front[|front| - 1].MaxKey() < n.MinKey()
    requires back != [] ==> n.MaxKey() < back[0].MinKey()
    ensures Flat(front).Tidy() && Flat(mid).Tidy() && Flat(back).Tidy()
    ensures Below(Flat(front), Flat(mid)) && Below(Flat(mid), Flat(back)) && Below(Flat(front), Flat(back))
    ensures Below(Flat(front), n) && Below(n, Flat(back))
  {
    ChainThree(front, mid, back);
    if mid == [] {
      assert front + mid == front;
      TwoParts(front, back);
    } else {
      ThreeOrdered(front, mid, back);
    }
    ChainSplit(front, mid);
    ChainSplit(mid, back);
    FlatTidy(front);
    FlatTidy(back);
  }

  lemma ReplacedChain(front: seq<EntryList>, mid: seq<EntryList>, back: seq<EntryList>, added: seq<EntryList>)
    requires Chain(front + mid + back) && Chain(added) && added != []
    requires front != [] ==> front[|front| - 1].MaxKey() < added[0].MinKey()
    requires back != [] ==> added[|added| - 1].MaxKey() < back[0].MinKey()
    ensures Chain(front + added + back)
  {
    ChainThree(front, mid, back);
    ChainSplit(front, mid);
    ChainSplit(mid, back);
    ChainConcat(front, added);
    ChainConcat(front + added, back);
  }

  /** A level after e has been merged over the files mid and cut into the files added: the level
      now says what e says and else what it said before, and both filters are right again. */
  lemma MergedIntoLevel(front: seq<EntryList>, mid: seq<EntryList>, back: seq<EntryList>, added: seq<EntryList>,
                        e: EntryList, m: EntryList, splits: nat,
                        plain: seq<Interval>, split: seq<Interval>, plain': seq<Interval>, split': seq<Interval>)
    requires LevelOk(front + mid + back, plain, split) && Apart(plain') && Apart(split')
    requires GoodFile(m) && MergedOver(m, e, Flat(mid)) && Holds(added, m, splits)
    requires front != [] ==> front[|front| - 1].MaxKey() < m.MinKey()
    requires back != [] ==> m.MaxKey() < back[0].MinKey()
    requires forall k :: Covers(plain', k) <==> Covers(plain, k) || Covers(m.ranges, k)
    requires forall k :: Covers(split', k) <==> (Covers(split, k) || Covers(m.ranges, k)) && !HasKey(m.points, k)
    ensures LevelOk(front + added + back, plain', split')
    ensures forall k :: VerdictOf(Flat(front + added + back), k) ==
                        Under(VerdictOf(e, k), VerdictOf(Flat(front + mid + back), k))
  {
    HoldsFlat(added, m, splits, e, Flat(mid));
    ReplacedChain(front, mid, back, added);
    ReplacedOrder(front, mid, back, Flat(added));
    FlatThree(front, mid, back);
    FlatThree(front, added, back);
    forall k
      ensures Agrees(front + added + back, plain', split', k)
      ensures VerdictOf(Flat(front + added + back), k) == Under(VerdictOf(e, k), VerdictOf(Flat(front + mid + back), k))
    {
      assert Agrees(front + mid + back, plain, split, k);
      ReplacedKey(Flat(front), Flat(mid), Flat(back), Flat(added), e, k);
    }
  }

  /** Nothing is lost or duplicated by the splice. */
  lemma MergedCounts(front: seq<EntryList>, mid: seq<EntryList>, back: seq<EntryList>, added: seq<EntryList>,
                     m: EntryList, splits: nat)
    requires Holds(added, m, splits)
    ensures |Flat(front + added + back).points| + |Flat(mid).points| == |Flat(front + mid + back).points| + |m.points|
    ensures |Flat(front + added + back).ranges| + |Flat(mid).ranges| ==
            |Flat(front + mid + back).ranges| + |m.ranges| + splits
  {
    FlatThree(front, mid, back);
    FlatThree(front, added, back);
  }
}
