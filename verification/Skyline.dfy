/**
 The skyline filter: one ordered set of tagged range deletes for the whole tree
 (`SkylineRangeDeleteFilter`).

 Adding a range delete cuts the older ones it overlaps, and a key is looked up in the element
 at or before it.  Neighbouring elements share their end keys, so three elements can hold one
 key: one that ends there, the one-key range itself, and one that starts there.  The lookup
 reads only two of them, and the set keeps the older of two equal ranges; `Hidden` says for
 which histories that gives a wrong answer.
 */
module Skyline {
  import opened Options

  datatype Tagged = Tagged(lo: int, hi: int, tag: int)

  // ---- The ordered set ----

  /** The order of range_delete_entry. */
  predicate Less(a: Tagged, b: Tagged) {
    a.lo < b.lo || a.hi < b.hi
  }

  /** std::set::insert: an element equivalent to one in the set is not inserted. */
  function SetInsert(list: seq<Tagged>, x: Tagged): seq<Tagged> {
    if list == [] then [x]
    else if Less(list[0], x) then [list[0]] + SetInsert(list[1..], x)
    else if Less(x, list[0]) then [x] + list
    else list
  }

  function InsertAll(list: seq<Tagged>, xs: seq<Tagged>): seq<Tagged>
    decreases |xs|
  {
    if xs == [] then list else InsertAll(SetInsert(list, xs[0]), xs[1..])
  }

  /** A long assigned to an int. */
  function Int32(x: int): int {
    (x + 0x8000_0000) % 0x1_0000_0000 - 0x8000_0000
  }

  predicate Fits(x: Tagged) {
    Int32(x.lo) == x.lo && Int32(x.hi) == x.hi && Int32(x.tag) == x.tag
  }

  function Narrow(x: Tagged): Tagged {
    Tagged(Int32(x.lo), Int32(x.hi), Int32(x.tag))
  }

  /** What is left of y on both sides of x; cutting y in two goes through ints. */
  function Pieces(y: Tagged, x: Tagged): seq<Tagged> {
    if y.lo < x.lo && y.hi > x.hi then [Narrow(Tagged(y.lo, x.lo, y.tag)), Narrow(Tagged(x.hi, y.hi, y.tag))]
    else if y.lo < x.lo then [Tagged(y.lo, x.lo, y.tag)]
    else if y.hi > x.hi then [Tagged(x.hi, y.hi, y.tag)]
    else []
  }

  /** The elements x does not overlap, and the pieces of the others. */
  function Kept(list: seq<Tagged>, x: Tagged): seq<Tagged> {
    if list == [] then []
    else if list[0].hi <= x.lo then [list[0]] + Kept(list[1..], x)
    else if list[0].lo >= x.hi then list
    else if list[0].hi > x.hi then list[1..]
    else Kept(list[1..], x)
  }

  function Cut(list: seq<Tagged>, x: Tagged): seq<Tagged> {
    if list == [] then []
    else if list[0].hi <= x.lo then Cut(list[1..], x)
    else if list[0].lo >= x.hi then []
    else if list[0].hi > x.hi then Pieces(list[0], x)
    else Pieces(list[0], x) + Cut(list[1..], x)
  }

  function Added(list: seq<Tagged>, x: Tagged): seq<Tagged> {
    InsertAll(SetInsert(Kept(list, x), x), Cut(list, x))
  }

  class SkylineRangeDeleteFilter {
    var list: seq<Tagged>

    constructor ()
      ensures list == []
    {
      list := [];
    }

    /** Erases what x overlaps and returns the pieces to put back. */
    method EraseOverlapped(x: Tagged) returns (pieces: seq<Tagged>)
      modifies this
      ensures list == Kept(old(list), x) && pieces == Cut(old(list), x)
    {
      // The iterator stands at the front of rest.
      var passed, rest := [], list;
      pieces := [];
      while rest != []
        invariant list == passed + rest
        invariant Kept(old(list), x) == passed + Kept(rest, x)
        invariant Cut(old(list), x) == pieces + Cut(rest, x)
        decreases |rest|
      {
        var y := rest[0];
        if y.hi <= x.lo {
          PassOver(passed, rest, x);
          passed, rest := passed + [y], rest[1..];
        } else if y.lo >= x.hi {
          return;
        } else {
          pieces := pieces + Pieces(y, x);
          rest := rest[1..];
          list := passed + rest;
          if y.hi > x.hi {
            return;
          }
        }
      }
    }

    /** addRangeDeleteWithTimetag. */
    method Add(x: Tagged)
      modifies this
      ensures list == Added(old(list), x)
    {
      var pieces := EraseOverlapped(x);
      list := SetInsert(list, x);
      while pieces != []
        invariant InsertAll(list, pieces) == Added(old(list), x)
        decreases |pieces|
      {
        list := SetInsert(list, pieces[0]);
        pieces := pieces[1..];
      }
    }
  }

  lemma PassOver(passed: seq<Tagged>, rest: seq<Tagged>, x: Tagged)
    requires rest != [] && rest[0].hi <= x.lo
    ensures passed + rest == (passed + [rest[0]]) + rest[1..]
    ensures passed + Kept(rest, x) == (passed + [rest[0]]) + Kept(rest[1..], x)
  {
  }

  // ---- The list after an insertion, written from left to right ----

  /** Neighbours touch at most in their end keys, and no two elements are equal. */
  predicate Lined(list: seq<Tagged>) {
    list != [] ==>
      && list[0].lo <= list[0].hi
      && (|list| > 1 ==> list[0].hi <= list[1].lo && list[0].lo < list[1].hi)
      && Lined(list[1..])
  }

  /** What is left of an element around x on its two sides. */
  function Front(y: Tagged, x: Tagged): Tagged {
    Tagged(y.lo, x.lo, y.tag)
  }

  function Back(y: Tagged, x: Tagged): Tagged {
    Tagged(x.hi, y.hi, y.tag)
  }

  predicate Around(y: Tagged, x: Tagged) {
    y.lo < x.lo && x.hi < y.hi
  }

  /** Where x cuts an element in two, both pieces fit into ints. */
  predicate CutFits(list: seq<Tagged>, x: Tagged) {
    forall y :: y in list && Around(y, x) ==> Fits(Front(y, x)) && Fits(Back(y, x))
  }

  predicate AllFit(list: seq<Tagged>) {
    list != [] ==> Fits(list[0]) && AllFit(list[1..])
  }

  /** list starts at b or later. */
  predicate From(list: seq<Tagged>, b: int) {
    list != [] ==> list[0].lo >= b
  }

  /** What is left of list behind x. */
  function Absorbed(list: seq<Tagged>, x: Tagged): seq<Tagged> {
    if list == [] || list[0].lo >= x.hi then list
    else if list[0].hi > x.hi then [Tagged(x.hi, list[0].hi, list[0].tag)] + list[1..]
    else Absorbed(list[1..], x)
  }

  function Inserted(list: seq<Tagged>, x: Tagged): seq<Tagged> {
    if list == [] then [x]
    else if list[0].hi <= x.lo then
      if list[0].lo == x.hi then list else [list[0]] + Inserted(list[1..], x)
    else if list[0].lo < x.lo then [Tagged(list[0].lo, x.lo, list[0].tag), x] + Absorbed(list, x)
    else [x] + Absorbed(list, x)
  }

  lemma {:induction false} InsertAllPast(y: Tagged, list: seq<Tagged>, xs: seq<Tagged>)
    requires forall x :: x in xs ==> Less(y, x)
    ensures InsertAll([y] + list, xs) == [y] + InsertAll(list, xs)
    decreases |xs|
  {
    if xs != [] {
      assert SetInsert([y] + list, xs[0]) == [y] + SetInsert(list, xs[0]);
      InsertAllPast(y, SetInsert(list, xs[0]), xs[1..]);
    }
  }

  lemma {:induction false} CutPast(y: Tagged, list: seq<Tagged>, x: Tagged)
    requires y.lo <= y.hi <= x.lo <= x.hi && Lined(list) && From(list, y.hi) && CutFits(list, x)
    ensures forall c :: c in Cut(list, x) ==> Less(y, c)
  {
    if list != [] {
      assert list[0] in list;
      CutPast(y, list[1..], x);
    }
  }

  /** Behind the front of x: the pieces land right after x. */
  lemma {:induction false} AbsorbedIs(list: seq<Tagged>, x: Tagged)
    requires x.lo <= x.hi && Lined(list)
    requires list != [] ==> x.lo <= list[0].lo && x.lo < list[0].hi
    ensures SetInsert(Kept(list, x), x) == [x] + Kept(list, x)
    ensures InsertAll([x] + Kept(list, x), Cut(list, x)) == [x] + Absorbed(list, x)
  {
    if list != [] && list[0].lo < x.hi {
      var y, rest := list[0], list[1..];
      if y.hi > x.hi {
        var tail := Tagged(x.hi, y.hi, y.tag);
        assert SetInsert(rest, tail) == [tail] + rest;
        assert SetInsert([x] + rest, tail) == [x] + SetInsert(rest, tail);
        assert InsertAll(SetInsert([x] + rest, tail), []) == [x] + [tail] + rest;
      } else {
        AbsorbedIs(rest, x);
        assert [] + Cut(rest, x) == Cut(rest, x);
      }
    }
  }

  /** The insertion of x with its pieces gives the list written from left to right. */
  lemma {:induction false} AddedIs(list: seq<Tagged>, x: Tagged)
    requires x.lo <= x.hi && Lined(list) && CutFits(list, x)
    ensures Added(list, x) == Inserted(list, x)
  {
    if list == [] {
    } else if list[0].hi <= x.lo {
      var y, rest := list[0], list[1..];
      if y.lo == x.hi {
        assert Kept(rest, x) == rest && Cut(rest, x) == [];
      } else {
        AddedIs(rest, x);
        CutPast(y, rest, x);
        InsertAllPast(y, SetInsert(Kept(rest, x), x), Cut(rest, x));
      }
    } else if list[0].lo < x.lo {
      HeadCut(list, x);
    } else {
      AbsorbedIs(list, x);
    }
  }

  lemma HeadCut(list: seq<Tagged>, x: Tagged)
    requires x.lo <= x.hi && Lined(list) && CutFits(list, x)
    requires list != [] && list[0].lo < x.lo < list[0].hi
    ensures Added(list, x) == Inserted(list, x)
  {
    if list[0].hi > x.hi {
      assert list[0] in list;
      HeadAround(list, x);
    } else {
      HeadFront(list, x);
    }
  }

  lemma HeadAround(list: seq<Tagged>, x: Tagged)
    requires x.lo <= x.hi && Lined(list) && list != [] && Around(list[0], x)
    requires Fits(Front(list[0], x)) && Fits(Back(list[0], x))
    ensures Added(list, x) == Inserted(list, x)
  {
    var y, rest := list[0], list[1..];
    var head, tail := Front(y, x), Back(y, x);
    assert Cut(list, x) == [head, tail] && Kept(list, x) == rest;
    InsertTwo([x] + rest, head, tail);
    assert SetInsert(rest, x) == [x] + rest;
    CutInTwo(head, x, tail, rest);
  }

  lemma HeadFront(list: seq<Tagged>, x: Tagged)
    requires x.lo <= x.hi && Lined(list) && list != [] && CutFits(list[1..], x)
    requires list[0].lo < x.lo < list[0].hi <= x.hi
    ensures Added(list, x) == Inserted(list, x)
  {
    var y, rest := list[0], list[1..];
    var head, kept, cut := Front(y, x), [x] + Kept(rest, x), Cut(rest, x);
    AbsorbedIs(rest, x);
    CutPast(head, rest, x);
    InsertAllPast(head, kept, cut);
    assert SetInsert(kept, head) == [head] + kept;
    assert ([head] + cut)[1..] == cut;
  }

  lemma InsertTwo(list: seq<Tagged>, a: Tagged, b: Tagged)
    ensures InsertAll(list, [a, b]) == SetInsert(SetInsert(list, a), b)
  {
    var mid := SetInsert(list, a);
    assert [a, b][1..] == [b] && [b][1..] == [];
    assert InsertAll(mid, [b]) == InsertAll(SetInsert(mid, b), []);
  }

  lemma CutInTwo(head: Tagged, x: Tagged, tail: Tagged, rest: seq<Tagged>)
    requires head.lo < head.hi == x.lo <= x.hi == tail.lo < tail.hi && From(rest, tail.hi) && Lined(rest)
    ensures SetInsert(SetInsert([x] + rest, head), tail) == [head, x] + ([tail] + rest)
  {
    assert SetInsert([x] + rest, head) == [head] + ([x] + rest);
    assert SetInsert(rest, tail) == [tail] + rest;
    assert SetInsert([x] + rest, tail) == [x] + SetInsert(rest, tail);
    assert SetInsert([head] + ([x] + rest), tail) == [head] + SetInsert([x] + rest, tail);
  }

  lemma {:induction false} AfterFirst(list: seq<Tagged>)
    requires Lined(list) && list != []
    ensures forall y :: y in list[1..] ==> y.lo >= list[0].hi
  {
    if |list| > 1 {
      AfterFirst(list[1..]);
    }
  }

  lemma SetInsertIn(list: seq<Tagged>, x: Tagged, e: Tagged)
    requires e in SetInsert(list, x)
    ensures e in list || e == x
  {
  }

  lemma {:induction false} InsertAllIn(list: seq<Tagged>, xs: seq<Tagged>, e: Tagged)
    requires e in InsertAll(list, xs)
    ensures e in list || e in xs
    decreases |xs|
  {
    if xs != [] {
      InsertAllIn(SetInsert(list, xs[0]), xs[1..], e);
      if e in SetInsert(list, xs[0]) {
        SetInsertIn(list, xs[0], e);
      }
    }
  }

  /** An element around x is the only one that is cut. */
  lemma {:induction false} OnlyCut(list: seq<Tagged>, x: Tagged, y: Tagged)
    requires x.lo <= x.hi && Lined(list) && y in list && Around(y, x)
    ensures Cut(list, x) == Pieces(y, x)
    ensures Front(y, x) in Inserted(list, x) && Back(y, x) in Inserted(list, x)
    ensures forall e :: e in Kept(list, x) ==> e.hi <= y.lo || y.hi <= e.lo
  {
    AfterFirst(list);
    if y == list[0] {
      assert Absorbed(list, x) == [Back(y, x)] + list[1..];
    } else {
      OnlyCut(list[1..], x, y);
    }
  }

  /** Both pieces of an element around x have to be among the elements there are afterwards. */
  lemma PieceIn(list: seq<Tagged>, x: Tagged, y: Tagged, e: Tagged)
    requires x.lo <= x.hi && Lined(list) && y in list && Around(y, x) && Added(list, x) == Inserted(list, x)
    requires e == Front(y, x) || e == Back(y, x)
    ensures e in Pieces(y, x)
  {
    OnlyCut(list, x, y);
    InsertAllIn(SetInsert(Kept(list, x), x), Cut(list, x), e);
    if e in SetInsert(Kept(list, x), x) {
      SetInsertIn(Kept(list, x), x, e);
    }
  }

  /** Narrowing cannot turn one piece into the other. */
  lemma PiecesFit(x: Tagged, y: Tagged)
    requires x.lo <= x.hi && Around(y, x) && Front(y, x) in Pieces(y, x) && Back(y, x) in Pieces(y, x)
    ensures Fits(Front(y, x)) && Fits(Back(y, x))
  {
  }

  /** The insertion gives the list written from left to right if and only if x cuts no element in two, or
      both pieces fit into ints. */
  lemma AddedExact(list: seq<Tagged>, x: Tagged)
    requires x.lo <= x.hi && Lined(list)
    ensures Added(list, x) == Inserted(list, x) <==> CutFits(list, x)
  {
    if CutFits(list, x) {
      AddedIs(list, x);
    } else if Added(list, x) == Inserted(list, x) {
      var y :| y in list && Around(y, x) && !(Fits(Front(y, x)) && Fits(Back(y, x)));
      PieceIn(list, x, y, Front(y, x));
      PieceIn(list, x, y, Back(y, x));
      PiecesFit(x, y);
      assert false;
    }
  }

  // ---- What the list says about a key ----

  /** The tags of the elements that hold a key: inside the element, at its end, at both ends, at its start. */
  datatype Slots = Slots(inside: Option<int>, ending: Option<int>, single: Option<int>, starting: Option<int>)

  const NOTHING := Slots(None, None, None, None)

  function SlotOf(y: Tagged, k: int): Slots {
    if y.lo < k < y.hi then Slots(Some(y.tag), None, None, None)
    else if y.lo < k == y.hi then Slots(None, Some(y.tag), None, None)
    else if y.lo == k == y.hi then Slots(None, None, Some(y.tag), None)
    else if y.lo == k < y.hi then Slots(None, None, None, Some(y.tag))
    else NOTHING
  }

  function Join(a: Slots, b: Slots): Slots {
    Slots(OrElse(a.inside, b.inside), OrElse(a.ending, b.ending), OrElse(a.single, b.single), OrElse(a.starting, b.starting))
  }

  function ViewOf(list: seq<Tagged>, k: int): Slots {
    if list == [] then NOTHING else Join(SlotOf(list[0], k), ViewOf(list[1..], k))
  }

  /** What adding x does to the elements that hold k. */
  function Step(v: Slots, x: Tagged, k: int): Slots {
    if k < x.lo || k > x.hi then v
    else if x.lo < k < x.hi then Slots(Some(x.tag), None, None, None)
    else if x.lo < k then Slots(None, Some(x.tag), v.single, OrElse(v.starting, v.inside))
    else if k < x.hi then Slots(None, OrElse(v.ending, v.inside), v.single, Some(x.tag))
    else Slots(None, OrElse(v.ending, v.inside), OrElse(v.single, Some(x.tag)), OrElse(v.starting, v.inside))
  }

  lemma {:induction false} ViewFrom(list: seq<Tagged>, b: int, k: int)
    requires Lined(list) && From(list, b)
    ensures k <= b ==> ViewOf(list, k).inside == None && ViewOf(list, k).ending == None
    ensures k < b ==> ViewOf(list, k) == NOTHING
  {
    if list != [] {
      ViewFrom(list[1..], list[0].hi, k);
    }
  }

  lemma {:induction false} AbsorbedView(list: seq<Tagged>, x: Tagged, k: int)
    requires x.lo <= x.hi && Lined(list)
    requires list != [] ==> x.lo <= list[0].lo && x.lo < list[0].hi
    ensures var v := ViewOf(list, k);
            ViewOf(Absorbed(list, x), k) ==
            if k < x.hi then NOTHING
            else if k == x.hi then Slots(None, None, v.single, OrElse(v.starting, v.inside))
            else v
    ensures Lined(Absorbed(list, x)) && From(Absorbed(list, x), x.hi)
    ensures Absorbed(list, x) != [] ==> Absorbed(list, x)[0].hi > x.lo
  {
    if list != [] {
      if list[0].lo >= x.hi {
        ViewFrom(list, x.hi, k);
      } else if list[0].hi > x.hi {
        ViewFrom(list[1..], list[0].hi, k);
      } else {
        AbsorbedView(list[1..], x, k);
      }
    }
  }

  /** Adding x changes what the list says about every key as Step does. */
  lemma {:induction false} InsertedView(list: seq<Tagged>, x: Tagged, k: int)
    requires x.lo <= x.hi && Lined(list)
    ensures ViewOf(Inserted(list, x), k) == Step(ViewOf(list, k), x, k)
  {
    if list == [] {
    } else if list[0].hi <= x.lo {
      var rest := list[1..];
      if list[0].lo == x.hi {
        ViewFrom(rest, x.lo, k);
      } else {
        InsertedView(rest, x, k);
        assert Inserted(list, x)[1..] == Inserted(rest, x);
      }
    } else {
      FrontView(list, x, k);
    }
  }

  lemma FrontView(list: seq<Tagged>, x: Tagged, k: int)
    requires x.lo <= x.hi && Lined(list) && list != [] && x.lo < list[0].hi
    ensures ViewOf(Inserted(list, x), k) == Step(ViewOf(list, k), x, k)
  {
    var y, rest, behind := list[0], list[1..], Absorbed(list, x);
    ViewFrom(rest, y.hi, k);
    assert ViewOf([x] + behind, k) == Join(SlotOf(x, k), ViewOf(behind, k)) by {
      assert ([x] + behind)[1..] == behind;
    }
    if x.lo <= y.lo {
      AbsorbedView(list, x, k);
    } else {
      assert [y] + rest == list;
      HeadView(y, rest, x, k);
      var head := Tagged(y.lo, x.lo, y.tag);
      assert ([head, x] + behind)[1..] == [x] + behind;
    }
  }

  /** The first element is cut in front of x, and behind it as well if it ends later. */
  lemma HeadView(y: Tagged, rest: seq<Tagged>, x: Tagged, k: int)
    requires x.lo <= x.hi && y.lo < x.lo < y.hi && Lined(rest) && From(rest, y.hi) && (rest != [] ==> y.lo < rest[0].hi)
    ensures var behind := Absorbed([y] + rest, x);
            Join(SlotOf(Tagged(y.lo, x.lo, y.tag), k), Join(SlotOf(x, k), ViewOf(behind, k))) ==
            Step(Join(SlotOf(y, k), ViewOf(rest, k)), x, k)
  {
    assert ([y] + rest)[1..] == rest;
    ViewFrom(rest, y.hi, k);
    if y.hi <= x.hi {
      AbsorbedView(rest, x, k);
    } else {
      var tail := Tagged(x.hi, y.hi, y.tag);
      assert ([tail] + rest)[1..] == rest;
    }
  }

  lemma {:induction false} InsertedLined(list: seq<Tagged>, x: Tagged)
    requires x.lo <= x.hi && Lined(list)
    ensures Lined(Inserted(list, x)) && Inserted(list, x) != []
    ensures Inserted(list, x)[0].lo >= (if list == [] || x.lo < list[0].lo then x.lo else list[0].lo)
    ensures Inserted(list, x)[0].hi >= (if list == [] || x.lo < list[0].hi then x.lo else list[0].hi)
  {
    if list == [] {
    } else if list[0].hi <= x.lo {
      if list[0].lo != x.hi {
        InsertedLined(list[1..], x);
      }
    } else {
      var behind := Absorbed(list, x);
      if x.lo <= list[0].lo {
        AbsorbedView(list, x, 0);
        assert ([x] + behind)[1..] == behind;
      } else {
        if list[0].hi <= x.hi {
          AbsorbedView(list[1..], x, 0);
        }
        var head := Tagged(list[0].lo, x.lo, list[0].tag);
        assert Lined([x] + behind);
        assert ([head, x] + behind)[1..] == [x] + behind;
      }
    }
  }

  /** What the lookup reads of the elements that hold a key. */
  predicate Answer(v: Slots, t: int) {
    var at, before := OrElse(v.single, v.starting), OrElse(v.inside, v.ending);
    (at.Some? ==> t > at.value) && (before.Some? ==> t > before.value)
  }

  /** isEntryAliveWithTimetag: the element at the lower bound of k, and the one before it. */
  method IsEntryAlive(list: seq<Tagged>, k: int, t: int) returns (alive: bool)
    requires Lined(list)
    ensures alive <==> Answer(ViewOf(list, k), t)
  {
    var previous: Option<Tagged>, rest := None, list;
    while rest != [] && Less(rest[0], Tagged(k, k, t))
      invariant Lined(rest)
      invariant previous.Some? ==> previous.value.lo <= previous.value.hi && previous.value.lo < k && From(rest, previous.value.hi)
      invariant ViewOf(list, k) == Join(if previous.Some? then SlotOf(previous.value, k) else NOTHING, ViewOf(rest, k))
      decreases |rest|
    {
      previous, rest := Some(rest[0]), rest[1..];
    }
    ViewFrom(rest, if rest == [] then k else rest[0].lo, k);
    if rest != [] && rest[0].lo == k {
      ViewFrom(rest[1..], rest[0].hi, k);
      if previous.None? {
        return t > rest[0].tag;
      }
      if t <= rest[0].tag {
        return false;
      }
    }
    if previous.None? || k > previous.value.hi {
      return true;
    }
    return t > previous.value.tag;
  }

  // ---- Histories ----

  /** The list after a history of range deletes. */
  function Build(h: seq<Tagged>): seq<Tagged> {
    if h == [] then [] else Added(Build(h[..|h| - 1]), h[|h| - 1])
  }

  /** Proper ranges that fit into an int, with rising tags. */
  predicate History(h: seq<Tagged>) {
    && (forall i :: 0 <= i < |h| ==> h[i].lo <= h[i].hi && Fits(h[i]))
    && (forall i, j :: 0 <= i < j < |h| ==> h[i].tag < h[j].tag)
  }

  predicate Hits(x: Tagged, k: int) {
    x.lo <= k <= x.hi
  }

  /** x deletes k and its neighbours on both sides. */
  predicate Spans(x: Tagged, k: int) {
    x.lo < k < x.hi
  }

  /** A range delete of the history with tag t or later holds k. */
  ghost predicate Dead(h: seq<Tagged>, k: int, t: int) {
    exists i :: 0 <= i < |h| && Hits(h[i], k) && t <= h[i].tag
  }

  /** The newest range delete of k starts at k, and a delete of k alone came before it, with none
      in between that reaches over k. */
  ghost predicate Hidden(h: seq<Tagged>, k: int) {
    exists i, j :: 0 <= i < j < |h| && HiddenBy(h, k, i, j)
  }

  ghost predicate HiddenBy(h: seq<Tagged>, k: int, i: nat, j: nat)
    requires i < j < |h|
  {
    && h[i].lo == k == h[i].hi && h[j].lo == k
    && (forall m :: i < m < j ==> !Spans(h[m], k))
    && (forall m :: j < m < |h| ==> !Hits(h[m], k))
  }

  /** A delete of k alone that no later delete reaches over. */
  ghost predicate Single(h: seq<Tagged>, k: int) {
    exists i :: 0 <= i < |h| && SingleAt(h, k, i)
  }

  ghost predicate SingleAt(h: seq<Tagged>, k: int, i: nat)
    requires i < |h|
  {
    h[i].lo == k == h[i].hi && forall m :: i < m < |h| ==> !Spans(h[m], k)
  }

  function Steps(h: seq<Tagged>, k: int): Slots {
    if h == [] then NOTHING else Step(Steps(h[..|h| - 1], k), h[|h| - 1], k)
  }

  lemma {:induction false} AddedFits(list: seq<Tagged>, x: Tagged)
    requires x.lo <= x.hi && Lined(list) && AllFit(list) && Fits(x)
    ensures AllFit(Inserted(list, x))
  {
    if list == [] {
    } else if list[0].hi <= x.lo {
      if list[0].lo != x.hi {
        AddedFits(list[1..], x);
      }
    } else {
      AbsorbedFits(list, x);
      var behind := Absorbed(list, x);
      assert ([x] + behind)[1..] == behind;
      if list[0].lo < x.lo {
        var head := Tagged(list[0].lo, x.lo, list[0].tag);
        assert ([head, x] + behind)[1..] == [x] + behind;
      }
    }
  }

  lemma {:induction false} FitCut(list: seq<Tagged>, x: Tagged)
    requires AllFit(list) && Fits(x)
    ensures CutFits(list, x)
  {
    if list != [] {
      FitCut(list[1..], x);
    }
  }

  lemma {:induction false} AbsorbedFits(list: seq<Tagged>, x: Tagged)
    requires AllFit(list) && Fits(x)
    ensures AllFit(Absorbed(list, x))
  {
    if list != [] && list[0].lo < x.hi && list[0].hi <= x.hi {
      AbsorbedFits(list[1..], x);
    }
  }

  lemma {:induction false} BuildOk(h: seq<Tagged>)
    requires History(h)
    ensures Lined(Build(h)) && AllFit(Build(h))
    ensures forall k :: ViewOf(Build(h), k) == Steps(h, k)
    decreases |h|
  {
    if h != [] {
      var before, x := h[..|h| - 1], h[|h| - 1];
      BuildOk(before);
      FitCut(Build(before), x);
      AddedIs(Build(before), x);
      AddedFits(Build(before), x);
      InsertedLined(Build(before), x);
      forall k ensures ViewOf(Build(h), k) == Steps(h, k) {
        InsertedView(Build(before), x, k);
      }
    }
  }

  lemma SingleGrows(h: seq<Tagged>, x: Tagged, k: int)
    ensures Single(h + [x], k) <==> x.lo == k == x.hi || (Single(h, k) && !Spans(x, k))
  {
    var g := h + [x];
    if x.lo == k == x.hi {
      assert SingleAt(g, k, |h|);
    }
    if Single(h, k) && !Spans(x, k) {
      var i :| 0 <= i < |h| && SingleAt(h, k, i);
      assert SingleAt(g, k, i);
    }
    if Single(g, k) && !(x.lo == k == x.hi) {
      var i :| 0 <= i < |g| && SingleAt(g, k, i);
      assert SingleAt(h, k, i) by {
        assert forall m :: i < m < |h| ==> h[m] == g[m];
      }
      assert g[|h|] == x;
    }
  }

  lemma HiddenGrows(h: seq<Tagged>, x: Tagged, k: int)
    requires x.lo <= x.hi
    ensures Hidden(h + [x], k) <==> if Hits(x, k) then x.lo == k && Single(h, k) else Hidden(h, k)
  {
    var g := h + [x];
    if Hits(x, k) && x.lo == k && Single(h, k) {
      var i :| 0 <= i < |h| && SingleAt(h, k, i);
      assert HiddenBy(g, k, i, |h|);
    }
    if !Hits(x, k) && Hidden(h, k) {
      var i, j :| 0 <= i < j < |h| && HiddenBy(h, k, i, j);
      assert HiddenBy(g, k, i, j);
    }
    if Hidden(g, k) {
      var i, j :| 0 <= i < j < |g| && HiddenBy(g, k, i, j);
      HiddenShrinks(h, x, k, i, j);
    }
  }

  lemma HiddenShrinks(h: seq<Tagged>, x: Tagged, k: int, i: nat, j: nat)
    requires x.lo <= x.hi && i < j <= |h| && HiddenBy(h + [x], k, i, j)
    ensures if Hits(x, k) then x.lo == k && Single(h, k) else Hidden(h, k)
  {
    var g := h + [x];
    assert forall m :: 0 <= m < |h| ==> h[m] == g[m];
    assert g[|h|] == x;
    if j == |h| {
      assert SingleAt(h, k, i);
    } else {
      assert HiddenBy(h, k, i, j);
    }
  }

  /** The tag of the newest range delete that holds k. */
  function Newest(h: seq<Tagged>, k: int): Option<int> {
    if h == [] then None
    else if Hits(h[|h| - 1], k) then Some(h[|h| - 1].tag)
    else Newest(h[..|h| - 1], k)
  }

  lemma {:induction false} NewestIs(h: seq<Tagged>, k: int, t: int)
    requires History(h)
    ensures Dead(h, k, t) <==> Newest(h, k).Some? && t <= Newest(h, k).value
    decreases |h|
  {
    if h != [] {
      var before, x := h[..|h| - 1], h[|h| - 1];
      NewestIs(before, k, t);
      if Dead(before, k, t) {
        var i :| 0 <= i < |before| && Hits(before[i], k) && t <= before[i].tag;
        assert Hits(h[i], k) && t <= h[i].tag;
      }
      if Dead(h, k, t) && !Hits(x, k) {
        var i :| 0 <= i < |h| && Hits(h[i], k) && t <= h[i].tag;
        assert Hits(before[i], k) && t <= before[i].tag;
      }
    }
  }

  predicate AtMost(a: Option<int>, n: Option<int>) {
    a.Some? ==> n.Some? && a.value <= n.value
  }

  /** The slots hold no tag above the newest one, and what the lookup reads is the newest unless hidden. */
  predicate Reads(v: Slots, newest: Option<int>, hidden: bool) {
    && AtMost(v.inside, newest) && AtMost(v.ending, newest) && AtMost(v.single, newest) && AtMost(v.starting, newest)
    && (v.inside.Some? ==> v.single.None?)
    && var at, before := OrElse(v.single, v.starting), OrElse(v.inside, v.ending);
       if hidden then newest.Some? && (at.Some? ==> at.value < newest.value) && (before.Some? ==> before.value < newest.value)
       else newest.Some? ==> at == newest || before == newest
  }

  lemma StepReads(v: Slots, x: Tagged, k: int, newest: Option<int>, hidden: bool)
    requires Reads(v, newest, hidden) && x.lo <= x.hi && (newest.Some? ==> newest.value < x.tag)
    ensures Step(v, x, k).single.Some? <==> x.lo == k == x.hi || (v.single.Some? && !Spans(x, k))
    ensures Reads(Step(v, x, k), if Hits(x, k) then Some(x.tag) else newest,
                  if Hits(x, k) then x.lo == k && v.single.Some? else hidden)
  {
  }

  /** Along a history, the slots read the newest tag of k exactly while it is not hidden. */
  lemma {:induction false} StepsRead(h: seq<Tagged>, k: int)
    requires History(h)
    ensures Steps(h, k).single.Some? <==> Single(h, k)
    ensures Reads(Steps(h, k), Newest(h, k), Hidden(h, k))
    decreases |h|
  {
    if h != [] {
      var before, x := h[..|h| - 1], h[|h| - 1];
      assert before + [x] == h;
      StepsRead(before, k);
      SingleGrows(before, x, k);
      HiddenGrows(before, x, k);
      NewestBelow(h, k);
      StepReads(Steps(before, k), x, k, Newest(before, k), Hidden(before, k));
    }
  }

  lemma NewestBelow(h: seq<Tagged>, k: int)
    requires History(h) && h != []
    ensures var n := Newest(h[..|h| - 1], k); n.Some? ==> n.value < h[|h| - 1].tag
  {
    var before := h[..|h| - 1];
    var n := Newest(before, k);
    if n.Some? {
      NewestIs(before, k, n.value);
      var i :| 0 <= i < |before| && Hits(before[i], k) && n.value <= before[i].tag;
      assert before[i] == h[i];
    }
  }

  /** The tag of the newest delete of k that the lookup gets to see: one that starts at k comes in behind an
      earlier delete of k alone. */
  ghost function NewestSeen(h: seq<Tagged>, k: int): Option<int> {
    if h == [] then None
    else
      var before, x := h[..|h| - 1], h[|h| - 1];
      if Hits(x, k) && !(x.lo == k && Single(before, k)) then Some(x.tag) else NewestSeen(before, k)
  }

  /** The newer of the two tags that the lookup compares with is seen. */
  predicate Sees(v: Slots, seen: Option<int>) {
    var at, before := OrElse(v.single, v.starting), OrElse(v.inside, v.ending);
    AtMost(at, seen) && AtMost(before, seen) && (seen.Some? ==> at == seen || before == seen)
  }

  lemma StepSees(v: Slots, x: Tagged, k: int, newest: Option<int>, hidden: bool, seen: Option<int>)
    requires Reads(v, newest, hidden) && Sees(v, seen) && x.lo <= x.hi && (newest.Some? ==> newest.value < x.tag)
    ensures Sees(Step(v, x, k), if Hits(x, k) && !(x.lo == k && v.single.Some?) then Some(x.tag) else seen)
  {
  }

  lemma {:induction false} StepsSee(h: seq<Tagged>, k: int)
    requires History(h)
    ensures Sees(Steps(h, k), NewestSeen(h, k))
    decreases |h|
  {
    if h != [] {
      var before, x := h[..|h| - 1], h[|h| - 1];
      StepsRead(before, k);
      StepsSee(before, k);
      NewestBelow(h, k);
      StepSees(Steps(before, k), x, k, Newest(before, k), Hidden(before, k), NewestSeen(before, k));
    }
  }

  /** For every key and tag: the filter lets an entry live if and only if it is newer than the newest delete
      of its key that the lookup gets to see. */
  lemma SkylineAnswers(h: seq<Tagged>, k: int, t: int)
    requires History(h)
    ensures Answer(ViewOf(Build(h), k), t) <==> (NewestSeen(h, k).Some? ==> t > NewestSeen(h, k).value)
  {
    BuildOk(h);
    StepsSee(h, k);
  }

  /** The tag lies at or below the newest delete of k, but above the newest one seen. */
  ghost predicate Missed(h: seq<Tagged>, k: int, t: int) {
    AtMost(Some(t), Newest(h, k)) && !AtMost(Some(t), NewestSeen(h, k))
  }

  /** Exactly the entries between the two are wrongly let live; a live entry is never taken for dead. */
  lemma SkylineWrong(h: seq<Tagged>, k: int, t: int)
    requires History(h)
    ensures (Answer(ViewOf(Build(h), k), t) <==> !Dead(h, k, t)) <==> !Missed(h, k, t)
    ensures AtMost(NewestSeen(h, k), Newest(h, k))
  {
    SkylineAnswers(h, k, t);
    NewestIs(h, k, t);
    StepsRead(h, k);
    StepsSee(h, k);
  }

  /** The filter tells for every tag whether k is alive, if and only if the newest delete of k is not hidden. */
  lemma SkylineExact(h: seq<Tagged>, k: int)
    requires History(h)
    ensures (forall t :: Answer(ViewOf(Build(h), k), t) <==> !Dead(h, k, t)) <==> !Hidden(h, k)
  {
    BuildOk(h);
    StepsRead(h, k);
    forall t ensures Dead(h, k, t) <==> Newest(h, k).Some? && t <= Newest(h, k).value {
      NewestIs(h, k, t);
    }
    if Hidden(h, k) {
      assert Dead(h, k, Newest(h, k).value) && Answer(ViewOf(Build(h), k), Newest(h, k).value);
    }
  }

  /** Only a key whose newest delete is hidden has entries between the two. */
  lemma MissedHidden(h: seq<Tagged>, k: int, t: int)
    requires History(h) && Missed(h, k, t)
    ensures Hidden(h, k)
  {
    SkylineWrong(h, k, t);
    SkylineExact(h, k);
  }

  /** Deleting key 5 and then the keys 5 to 7 leaves key 5 alive for an entry older than the second delete. */
  lemma HiddenExample()
    ensures var h := [Tagged(5, 5, 1), Tagged(5, 7, 3)];
            History(h) && Dead(h, 5, 2) && Answer(ViewOf(Build(h), 5), 2)
  {
    var h := [Tagged(5, 5, 1), Tagged(5, 7, 3)];
    assert Hits(h[1], 5);
    assert HiddenBy(h, 5, 0, 1);
    BuildOk(h);
    assert h[..1] == [Tagged(5, 5, 1)] && h[..1][..0] == [];
    assert Steps(h[..1], 5) == Slots(None, None, Some(1), None);
  }

  /** Cutting a range in two loses an end key that does not fit into an int. */
  lemma WideExample()
    ensures var h := [Tagged(0, 0x1_0000_0000, 1), Tagged(10, 20, 2)];
            Dead(h, 30, 1) && Answer(ViewOf(Build(h), 30), 1)
  {
    var wide, x := Tagged(0, 0x1_0000_0000, 1), Tagged(10, 20, 2);
    var h := [wide, x];
    assert Hits(h[0], 30);
    assert h[..1] == [wide] && h[..1][..0] == [];
    assert Build([wide]) == [wide] by {
      assert [wide][..0] == [];
      assert Build([]) == [] && Kept([], wide) == [] && Cut([], wide) == [];
    }
    assert Pieces(wide, x) == [Tagged(0, 10, 1), Tagged(20, 0, 1)];
    assert [wide][1..] == [];
    assert Kept([wide], x) == [] && Cut([wide], x) == [Tagged(0, 10, 1), Tagged(20, 0, 1)];
    InsertTwo([x], Tagged(0, 10, 1), Tagged(20, 0, 1));
    assert SetInsert([x], Tagged(0, 10, 1)) == [Tagged(0, 10, 1), x];
    assert [Tagged(0, 10, 1), x][1..] == [x] && [x][1..] == [];
    assert SetInsert([x], Tagged(20, 0, 1)) == [x, Tagged(20, 0, 1)];
    var built := [Tagged(0, 10, 1), x, Tagged(20, 0, 1)];
    assert Build(h) == built;
    assert built[1..] == [x, Tagged(20, 0, 1)] && [x, Tagged(20, 0, 1)][1..] == [Tagged(20, 0, 1)] && [Tagged(20, 0, 1)][1..] == [];
    assert ViewOf([Tagged(20, 0, 1)], 30) == NOTHING && ViewOf([x, Tagged(20, 0, 1)], 30) == NOTHING;
  }
}
