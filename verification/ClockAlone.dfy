/**
 The steps of one slot against the table in sequential use: a thread whose operation is not interrupted leaves the
 slot as the operation of the table does (`ClockSlot` against `ClockTable`).
 */
module ClockAlone {
  import opened ClockMeta
  import opened ClockSlot
  import Probing
  import ClockTable

  /** The next step of an operation under way. */
  function NextAction(t: Thread): Action
    requires !t.pc.Idle?
  {
    match t.pc
    case Checking(_, _, _) => Check
    case Undoing(_) => Undo
    case Boosting(_, _) => Boost
    case Crediting(_) => Credit
    case Building(_, _, _) => Build
    case Dropping(_) => ReleaseTry(false)
    case Hiding => HideEntry
    case Erasing(_) => EraseTry(false)
    case Clocking(_) => ClockTry
    case Sweeping(_) => SweepTry
    case Freeing => Free
  }

  /** How many steps are left at most. */
  function StepsLeft(pc: Pc): nat {
    match pc
    case Idle => 0
    case Undoing(_) => 1
    case Crediting(_) => 1
    case Building(_, _, _) => 1
    case Freeing => 1
    case Dropping(_) => 2
    case Erasing(_) => 2
    case Clocking(_) => 2
    case Sweeping(_) => 2
    case Hiding => 3
    case Checking(_, _, _) => 4
    case Boosting(_, _) => 5
  }

  /** The thread goes on alone to the end of its operation. */
  function Finish(s: Slot, t: Thread): (Slot, Thread)
    decreases StepsLeft(t.pc)
  {
    if t.pc.Idle? then (s, t)
    else
      var (s', t') := Do(s, t, NextAction(t));
      if StepsLeft(t'.pc) < StepsLeft(t.pc) then Finish(s', t') else (s', t')
  }

  /** A whole operation alone. */
  function Alone(s: Slot, t: Thread, a: Action): (Slot, Thread)
    requires Enabled(t, a) && t.pc.Idle?
  {
    var (s', t') := Do(s, t, a);
    Finish(s', t')
  }

  /** One step on the way to the end. */
  lemma GoOn(s: Slot, t: Thread) returns (s': Slot, t': Thread)
    ensures t.pc.Idle? ==> s' == s && t' == t
    ensures !t.pc.Idle? ==> (s', t') == Do(s, t, NextAction(t))
    ensures t.pc.Idle? || StepsLeft(t'.pc) < StepsLeft(t.pc) ==> Finish(s, t) == Finish(s', t')
  {
    s', t' := s, t;
    if !t.pc.Idle? {
      var next := Do(s, t, NextAction(t));
      s', t' := next.0, next.1;
    }
  }

  /** The meta word shows what the table says of a slot; the counters of an empty slot say nothing. */
  predicate Shows(m: Meta, x: ClockTable.Slot) {
    match x
    case Empty => m.state.Empty?
    case Entry(_, _, visible, acquires, releases) => m == Meta(if visible then Visible else Invisible, acquires, releases)
  }

  /** And the key that is asked for is that of the entry in the one if it is in the other. */
  predicate SameEntry(s: Slot, x: ClockTable.Slot, want: int, k: Probing.Key) {
    Shows(s.meta, x) && (x.Entry? ==> x.releases <= x.acquires < COUNTER && (s.key == want <==> x.key == k))
  }

  lemma LookupAlone(s: Slot, t: Thread, x: ClockTable.Slot, want: int, k: Probing.Key)
    requires t.pc.Idle? && SameEntry(s, x, want, k)
    ensures var (s', t') := Alone(s, t, LookupStart(want));
            && t'.pc.Idle? && t'.held == t.held + (if x.Has(k) then 1 else 0) && s'.key == s.key && s'.gen == s.gen
            && Shows(s'.meta, if x.Has(k) then x.(acquires := x.acquires + 1) else x)
  {
    var first := Do(s, t, LookupStart(want));
    var s1, t1 := GoOn(first.0, first.1);
    var s2, t2 := GoOn(s1, t1);
  }

  lemma ReleaseAlone(s: Slot, t: Thread, x: ClockTable.Slot, useful: bool, erase: bool)
    requires t.pc.Idle? && t.held >= 1 && Shows(s.meta, x) && x.Entry? && x.releases < x.acquires < COUNTER
    ensures var (s', t') := Alone(s, t, ReleaseStart(useful, erase));
            && t'.pc.Idle? && t'.held == t.held - 1
            && Shows(s'.meta, if x.acquires == x.releases + 1 && (erase || !x.visible) then ClockTable.Empty else ClockTable.Dropped(x, useful))
  {
    var first := Do(s, t, ReleaseStart(useful, erase));
    var s1, t1 := GoOn(first.0, first.1);
    var s2, t2 := GoOn(s1, t1);
  }

  lemma EraseAlone(s: Slot, t: Thread, x: ClockTable.Slot, want: int, k: Probing.Key)
    requires t.pc.Idle? && SameEntry(s, x, want, k) && (x.Entry? ==> x.acquires + 1 < COUNTER)
    ensures var (s', t') := Alone(s, t, EraseStart(want));
            t'.pc.Idle? && t'.held == t.held && Shows(s'.meta, ClockTable.Erased(x, k))
  {
    var first := Do(s, t, EraseStart(want));
    var s1, t1 := GoOn(first.0, first.1);
    var s2, t2 := GoOn(s1, t1);
    var s3, t3 := GoOn(s2, t2);
    var s4, t4 := GoOn(s3, t3);
  }

  lemma ClockUpdateAlone(s: Slot, t: Thread, x: ClockTable.Slot)
    requires t.pc.Idle? && Shows(s.meta, x)
    ensures var (s', t') := Alone(s, t, ClockLoad); t'.pc.Idle? && t'.held == t.held && Shows(s'.meta, ClockTable.Clocked(x))
  {
    var first := Do(s, t, ClockLoad);
    var s1, t1 := GoOn(first.0, first.1);
    var s2, t2 := GoOn(s1, t1);
  }

  /** An insert builds its entry in an empty slot, boosts an entry of its key, and leaves every other as it is. */
  lemma InsertAlone(s: Slot, t: Thread, x: ClockTable.Slot, want: int, k: Probing.Key, charge: nat, countdown: nat, keep: bool)
    requires t.pc.Idle? && SameEntry(s, x, want, k) && 1 <= countdown <= 3
    ensures var (s', t') := Alone(s, t, InsertStart(want, countdown, keep));
            && t'.pc.Idle?
            && (x.Empty? ==> s'.key == want && s'.gen == s.gen + 1 && Shows(s'.meta, ClockTable.NewEntry(k, charge, countdown, keep)))
            && (x.Empty? && keep ==> t'.held == 1 && t'.gen == s'.gen)
            && (x.Entry? ==> s'.key == s.key && t'.held == t.held && Shows(s'.meta, if x.Has(k) then ClockTable.Boosted(x, countdown) else x))
  {
    var first := Do(s, t, InsertStart(want, countdown, keep));
    var s1, t1 := GoOn(first.0, first.1);
    var s2, t2 := GoOn(s1, t1);
    var s3, t3 := GoOn(s2, t2);
  }

  /** A sweep frees an entry exactly if it is not referenced. */
  lemma SweepAlone(s: Slot, t: Thread, x: ClockTable.Slot)
    requires t.pc.Idle? && Shows(s.meta, x) && (x.Entry? ==> x.releases <= x.acquires < COUNTER)
    ensures var (s', t') := Alone(s, t, SweepLoad);
            t'.pc.Idle? && Shows(s'.meta, if x.Referenced() then x else ClockTable.Empty)
  {
    var first := Do(s, t, SweepLoad);
    var s1, t1 := GoOn(first.0, first.1);
    var s2, t2 := GoOn(s1, t1);
  }
}
