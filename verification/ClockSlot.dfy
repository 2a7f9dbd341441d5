/**
 One slot of the clock cache table under any interleaving of threads (`HyperClockTable`).

 Every atomic operation on the slot's meta word is one action; what a thread does between two of
 them is part of the action that follows or precedes.  A thread counts the references it holds for its
 caller and remembers in `pc` where it is inside an operation.
 */
module ClockSlot {
  import opened ClockMeta

  /** The slot; gen counts the entries that have been built in it, key is the key of the last one. */
  datatype Slot = Slot(meta: Meta, gen: nat, key: int)

  datatype Purpose = ForLookup | ForInsert | ForErase

  datatype Pc =
    | Idle
    | Checking(n: nat, want: int, purpose: Purpose)  // holds n transient references, compares the key next
    | Undoing(n: nat)                                // takes n acquires back next
    | Boosting(n: nat, want: int)                    // insert: saw a visible entry, acquires n next
    | Crediting(n: nat)                              // insert: found its key, releases n next
    | Building(want: int, countdown: nat, keep: bool)  // insert: owns the slot
    | Dropping(seen: Meta)                           // release: tries to take the slot next
    | Hiding                                         // erase: found its key, hides the entry next
    | Erasing(seen: Meta)                            // erase: tries to take the slot next
    | Clocking(seen: Meta)                           // clock update: has read the word
    | Sweeping(seen: Meta)                           // erase unreferenced: has read the word
    | Freeing                                        // owns the slot, frees it next

  /** held references belong to entry gen; key is the key that was asked for when the last one was taken. */
  datatype Thread = Thread(pc: Pc, held: nat, gen: nat, key: int) {
    function Transient(): nat {
      match pc
      case Checking(n, _, _) => n
      case Undoing(n) => n
      case Crediting(n) => n
      case Hiding => 1
      case Erasing(_) => 1
      case _ => 0
    }

    function Refs(): nat {
      held + Transient()
    }

    function Owns(): nat {
      if pc.Building? || pc.Freeing? then 1 else 0
    }
  }

  datatype Action =
    | LookupStart(want: int)
    | InsertStart(want: int, countdown: nat, keep: bool)
    | Build
    | Boost
    | Check
    | Undo
    | Credit
    | TakeRef
    | ReleaseStart(useful: bool, erase: bool)
    | ReleaseTry(spurious: bool)
    | EraseStart(want: int)
    | HideEntry
    | EraseTry(spurious: bool)
    | ClockLoad
    | ClockTry
    | SweepLoad
    | SweepTry
    | Free

  /** Which action a thread can take: the next one of its operation, or the start of an operation.
      Callers reference and release only what they hold. */
  predicate Enabled(t: Thread, a: Action) {
    match a
    case LookupStart(_) => t.pc.Idle?
    case InsertStart(_, countdown, _) => t.pc.Idle? && 1 <= countdown <= 3
    case Build => t.pc.Building?
    case Boost => t.pc.Boosting?
    case Check => t.pc.Checking?
    case Undo => t.pc.Undoing?
    case Credit => t.pc.Crediting?
    case TakeRef => t.pc.Idle? && t.held >= 1
    case ReleaseStart(_, _) => t.pc.Idle? && t.held >= 1
    case ReleaseTry(_) => t.pc.Dropping?
    case EraseStart(_) => t.pc.Idle?
    case HideEntry => t.pc.Hiding?
    case EraseTry(_) => t.pc.Erasing?
    case ClockLoad => t.pc.Idle?
    case ClockTry => t.pc.Clocking?
    case SweepLoad => t.pc.Idle?
    case SweepTry => t.pc.Sweeping?
    case Free => t.pc.Freeing?
  }

  const TAKEN := Meta(Construction, 0, 0)

  function Refcount(m: Meta): int {
    (m.acquires - m.releases) % COUNTER
  }

  function WithMeta(s: Slot, m: Meta): Slot {
    s.(meta := m)
  }

  function At(t: Thread, pc: Pc): Thread {
    t.(pc := pc)
  }

  function Acquired(m: Meta, n: nat): Meta {
    m.(acquires := m.acquires + n)
  }

  /** n acquires taken back; the word would borrow from the release counter below zero. */
  function Unacquired(m: Meta, n: nat): Meta {
    m.(acquires := if n <= m.acquires then m.acquires - n else 0)
  }

  function Released(m: Meta, n: nat): Meta {
    m.(releases := m.releases + n)
  }

  /** After an acquire of n: what to do depends on the state the word had. */
  function AfterAcquire(t: Thread, s: Slot, n: nat, want: int, purpose: Purpose): Thread {
    if s.meta.state.Visible? then At(t.(gen := s.gen), Checking(n, want, purpose))
    else if s.meta.state.Invisible? then At(t.(gen := s.gen), Undoing(n))
    else At(t, Idle)
  }

  /** One action of a thread on the slot. */
  function Do(s: Slot, t: Thread, a: Action): (Slot, Thread)
    requires Enabled(t, a)
  {
    match a
    case LookupStart(want) => (WithMeta(s, Acquired(s.meta, 1)), AfterAcquire(t, s, 1, want, ForLookup))
    case EraseStart(want) => (WithMeta(s, Acquired(s.meta, 1)), AfterAcquire(t, s, 1, want, ForErase))
    case InsertStart(want, countdown, keep) =>
      if s.meta.state.Empty? then (WithMeta(s, s.meta.(state := Construction)), At(t, Building(want, countdown, keep)))
      else if s.meta.state.Visible? then (s, At(t, Boosting(countdown, want)))
      else (s, t)
    case Build =>
      var n, one := t.pc.countdown, if t.pc.keep then 1 else 0;
      var s' := Slot(Meta(Visible, n, if n >= one then n - one else 0), s.gen + 1, t.pc.want);
      if t.pc.keep then (s', Thread(Idle, 1, s.gen + 1, t.pc.want)) else (s', At(t, Idle))
    case Boost => (WithMeta(s, Acquired(s.meta, t.pc.n)), AfterAcquire(t, s, t.pc.n, t.pc.want, ForInsert))
    case Check =>
      if s.key != t.pc.want then (s, At(t, Undoing(t.pc.n)))
      else if t.pc.purpose.ForLookup? then (s, Thread(Idle, t.held + t.pc.n, t.gen, t.pc.want))
      else if t.pc.purpose.ForInsert? then (s, At(t, Crediting(t.pc.n)))
      else (s, At(t, Hiding))
    case Undo => (WithMeta(s, Unacquired(s.meta, t.pc.n)), At(t, Idle))
    case Credit => (WithMeta(s, Released(s.meta, t.pc.n)), At(t, Idle))
    case TakeRef => (WithMeta(s, Acquired(s.meta, 1)), t.(held := t.held + 1))
    case ReleaseStart(useful, erase) =>
      var m := if useful then Released(s.meta, 1) else Unacquired(s.meta, 1);
      var t' := t.(held := t.held - 1);
      (WithMeta(s, m), if erase || s.meta.state.Invisible? then At(t', Dropping(m)) else t')
    case ReleaseTry(spurious) =>
      var seen := t.pc.seen;
      if Refcount(seen) != 0 || !seen.state.Shareable() then (s, At(t, Idle))
      else if s.meta == seen && !spurious then (WithMeta(s, TAKEN), At(t, Freeing))
      else (s, At(t, Dropping(s.meta)))
    case HideEntry =>
      var m := if s.meta.state.Visible? then s.meta.(state := Invisible) else s.meta;
      (WithMeta(s, m), At(t, Erasing(m)))
    case EraseTry(spurious) =>
      if Refcount(t.pc.seen) > 1 then (s, At(t, Undoing(1)))
      else if s.meta == t.pc.seen && !spurious then (WithMeta(s, TAKEN), At(t, Freeing))
      else (s, At(t, Erasing(s.meta)))
    case ClockLoad => (s, At(t, Clocking(s.meta)))
    case ClockTry =>
      var seen := t.pc.seen;
      if seen.acquires != seen.releases || !seen.state.Shareable() then (s, At(t, Idle))
      else if seen.state.Visible? && seen.acquires > 0 then
        var count := if seen.acquires - 1 < 2 then seen.acquires - 1 else 2;
        (if s.meta == seen then WithMeta(s, Meta(Visible, count, count)) else s, At(t, Idle))
      else if s.meta == seen then (WithMeta(s, TAKEN), At(t, Freeing))
      else (s, At(t, Idle))
    case SweepLoad => (s, At(t, Sweeping(s.meta)))
    case SweepTry =>
      var seen := t.pc.seen;
      if seen.state.Shareable() && Refcount(seen) == 0 && s.meta == seen then (WithMeta(s, TAKEN), At(t, Freeing))
      else (s, At(t, Idle))
    case Free => (WithMeta(s, Meta(Empty, 0, 0)), At(t, Idle))
  }

  // ---- One action ----

  /** The slot against the references and owners of all threads. */
  predicate SlotOk(s: Slot, refs: nat, owners: nat) {
    match s.meta.state
    case Empty => refs == 0 && owners == 0
    case Construction => refs == 0 && owners == 1
    case _ => s.meta.acquires - s.meta.releases == refs && owners == 0
  }

  /** References belong to the entry that is in the slot, and an eraser has seen it referenced. */
  predicate ThreadOk(s: Slot, t: Thread) {
    && (t.Refs() > 0 ==> t.gen == s.gen)
    && (t.held > 0 ==> t.key == s.key)
    && (t.pc.Checking? || t.pc.Undoing? || t.pc.Crediting? || t.pc.Boosting? ==> t.pc.n >= 1)
    && (t.pc.Checking? && t.pc.purpose.ForErase? ==> t.pc.n == 1)
    && (t.pc.Erasing? ==> t.pc.seen.state.Shareable() && Refcount(t.pc.seen) > 0)
    && (t.pc.Building? ==> 1 <= t.pc.countdown)
  }

  /** The assertions in the code: releasing and referencing find a counted entry with a reference,
      taking a reference back does not borrow, a slot is marked empty only by its owner, and an
      eraser sees its own reference. */
  predicate Asserted(s: Slot, t: Thread, a: Action)
    requires Enabled(t, a)
  {
    match a
    case TakeRef => s.meta.state.Shareable() && Refcount(s.meta) > 0
    case ReleaseStart(_, _) => s.meta.state.Shareable() && s.meta.acquires > s.meta.releases
    case Undo => s.meta.state.Shareable() && t.pc.n <= s.meta.acquires
    case Credit => s.meta.state.Shareable()
    case HideEntry => s.meta.state.Shareable()
    case EraseTry(_) => Refcount(t.pc.seen) > 0
    case Build => s.meta.state.Construction?
    case Free => s.meta.state.Construction?
    case _ => true
  }

  /** Every assertion of an action holds. */
  lemma ActionAsserts(s: Slot, t: Thread, a: Action, refs: nat, owners: nat)
    requires Enabled(t, a) && s.meta.Low() && SlotOk(s, refs, owners) && ThreadOk(s, t)
    requires t.Refs() <= refs && t.Owns() <= owners
    ensures Asserted(s, t, a)
  {
  }

  /** The actions that look at the word read before, or exchange it. */
  predicate Tries(a: Action) {
    a.Check? || a.ReleaseTry? || a.EraseTry? || a.ClockTry? || a.SweepTry?
  }

  lemma TryCounts(s: Slot, t: Thread, a: Action, refs: nat, owners: nat)
    requires Enabled(t, a) && s.meta.Low() && SlotOk(s, refs, owners) && ThreadOk(s, t) && Tries(a)
    requires t.Refs() <= refs && t.Owns() <= owners
    ensures var (s', t') := Do(s, t, a);
            SlotOk(s', refs - t.Refs() + t'.Refs(), owners - t.Owns() + t'.Owns())
  {
    ActionAsserts(s, t, a, refs, owners);
    match a
    case Check =>
    case ReleaseTry(_) =>
    case EraseTry(_) =>
    case ClockTry =>
    case SweepTry =>
  }

  /** One action keeps the slot in step with the references held. */
  lemma ActionCounts(s: Slot, t: Thread, a: Action, refs: nat, owners: nat)
    requires Enabled(t, a) && s.meta.Low() && SlotOk(s, refs, owners) && ThreadOk(s, t)
    requires t.Refs() <= refs && t.Owns() <= owners
    ensures var (s', t') := Do(s, t, a);
            SlotOk(s', refs - t.Refs() + t'.Refs(), owners - t.Owns() + t'.Owns())
  {
    if Tries(a) {
      TryCounts(s, t, a, refs, owners);
    } else {
      ActionAsserts(s, t, a, refs, owners);
    }
  }

  lemma ActionKeeps(s: Slot, t: Thread, a: Action, refs: nat, owners: nat)
    requires Enabled(t, a) && s.meta.Low() && SlotOk(s, refs, owners) && ThreadOk(s, t)
    requires t.Refs() <= refs && t.Owns() <= owners
    ensures ThreadOk(Do(s, t, a).0, Do(s, t, a).1)
  {
  }

  /** One action leaves the references of another thread valid. */
  lemma ActionLeaves(s: Slot, t: Thread, a: Action, u: Thread, refs: nat, owners: nat)
    requires Enabled(t, a) && s.meta.Low() && SlotOk(s, refs, owners) && ThreadOk(s, t) && ThreadOk(s, u)
    requires t.Refs() + u.Refs() <= refs && t.Owns() + u.Owns() <= owners
    ensures ThreadOk(Do(s, t, a).0, u)
  {
  }

  /** Whoever takes the slot to free it is the only one left with a reference to it. */
  lemma TakenAlone(s: Slot, t: Thread, a: Action, refs: nat, owners: nat)
    requires Enabled(t, a) && s.meta.Low() && SlotOk(s, refs, owners) && ThreadOk(s, t)
    requires t.Refs() <= refs && t.Owns() <= owners
    requires !t.pc.Freeing? && Do(s, t, a).1.pc.Freeing?
    ensures s.meta.state.Shareable() && refs == t.Refs() && t.held == 0 && owners == 0
  {
  }

  // ---- The packed word ----

  /** The packed word after an action, computed with the operations of the code. */
  function WordAfter(w: int, t: Thread, a: Action): int
    requires Enabled(t, a)
  {
    match a
    case LookupStart(_) => FetchAdd(w, 1)
    case EraseStart(_) => FetchAdd(w, 1)
    case InsertStart(_, _, _) => FetchOrOccupied(w)
    case Build => 7 * STATE + (t.pc.countdown - if t.pc.keep then 1 else 0) * COUNTER + t.pc.countdown
    case Boost => FetchAdd(w, t.pc.n)
    case Check => w
    case Undo => FetchAdd(w, 0 - t.pc.n)
    case Credit => FetchAdd(w, t.pc.n * COUNTER)
    case TakeRef => FetchAdd(w, 1)
    case ReleaseStart(useful, _) => if useful then FetchAdd(w, COUNTER) else FetchAdd(w, 0 - 1)
    case HideEntry => FetchAndInvisible(w)
    case ReleaseTry(spurious) =>
      if Refcount(t.pc.seen) == 0 && t.pc.seen.state.Shareable() && w == t.pc.seen.Packed() && !spurious then 4 * STATE else w
    case EraseTry(spurious) => if Refcount(t.pc.seen) <= 1 && w == t.pc.seen.Packed() && !spurious then 4 * STATE else w
    case ClockLoad => w
    case ClockTry =>
      var seen := t.pc.seen;
      if seen.acquires != seen.releases || !seen.state.Shareable() || w != seen.Packed() then w
      else if seen.state.Visible? && seen.acquires > 0 then
        var count := if seen.acquires - 1 < 2 then seen.acquires - 1 else 2;
        7 * STATE + count * COUNTER + count
      else 4 * STATE
    case SweepLoad => w
    case SweepTry =>
      if t.pc.seen.state.Shareable() && Refcount(t.pc.seen) == 0 && w == t.pc.seen.Packed() then 4 * STATE else w
    case Free => 0
  }

  /** What a thread has read or will add fits into the counters. */
  predicate Small(t: Thread) {
    match t.pc
    case Checking(n, _, _) => n < TOP
    case Undoing(n) => n < TOP
    case Boosting(n, _) => n < TOP
    case Crediting(n) => n < TOP
    case Building(_, n, _) => n < TOP
    case Dropping(m) => m.acquires < COUNTER && m.releases < COUNTER
    case Erasing(m) => m.acquires < COUNTER && m.releases < COUNTER
    case Clocking(m) => m.acquires < COUNTER && m.releases < COUNTER
    case Sweeping(m) => m.acquires < COUNTER && m.releases < COUNTER
    case _ => true
  }

  lemma ActionSmall(s: Slot, t: Thread, a: Action)
    requires Enabled(t, a) && s.meta.Low() && Small(t)
    ensures Small(Do(s, t, a).1)
  {
  }

  lemma TryOnWord(s: Slot, t: Thread, a: Action, refs: nat, owners: nat)
    requires Enabled(t, a) && s.meta.Low() && SlotOk(s, refs, owners) && ThreadOk(s, t) && Small(t) && Tries(a)
    ensures WordAfter(s.meta.Packed(), t, a) == Do(s, t, a).0.meta.Packed()
  {
    if !a.Check? {
      SameWord(s.meta, t.pc.seen);
    }
  }

  /** While the counters are low, every atomic operation on the word does what the action says. */
  lemma ActionOnWord(s: Slot, t: Thread, a: Action, refs: nat, owners: nat)
    requires Enabled(t, a) && s.meta.Low() && SlotOk(s, refs, owners) && ThreadOk(s, t) && Small(t)
    requires t.Refs() <= refs && t.Owns() <= owners
    ensures WordAfter(s.meta.Packed(), t, a) == Do(s, t, a).0.meta.Packed()
  {
    if Tries(a) {
      TryOnWord(s, t, a, refs, owners);
      return;
    }
    match a
    case LookupStart(_) => AddAcquires(s.meta, 1);
    case EraseStart(_) => AddAcquires(s.meta, 1);
    case InsertStart(_, _, _) => Occupy(s.meta);
    case Boost => AddAcquires(s.meta, t.pc.n);
    case Undo => SubAcquires(s.meta, t.pc.n);
    case Credit => AddReleases(s.meta, t.pc.n);
    case TakeRef => AddAcquires(s.meta, 1);
    case ReleaseStart(useful, _) =>
      if useful { AddReleases(s.meta, 1); } else { SubAcquires(s.meta, 1); }
    case HideEntry => ClockMeta.Hide(s.meta);
    case _ =>
  }

  lemma SameWord(m: Meta, n: Meta)
    requires m.Low() && n.acquires < COUNTER && n.releases < COUNTER
    ensures m.Packed() == n.Packed() <==> m == n
  {
    if m.Packed() == n.Packed() {
      PackedOnce(m, n);
    }
  }

  // ---- Runs ----

  datatype Machine = Machine(slot: Slot, threads: seq<Thread>)

  datatype Event = Event(thread: nat, action: Action)

  function RefSum(ts: seq<Thread>): nat {
    if ts == [] then 0 else ts[0].Refs() + RefSum(ts[1..])
  }

  function OwnSum(ts: seq<Thread>): nat {
    if ts == [] then 0 else ts[0].Owns() + OwnSum(ts[1..])
  }

  lemma {:induction false} SumUpdate(ts: seq<Thread>, i: nat, t: Thread)
    requires i < |ts|
    ensures RefSum(ts[i := t]) == RefSum(ts) - ts[i].Refs() + t.Refs()
    ensures OwnSum(ts[i := t]) == OwnSum(ts) - ts[i].Owns() + t.Owns()
    ensures ts[i].Refs() <= RefSum(ts) && ts[i].Owns() <= OwnSum(ts)
  {
    if i == 0 {
      assert ts[i := t][1..] == ts[1..];
    } else {
      SumUpdate(ts[1..], i - 1, t);
      assert ts[i := t][1..] == ts[1..][i - 1 := t];
    }
  }

  lemma {:induction false} SumTwo(ts: seq<Thread>, i: nat, j: nat)
    requires i < |ts| && j < |ts| && i != j
    ensures ts[i].Refs() + ts[j].Refs() <= RefSum(ts) && ts[i].Owns() + ts[j].Owns() <= OwnSum(ts)
  {
    if i == 0 {
      SumUpdate(ts[1..], j - 1, ts[j]);
    } else if j == 0 {
      SumUpdate(ts[1..], i - 1, ts[i]);
    } else {
      SumTwo(ts[1..], i - 1, j - 1);
    }
  }

  predicate Inv(m: Machine) {
    && SlotOk(m.slot, RefSum(m.threads), OwnSum(m.threads))
    && forall i :: 0 <= i < |m.threads| ==> ThreadOk(m.slot, m.threads[i]) && Small(m.threads[i])
  }

  predicate CanStep(m: Machine, e: Event) {
    e.thread < |m.threads| && Enabled(m.threads[e.thread], e.action)
  }

  function Next(m: Machine, e: Event): Machine
    requires CanStep(m, e)
  {
    var (s, t) := Do(m.slot, m.threads[e.thread], e.action);
    Machine(s, m.threads[e.thread := t])
  }

  /** An empty slot, and threads that hold nothing. */
  predicate Start(m: Machine) {
    && m.slot.meta == Meta(Empty, 0, 0)
    && forall i :: 0 <= i < |m.threads| ==> m.threads[i].pc == Idle && m.threads[i].held == 0
  }

  /** An interleaving in which no counter reaches its top bit. */
  predicate Interleaving(m: Machine, events: seq<Event>)
    decreases |events|
  {
    events == [] || (m.slot.meta.Low() && CanStep(m, events[0]) && Interleaving(Next(m, events[0]), events[1..]))
  }

  function After(m: Machine, events: seq<Event>): Machine
    requires Interleaving(m, events)
    decreases |events|
  {
    if events == [] then m else After(Next(m, events[0]), events[1..])
  }

  lemma StepKeeps(m: Machine, e: Event)
    requires Inv(m) && m.slot.meta.Low() && CanStep(m, e)
    ensures Inv(Next(m, e)) && Asserted(m.slot, m.threads[e.thread], e.action)
    ensures Next(m, e).slot.meta.Packed() == WordAfter(m.slot.meta.Packed(), m.threads[e.thread], e.action)
  {
    var i, t := e.thread, m.threads[e.thread];
    var refs, owners := RefSum(m.threads), OwnSum(m.threads);
    var m' := Next(m, e);
    SumUpdate(m.threads, i, m'.threads[i]);
    ActionAsserts(m.slot, t, e.action, refs, owners);
    ActionCounts(m.slot, t, e.action, refs, owners);
    ActionKeeps(m.slot, t, e.action, refs, owners);
    ActionSmall(m.slot, t, e.action);
    ActionOnWord(m.slot, t, e.action, refs, owners);
    forall j | 0 <= j < |m'.threads| ensures ThreadOk(m'.slot, m'.threads[j]) {
      if j != i {
        SumTwo(m.threads, i, j);
        ActionLeaves(m.slot, t, e.action, m.threads[j], refs, owners);
      }
    }
  }

  lemma {:induction false} StartOk(ts: seq<Thread>)
    requires forall i :: 0 <= i < |ts| ==> ts[i].pc == Idle && ts[i].held == 0
    ensures RefSum(ts) == 0 && OwnSum(ts) == 0
  {
    if ts != [] {
      StartOk(ts[1..]);
    }
  }

  lemma {:induction false} RunKeeps(m: Machine, events: seq<Event>)
    requires Inv(m) && Interleaving(m, events)
    ensures Inv(After(m, events))
    decreases |events|
  {
    if events != [] {
      StepKeeps(m, events[0]);
      RunKeeps(Next(m, events[0]), events[1..]);
    }
  }

  /** After every interleaving: a shareable slot has exactly as many more acquires than releases as
      references are held, every reference is to the entry in the slot, and a thread that owns the
      slot to build or free an entry is alone with it. */
  lemma InterleavingSafe(m: Machine, events: seq<Event>)
    requires Start(m) && Interleaving(m, events)
    ensures var n := After(m, events);
            && (n.slot.meta.state.Shareable() ==> n.slot.meta.acquires - n.slot.meta.releases == RefSum(n.threads))
            && (!n.slot.meta.state.Shareable() ==> RefSum(n.threads) == 0)
            && (forall i :: 0 <= i < |n.threads| && n.threads[i].Refs() > 0 ==>
                  n.slot.meta.state.Shareable() && n.threads[i].gen == n.slot.gen && (n.threads[i].held > 0 ==> n.threads[i].key == n.slot.key))
            && (forall i, j :: 0 <= i < |n.threads| && 0 <= j < |n.threads| && n.threads[i].Owns() == 1 ==>
                  n.slot.meta.state.Construction? && n.threads[j].Refs() == 0 && (i != j ==> n.threads[j].Owns() == 0))
  {
    StartOk(m.threads);
    RunKeeps(m, events);
    var n := After(m, events);
    forall i | 0 <= i < |n.threads| ensures n.threads[i].Refs() <= RefSum(n.threads) && n.threads[i].Owns() <= OwnSum(n.threads) {
      SumUpdate(n.threads, i, n.threads[i]);
    }
    forall i, j | 0 <= i < |n.threads| && 0 <= j < |n.threads| && i != j ensures n.threads[i].Owns() + n.threads[j].Owns() <= OwnSum(n.threads) {
      SumTwo(n.threads, i, j);
    }
  }

  /** At every step that takes the slot for freeing, no other thread holds a reference. */
  lemma TakenOnlyAlone(m: Machine, events: seq<Event>, e: Event)
    requires Start(m) && Interleaving(m, events) && After(m, events).slot.meta.Low() && CanStep(After(m, events), e)
    requires var n := After(m, events); !n.threads[e.thread].pc.Freeing? && Next(n, e).threads[e.thread].pc.Freeing?
    ensures forall j :: 0 <= j < |After(m, events).threads| && j != e.thread ==> After(m, events).threads[j].Refs() == 0
    ensures After(m, events).threads[e.thread].held == 0
  {
    StartOk(m.threads);
    RunKeeps(m, events);
    var n := After(m, events);
    var t := n.threads[e.thread];
    SumUpdate(n.threads, e.thread, t);
    TakenAlone(n.slot, t, e.action, RefSum(n.threads), OwnSum(n.threads));
    forall j | 0 <= j < |n.threads| && j != e.thread ensures n.threads[j].Refs() == 0 {
      SumTwo(n.threads, e.thread, j);
    }
  }

  // ---- Keys ----

  /** The key that an action starts to look for. */
  predicate Starts(a: Action) {
    a.LookupStart? || a.InsertStart? || a.EraseStart?
  }

  /** The key thread i asked for last, as the events tell; asked before them. */
  function AskedBy(events: seq<Event>, i: nat, asked: int): int
    decreases |events|
  {
    if events == [] then asked
    else
      var e := events[0];
      AskedBy(events[1..], i, if e.thread == i && Starts(e.action) then e.action.want else asked)
  }

  /** A thread compares with the key it asked for, and goes on only where the slot has it. */
  predicate KeyOk(s: Slot, t: Thread, asked: int) {
    && (t.pc.Checking? || t.pc.Boosting? || t.pc.Building? ==> t.pc.want == asked)
    && (t.pc.Crediting? || t.pc.Hiding? || t.pc.Erasing? ==> s.key == asked)
  }

  lemma ActionKey(s: Slot, t: Thread, a: Action, asked: int)
    requires Enabled(t, a) && ThreadOk(s, t) && KeyOk(s, t, asked)
    ensures var (s', t') := Do(s, t, a); KeyOk(s', t', if Starts(a) then a.want else asked)
  {
  }

  /** The key of a slot changes only with the entry in it. */
  lemma KeyStays(s: Slot, t: Thread, a: Action, u: Thread, asked: int)
    requires Enabled(t, a) && ThreadOk(s, u) && ThreadOk(Do(s, t, a).0, u) && KeyOk(s, u, asked)
    ensures KeyOk(Do(s, t, a).0, u, asked)
  {
  }

  lemma {:induction false} RunKeys(m: Machine, events: seq<Event>, i: nat, asked: int)
    requires Inv(m) && Interleaving(m, events) && i < |m.threads| && KeyOk(m.slot, m.threads[i], asked)
    ensures var n := After(m, events); i < |n.threads| && KeyOk(n.slot, n.threads[i], AskedBy(events, i, asked))
    decreases |events|
  {
    if events != [] {
      var e, m' := events[0], Next(m, events[0]);
      StepKeeps(m, e);
      assert ThreadOk(m.slot, m.threads[i]) && ThreadOk(m'.slot, m'.threads[i]);
      if e.thread == i {
        ActionKey(m.slot, m.threads[i], e.action, asked);
      } else {
        KeyStays(m.slot, m.threads[e.thread], e.action, m.threads[i], asked);
      }
      RunKeys(m', events[1..], i, if e.thread == i && Starts(e.action) then e.action.want else asked);
    }
  }

  /** After every interleaving: a thread that credits, hides or erases the entry in the slot asked for its key, and
      the comparison of keys takes the reference back exactly if the entry has another key than the thread asked
      for, and else keeps it for the lookup, credits the insert or goes on to hide. */
  lemma KeysMatch(m: Machine, events: seq<Event>, i: nat, first: int)
    requires Start(m) && Interleaving(m, events) && i < |m.threads|
    ensures var n, asked := After(m, events), AskedBy(events, i, first);
            && i < |n.threads|
            && (n.threads[i].pc.Crediting? || n.threads[i].pc.Hiding? || n.threads[i].pc.Erasing? ==> n.slot.key == asked)
            && (n.threads[i].pc.Checking? ==>
                  var t := Next(n, Event(i, Check)).threads[i];
                  && (t.pc.Undoing? <==> n.slot.key != asked)
                  && (n.slot.key == asked ==>
                        match n.threads[i].pc.purpose
                        case ForLookup => t.pc.Idle? && t.held == n.threads[i].held + n.threads[i].pc.n && t.key == asked
                        case ForInsert => t.pc.Crediting?
                        case ForErase => t.pc.Hiding?))
  {
    StartOk(m.threads);
    RunKeys(m, events, i, first);
  }
}
