/**
 Charging `usage_` and `occupancy_` in the clock cache under any interleaving of threads
 (`ChargeUsageMaybeEvictStrict`, `ChargeUsageMaybeEvictNonStrict`, `ReclaimEntryUsage` and their callers).

 Every atomic operation on the two counters is one action.  Evicting an entry takes its charge out
 of the table at once, while the counters follow only when the evicting thread settles; until then
 the thread holds the difference.
 */
module ClockUsage {

  /** The limits of a table; strict tells whether the capacity may be exceeded, base is the charge of the
      table itself. */
  datatype Limits = Limits(capacity: nat, strict: bool, occupancy: nat, base: nat)

  /** The counters, the charges of the entries in the table, and those of standalone entries. */
  datatype Shared = Shared(usage: int, occupied: int, entries: seq<nat>, standalone: seq<nat>)

  /** Why an insert fails: larger than the capacity, not enough to evict, or no place in the table. */
  datatype Why = TooLarge | NoCapacity | NoPlace

  datatype Pc =
    | Idle
    | Admitted                          // counted in occupancy if the entry is for the table
    | Loaded(seen: int, first: bool)     // strict: has read usage
    | Evicting                          // evicts entries, any number of them
    | Settling                          // strict: occupancy is settled, usage not yet
    | SettlingLoose                     // not strict: likewise
    | Charged                           // the charge is in usage
    | Failing(why: Why)                 // nothing is in usage, occupancy is still to be given back
    | Refused                           // neither is in the counters
    | Reverted                          // did not get a slot: the charge is in usage, occupancy given back
    | Reclaiming(counted: bool)         // took an entry out, the counters still hold it

  /** An operation on an entry of charge total; forTable: for a slot in the table; over: occupancy was
      at its limit; got: already reserved in usage; evicted and
      count: charge and number of the entries evicted. */
  datatype Thread = Thread(pc: Pc, total: nat, forTable: bool, over: bool, got: int, evicted: nat, count: nat) {
    /** What usage includes for this thread beyond table and standalone entries. */
    function Hold(): int {
      match pc
      case Evicting => got + evicted
      case Settling => got + evicted
      case SettlingLoose => evicted
      case Charged => total
      case Reverted => total
      case Reclaiming(_) => total
      case _ => 0
    }

    /** What occupancy includes for this thread beyond the entries in the table. */
    function Places(): int {
      match pc
      case Idle => 0
      case Refused => 0
      case Reverted => 0
      case Evicting => count + if forTable then 1 else 0
      case Reclaiming(counted) => if counted then 1 else 0
      case _ => if forTable then 1 else 0
    }

    /** Whether this thread may still put an entry into the table. */
    function Permit(): int {
      match pc
      case Idle => 0
      case Refused => 0
      case Reverted => 0
      case Failing(_) => 0
      case Reclaiming(_) => 0
      case _ => if forTable && (!over || count > 0) then 1 else 0
    }
  }

  datatype Action =
    | Begin(total: nat, forTable: bool)
    | Reject
    | Load
    | Exchange(spurious: bool)
    | LoadLoose
    | EvictOne(i: nat)
    | SettlePlaces
    | SettleUsage
    | SettleLoose
    | PutInTable
    | PutStandalone
    | GiveUpPlace
    | GiveUpUsage
    | RevertPlace
    | Abandon
    | Fallback
    | PutUncharged
    | TakeOut(i: nat)
    | TakeStandalone(i: nat)
    | ReclaimPlace
    | ReclaimUsage

  predicate Enabled(s: Shared, t: Thread, z: Limits, a: Action) {
    match a
    case Begin(_, _) => t.pc.Idle?
    case Reject => t.pc.Admitted? && z.strict && t.total > z.capacity
    case Load => t.pc.Admitted? && z.strict && t.total <= z.capacity
    case Exchange(_) => t.pc.Loaded?
    case LoadLoose => t.pc.Admitted? && !z.strict
    case EvictOne(i) => t.pc.Evicting? && i < |s.entries|
    case SettlePlaces => t.pc.Evicting?
    case SettleUsage => t.pc.Settling?
    case SettleLoose => t.pc.SettlingLoose?
    case PutInTable => t.pc.Charged? && t.forTable
    case PutStandalone => t.pc.Reverted? || (t.pc.Charged? && !t.forTable)
    case GiveUpPlace => t.pc.Charged? && t.forTable
    case GiveUpUsage => t.pc.Reverted?
    case RevertPlace => t.pc.Failing?
    case Abandon => t.pc.Refused?
    case Fallback => t.pc.Refused? && !z.strict && t.forTable
    case PutUncharged => t.pc.Refused? && z.strict && !t.forTable
    case TakeOut(i) => t.pc.Idle? && i < |s.entries|
    case TakeStandalone(i) => t.pc.Idle? && i < |s.standalone|
    case ReclaimPlace => t.pc.Reclaiming? && t.pc.counted
    case ReclaimUsage => t.pc.Reclaiming? && !t.pc.counted
  }

  function Min(a: int, b: int): int {
    if a < b then a else b
  }

  function Without(xs: seq<nat>, i: nat): seq<nat>
    requires i < |xs|
  {
    xs[..i] + xs[i + 1..]
  }

  /** What is still to be evicted once got is reserved; at least one entry if occupancy was at its limit. */
  function Request(t: Thread): int {
    if t.over && t.total == t.got then 1 else t.total - t.got
  }

  /** What the loose variant asks for, from the usage it read. */
  function LooseRequest(t: Thread, usage: int, z: Limits): int {
    var need :=
      if usage + t.total <= z.capacity || t.total > usage then 0
      else if usage > z.capacity then t.total + Min(z.capacity / 1024, t.total) + 1
      else t.total;
    if t.over && need == 0 then 1 else need
  }

  /** A thread that has taken out an entry. */
  function Reclaimer(counted: bool, charge: nat): Thread {
    Thread(Reclaiming(counted), charge, false, false, 0, 0, 0)
  }

  /** One action of a thread. */
  function Do(s: Shared, t: Thread, z: Limits, a: Action): (Shared, Thread)
    requires Enabled(s, t, z, a)
  {
    match a
    case Begin(total, forTable) =>
      (if forTable then s.(occupied := s.occupied + 1) else s,
       Thread(Admitted, total, forTable, forTable && s.occupied >= z.occupancy, 0, 0, 0))
    case Reject => (s, t.(pc := Failing(TooLarge)))
    case Load => (s, t.(pc := Loaded(s.usage, true)))
    case Exchange(spurious) =>
      if t.pc.first && t.pc.seen == z.capacity then (s, t.(pc := if Request(t) == 0 then Charged else Evicting))
      else if s.usage != t.pc.seen || spurious then (s, t.(pc := Loaded(s.usage, false)))
      else
        var usage := Min(z.capacity, t.pc.seen + t.total);
        var t' := t.(got := usage - t.pc.seen);
        (s.(usage := usage), t'.(pc := if Request(t') == 0 then Charged else Evicting))
    case LoadLoose =>
      var request := LooseRequest(t, s.usage, z);
      (s, t.(pc := if request == 0 then SettlingLoose else Evicting))
    case EvictOne(i) => (s.(entries := Without(s.entries, i)), t.(evicted := t.evicted + s.entries[i], count := t.count + 1))
    case SettlePlaces =>
      if !z.strict && t.over && t.count == 0 then (s, t.(pc := Failing(NoPlace)))
      else (s.(occupied := s.occupied - t.count), t.(pc := if z.strict then Settling else SettlingLoose))
    case SettleUsage =>
      var need := t.total - t.got;
      if t.evicted > need then (s.(usage := s.usage - (t.evicted - need)), t.(pc := Charged))
      else if t.evicted < need || (t.over && t.count == 0) then
        (s.(usage := s.usage - (t.evicted + t.got)), t.(pc := Failing(if t.evicted < need then NoCapacity else NoPlace)))
      else (s, t.(pc := Charged))
    case SettleLoose => (s.(usage := s.usage + t.total - t.evicted), t.(pc := Charged))
    case PutInTable => (s.(entries := s.entries + [t.total]), t.(pc := Idle))
    case PutStandalone => (s.(standalone := s.standalone + [t.total]), t.(pc := Idle))
    case GiveUpPlace => (s.(occupied := s.occupied - 1), t.(pc := Reverted))
    case GiveUpUsage => (s.(usage := s.usage - t.total), t.(pc := Idle))
    case RevertPlace => (if t.forTable then s.(occupied := s.occupied - 1) else s, t.(pc := Refused))
    case Abandon => (s, t.(pc := Idle))
    case Fallback => (s.(usage := s.usage + t.total), t.(pc := Reverted))
    case PutUncharged => (s.(standalone := s.standalone + [0]), t.(pc := Idle))
    case TakeOut(i) => (s.(entries := Without(s.entries, i)), Reclaimer(true, s.entries[i]))
    case TakeStandalone(i) => (s.(standalone := Without(s.standalone, i)), Reclaimer(false, s.standalone[i]))
    case ReclaimPlace => (s.(occupied := s.occupied - 1), t.(pc := Reclaiming(false)))
    case ReclaimUsage => (s.(usage := s.usage - t.total), t.(pc := Idle))
  }

  function Sum(xs: seq<nat>): nat {
    if xs == [] then 0 else xs[0] + Sum(xs[1..])
  }

  lemma {:induction false} SumWithout(xs: seq<nat>, i: nat)
    requires i < |xs|
    ensures Sum(Without(xs, i)) == Sum(xs) - xs[i]
  {
    if i == 0 {
      assert Without(xs, i) == xs[1..];
    } else {
      SumWithout(xs[1..], i - 1);
      assert Without(xs, i)[1..] == Without(xs[1..], i - 1);
    }
  }

  lemma {:induction false} SumAppend(xs: seq<nat>, x: nat)
    ensures Sum(xs + [x]) == Sum(xs) + x
  {
    if xs == [] {
      assert xs + [x] == [x];
    } else {
      SumAppend(xs[1..], x);
      assert (xs + [x])[1..] == xs[1..] + [x];
    }
  }

  // ---- One action ----

  /** The counters against what all threads hold together. */
  predicate SharedOk(s: Shared, z: Limits, hold: int, places: int, permits: int) {
    && s.usage == z.base + Sum(s.entries) + Sum(s.standalone) + hold
    && s.occupied == |s.entries| + places
    && |s.entries| + permits <= z.occupancy
  }

  predicate ThreadOk(t: Thread, z: Limits) {
    && 0 <= t.got <= t.total
    && (t.pc.Admitted? || t.pc.Loaded? || t.pc.SettlingLoose? ==> t.got == 0)
    && (t.pc.Admitted? || t.pc.Loaded? ==> t.evicted == 0 && t.count == 0)
    && (t.count == 0 ==> t.evicted == 0)
    && (!z.strict ==> t.got == 0)
    && (t.pc.Loaded? ==> z.strict && t.total <= z.capacity && t.pc.seen <= z.capacity)
    && (t.pc.Settling? ==> z.strict && Request(t) > 0)
    && (t.pc.Evicting? && z.strict ==> Request(t) > 0)
    && (t.pc.SettlingLoose? ==> !z.strict && (t.over ==> t.count > 0))
    && (t.pc.Charged? && t.forTable ==> !t.over || t.count > 0)
    && (t.over ==> t.forTable)
  }

  /** The assertions in the code, and that no counter drops below zero. */
  predicate Asserted(s: Shared, t: Thread, z: Limits, a: Action)
    requires Enabled(s, t, z, a)
  {
    var (s', t') := Do(s, t, z, a);
    && s'.usage >= 0 && s'.occupied >= 0
    && (a.SettleUsage? && t'.pc.Charged? ==> t.count > 0)
    && (a.ReclaimPlace? ==> s.occupied > 0)
    && (a.ReclaimUsage? ==> s.usage >= t.total)
  }

  lemma ChargeThread(s: Shared, t: Thread, z: Limits, a: Action)
    requires Enabled(s, t, z, a) && ThreadOk(t, z) && (z.strict ==> s.usage <= z.capacity)
    requires a.Load? || a.Exchange? || a.LoadLoose?
    ensures ThreadOk(Do(s, t, z, a).1, z)
  {
  }

  lemma ActionThread(s: Shared, t: Thread, z: Limits, a: Action)
    requires Enabled(s, t, z, a) && ThreadOk(t, z) && (z.strict ==> s.usage <= z.capacity)
    ensures ThreadOk(Do(s, t, z, a).1, z)
  {
    if a.Load? || a.Exchange? || a.LoadLoose? {
      ChargeThread(s, t, z, a);
    }
  }

  predicate Stores(a: Action) {
    a.EvictOne? || a.TakeOut? || a.TakeStandalone? || a.PutInTable? || a.PutStandalone? || a.PutUncharged?
  }

  lemma ActionHold(s: Shared, t: Thread, z: Limits, a: Action)
    requires Enabled(s, t, z, a) && ThreadOk(t, z) && !Stores(a)
    ensures var (s', t') := Do(s, t, z, a);
            s'.usage - t'.Hold() == s.usage - t.Hold() && s'.entries == s.entries && s'.standalone == s.standalone
  {
  }

  /** What usage is beyond the charges stored and held by this thread. */
  function Rest(s: Shared, t: Thread): int {
    s.usage - Sum(s.entries) - Sum(s.standalone) - t.Hold()
  }

  lemma ActionTakes(s: Shared, t: Thread, z: Limits, a: Action)
    requires Enabled(s, t, z, a) && (a.EvictOne? || a.TakeOut? || a.TakeStandalone?)
    ensures var (s', t') := Do(s, t, z, a); Rest(s', t') == Rest(s, t)
  {
    SumWithout(if a.TakeStandalone? then s.standalone else s.entries, a.i);
  }

  lemma ActionPuts(s: Shared, t: Thread, z: Limits, a: Action)
    requires Enabled(s, t, z, a) && (a.PutInTable? || a.PutStandalone? || a.PutUncharged?)
    ensures var (s', t') := Do(s, t, z, a); Rest(s', t') == Rest(s, t)
  {
    SumAppend(if a.PutInTable? then s.entries else s.standalone, if a.PutUncharged? then 0 else t.total);
  }

  /** One action keeps usage equal to the charges stored and held. */
  lemma ActionUsage(s: Shared, t: Thread, z: Limits, a: Action)
    requires Enabled(s, t, z, a) && ThreadOk(t, z)
    ensures var (s', t') := Do(s, t, z, a); Rest(s', t') == Rest(s, t)
  {
    if a.EvictOne? || a.TakeOut? || a.TakeStandalone? {
      ActionTakes(s, t, z, a);
    } else if Stores(a) {
      ActionPuts(s, t, z, a);
    } else {
      ActionHold(s, t, z, a);
    }
  }

  /** One action keeps occupancy equal to the entries stored and the places held. */
  lemma ActionPlaces(s: Shared, t: Thread, z: Limits, a: Action)
    requires Enabled(s, t, z, a) && ThreadOk(t, z)
    ensures var (s', t') := Do(s, t, z, a);
            s'.occupied - |s'.entries| - t'.Places() == s.occupied - |s.entries| - t.Places()
  {
  }

  /** One action keeps entries and permits within the occupancy limit. */
  lemma ActionPermits(s: Shared, t: Thread, z: Limits, a: Action, places: nat, permits: nat)
    requires Enabled(s, t, z, a) && ThreadOk(t, z) && permits <= places
    requires s.occupied == |s.entries| + places + t.Places() && |s.entries| + permits + t.Permit() <= z.occupancy
    ensures var (s', t') := Do(s, t, z, a); |s'.entries| + permits + t'.Permit() <= z.occupancy
  {
  }

  /** The strict variant never takes usage beyond the capacity. */
  lemma ActionStrict(s: Shared, t: Thread, z: Limits, a: Action)
    requires Enabled(s, t, z, a) && ThreadOk(t, z) && z.strict && s.usage <= z.capacity
    ensures Do(s, t, z, a).0.usage <= z.capacity
  {
  }

  /** The loose variant goes to evict exactly if it needs a place, or its entry does not fit and usage holds as much. */
  lemma LooseEvicts(s: Shared, t: Thread, z: Limits)
    requires Enabled(s, t, z, LoadLoose)
    ensures Do(s, t, z, LoadLoose).1.pc.Evicting? <==> t.over || (s.usage + t.total > z.capacity && t.total <= s.usage)
  {
  }

  lemma ActionAsserts(s: Shared, t: Thread, z: Limits, a: Action, hold: nat, places: nat)
    requires Enabled(s, t, z, a) && ThreadOk(t, z)
    requires s.usage == z.base + Sum(s.entries) + Sum(s.standalone) + hold + t.Hold() && s.occupied == |s.entries| + places + t.Places()
    ensures Asserted(s, t, z, a)
  {
    ActionUsage(s, t, z, a);
    ActionPlaces(s, t, z, a);
    HoldsSome(Do(s, t, z, a).1, z);
  }

  lemma HoldsSome(t: Thread, z: Limits)
    requires t.got >= 0
    ensures t.Hold() >= 0 && t.Places() >= 0 && 0 <= t.Permit() <= 1
  {
  }

  // ---- Runs ----

  datatype Machine = Machine(shared: Shared, threads: seq<Thread>)

  datatype Event = Event(thread: nat, action: Action)

  function HoldSum(ts: seq<Thread>): int {
    if ts == [] then 0 else ts[0].Hold() + HoldSum(ts[1..])
  }

  function PlaceSum(ts: seq<Thread>): int {
    if ts == [] then 0 else ts[0].Places() + PlaceSum(ts[1..])
  }

  function PermitSum(ts: seq<Thread>): int {
    if ts == [] then 0 else ts[0].Permit() + PermitSum(ts[1..])
  }

  predicate AllOk(ts: seq<Thread>, z: Limits) {
    forall i :: 0 <= i < |ts| ==> ThreadOk(ts[i], z)
  }

  /** The sums without thread i, and with another thread in its place. */
  lemma {:induction false} SumUpdate(ts: seq<Thread>, i: nat, t: Thread, z: Limits)
    requires i < |ts| && AllOk(ts, z)
    ensures var us := ts[i := t];
            && HoldSum(us) - t.Hold() == HoldSum(ts) - ts[i].Hold() >= 0
            && PlaceSum(us) - t.Places() == PlaceSum(ts) - ts[i].Places()
            && PermitSum(us) - t.Permit() == PermitSum(ts) - ts[i].Permit()
            && 0 <= PermitSum(ts) - ts[i].Permit() <= PlaceSum(ts) - ts[i].Places()
  {
    if i == 0 {
      assert ts[i := t][1..] == ts[1..];
      SumOrder(ts[1..], z);
    } else {
      SumUpdate(ts[1..], i - 1, t, z);
      assert ts[i := t][1..] == ts[1..][i - 1 := t];
      assert ThreadOk(ts[0], z);
    }
  }

  lemma {:induction false} SumOrder(ts: seq<Thread>, z: Limits)
    requires AllOk(ts, z)
    ensures HoldSum(ts) >= 0 && 0 <= PermitSum(ts) <= PlaceSum(ts)
  {
    if ts != [] {
      assert ThreadOk(ts[0], z);
      SumOrder(ts[1..], z);
    }
  }

  predicate Inv(m: Machine, z: Limits) {
    AllOk(m.threads, z) && SharedOk(m.shared, z, HoldSum(m.threads), PlaceSum(m.threads), PermitSum(m.threads))
  }

  predicate CanStep(m: Machine, z: Limits, e: Event) {
    e.thread < |m.threads| && Enabled(m.shared, m.threads[e.thread], z, e.action)
  }

  function Next(m: Machine, z: Limits, e: Event): Machine
    requires CanStep(m, z, e)
  {
    var (s, t) := Do(m.shared, m.threads[e.thread], z, e.action);
    Machine(s, m.threads[e.thread := t])
  }

  predicate Interleaving(m: Machine, z: Limits, events: seq<Event>)
    decreases |events|
  {
    events == [] || (CanStep(m, z, events[0]) && Interleaving(Next(m, z, events[0]), z, events[1..]))
  }

  function After(m: Machine, z: Limits, events: seq<Event>): Machine
    requires Interleaving(m, z, events)
    decreases |events|
  {
    if events == [] then m else After(Next(m, z, events[0]), z, events[1..])
  }

  /** An empty table, charged only for itself, and threads without an operation. */
  predicate Start(m: Machine, z: Limits) {
    && m.shared == Shared(z.base, 0, [], [])
    && AllIdle(m.threads) && AllOk(m.threads, z)
  }

  predicate AllIdle(ts: seq<Thread>) {
    forall i :: 0 <= i < |ts| ==> ts[i].pc == Idle
  }

  lemma StepKeeps(m: Machine, z: Limits, e: Event)
    requires Inv(m, z) && CanStep(m, z, e) && (z.strict ==> m.shared.usage <= z.capacity)
    ensures Inv(Next(m, z, e), z) && Asserted(m.shared, m.threads[e.thread], z, e.action)
    ensures z.strict ==> Next(m, z, e).shared.usage <= z.capacity
  {
    var i, t, s := e.thread, m.threads[e.thread], m.shared;
    var m' := Next(m, z, e);
    SumUpdate(m.threads, i, m'.threads[i], z);
    ActionThread(s, t, z, e.action);
    if z.strict {
      ActionStrict(s, t, z, e.action);
    }
    ActionUsage(s, t, z, e.action);
    ActionPlaces(s, t, z, e.action);
    ActionPermits(s, t, z, e.action, PlaceSum(m.threads) - t.Places(), PermitSum(m.threads) - t.Permit());
    ActionAsserts(s, t, z, e.action, HoldSum(m.threads) - t.Hold(), PlaceSum(m.threads) - t.Places());
  }

  lemma {:induction false} IdleHolds(ts: seq<Thread>)
    requires AllIdle(ts)
    ensures HoldSum(ts) == 0 && PlaceSum(ts) == 0 && PermitSum(ts) == 0
  {
    if ts != [] {
      IdleHolds(ts[1..]);
    }
  }

  lemma {:induction false} RunKeeps(m: Machine, z: Limits, events: seq<Event>)
    requires Inv(m, z) && (z.strict ==> m.shared.usage <= z.capacity) && Interleaving(m, z, events)
    ensures Inv(After(m, z, events), z) && (z.strict ==> After(m, z, events).shared.usage <= z.capacity)
    decreases |events|
  {
    if events != [] {
      StepKeeps(m, z, events[0]);
      RunKeeps(Next(m, z, events[0]), z, events[1..]);
    }
  }

  /** After every interleaving: with the strict limit usage is within capacity; the table is within its
      occupancy limit; and once no operation is under way, usage is the charge of the table itself
      and of all entries, and occupancy is the number of entries in the table. */
  lemma InterleavingSafe(m: Machine, z: Limits, events: seq<Event>)
    requires Start(m, z) && (z.strict ==> z.base <= z.capacity) && Interleaving(m, z, events)
    ensures var n := After(m, z, events);
            && (z.strict ==> n.shared.usage <= z.capacity)
            && |n.shared.entries| <= z.occupancy
            && n.shared.usage >= z.base + Sum(n.shared.entries) + Sum(n.shared.standalone)
            && n.shared.occupied >= |n.shared.entries|
            && (AllIdle(n.threads) ==>
                  && n.shared.usage == z.base + Sum(n.shared.entries) + Sum(n.shared.standalone)
                  && n.shared.occupied == |n.shared.entries|)
  {
    IdleHolds(m.threads);
    RunKeeps(m, z, events);
    var n := After(m, z, events);
    SumOrder(n.threads, z);
    if AllIdle(n.threads) {
      IdleHolds(n.threads);
    }
  }

  // ---- Failures ----

  /** What has happened while an operation was under way: usage was at the capacity, occupancy beyond its limit. */
  datatype Met = Met(full: bool, crowded: bool)

  function MetNow(s: Shared, z: Limits, begins: bool, met: Met): Met {
    Met(s.usage == z.capacity || (met.full && !begins), s.occupied > z.occupancy || (met.crowded && !begins))
  }

  /** What has happened since thread i began its operation. */
  function MetSince(m: Machine, z: Limits, events: seq<Event>, i: nat, met: Met): Met
    requires Interleaving(m, z, events)
    decreases |events|
  {
    if events == [] then met
    else
      var e, n := events[0], Next(m, z, events[0]);
      MetSince(n, z, events[1..], i, MetNow(n.shared, z, e.thread == i && e.action.Begin?, met))
  }

  /** An operation that could not reserve all of its charge has met the capacity, and so has one that failed
      for it; one that has to evict for its place has met the occupancy limit. */
  predicate Explained(t: Thread, z: Limits, met: Met) {
    && (t.pc.Loaded? && t.pc.seen == z.capacity ==> met.full)
    && ((t.pc.Evicting? || t.pc.Settling?) && z.strict && t.got < t.total ==> met.full)
    && (t.over && !t.pc.Idle? ==> met.crowded)
    && (t.pc.Failing? ==>
          match t.pc.why
          case NoCapacity => met.full
          case TooLarge => t.total > z.capacity
          case NoPlace => met.crowded && t.count == 0)
  }

  lemma ActionExplained(s: Shared, t: Thread, z: Limits, a: Action, met: Met)
    requires Enabled(s, t, z, a) && ThreadOk(t, z) && Explained(t, z, met)
    ensures var (s', t') := Do(s, t, z, a); Explained(t', z, MetNow(s', z, a.Begin?, met))
  {
  }

  lemma {:induction false} RunExplained(m: Machine, z: Limits, events: seq<Event>, i: nat, met: Met)
    requires Inv(m, z) && (z.strict ==> m.shared.usage <= z.capacity) && Interleaving(m, z, events)
    requires i < |m.threads| && Explained(m.threads[i], z, met)
    ensures var n := After(m, z, events); i < |n.threads| && Explained(n.threads[i], z, MetSince(m, z, events, i, met))
    decreases |events|
  {
    if events != [] {
      var e, n := events[0], Next(m, z, events[0]);
      StepKeeps(m, z, e);
      if e.thread == i {
        ActionExplained(m.shared, m.threads[i], z, e.action, met);
      }
      RunExplained(n, z, events[1..], i, MetNow(n.shared, z, e.thread == i && e.action.Begin?, met));
    }
  }

  /** Over every interleaving: an insert fails for lack of capacity only if usage has been at the capacity while
      it was under way; for lack of a place only if occupancy has been beyond its limit while it was under way
      and it evicted nothing; and it is refused as too large only beyond the capacity. */
  lemma FailureJustified(m: Machine, z: Limits, events: seq<Event>, i: nat)
    requires Start(m, z) && (z.strict ==> z.base <= z.capacity) && Interleaving(m, z, events) && i < |m.threads|
    ensures var n, met := After(m, z, events), MetSince(m, z, events, i, Met(false, false));
            && i < |n.threads|
            && (n.threads[i].pc == Failing(NoCapacity) ==> met.full)
            && (n.threads[i].pc == Failing(NoPlace) ==> met.crowded && n.threads[i].count == 0)
            && (n.threads[i].pc == Failing(TooLarge) ==> n.threads[i].total > z.capacity)
  {
    IdleHolds(m.threads);
    RunExplained(m, z, events, i, Met(false, false));
  }
}
