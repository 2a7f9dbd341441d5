/**
 The clock cache table in sequential use: probing, displacement counts, charging, eviction
 (`HyperClockTable::Insert`, `ChargeUsageMaybeEvictStrict` and its loose variant, `Lookup`, `Release`,
 `Erase`, `FindSlot`, `Rollback`, `ClockUpdate`, `Evict`).

 A slot's displacement count is the number of entries that were inserted past it.  A lookup may
 stop at a slot that no entry has passed.
 */
module ClockTable {
  import opened Probing
  import opened Options

  /** An entry with its acquire and release counters; the counters differ by the references held,
      and without references they are the countdown of the clock. */
  datatype Slot = Empty | Entry(key: Key, charge: nat, visible: bool, acquires: nat, releases: nat) {
    predicate Has(k: Key) {
      Entry? && visible && key == k
    }

    predicate Referenced() {
      Entry? && acquires != releases
    }
  }

  /** The entry in slot q was inserted past slot s. */
  ghost predicate Passes(x: Slot, bits: nat, q: nat, s: nat)
    requires q < Pow2(bits) && s < Pow2(bits)
  {
    x.Entry? && Dist(x.key, bits, s) < Dist(x.key, bits, q)
  }

  /** How many of the entries in slots q, q + 1, ... were inserted past s. */
  ghost function PassingFrom(slots: seq<Slot>, bits: nat, s: nat, q: nat): nat
    requires |slots| == Pow2(bits) && s < |slots| && q <= |slots|
    decreases |slots| - q
  {
    if q == |slots| then 0 else (if Passes(slots[q], bits, q, s) then 1 else 0) + PassingFrom(slots, bits, s, q + 1)
  }

  ghost function Passing(slots: seq<Slot>, bits: nat, s: nat): nat
    requires |slots| == Pow2(bits) && s < |slots|
  {
    PassingFrom(slots, bits, s, 0)
  }

  lemma {:induction false} PassingUpdate(slots: seq<Slot>, bits: nat, s: nat, q: nat, x: Slot, from: nat)
    requires |slots| == Pow2(bits) && s < |slots| && q < |slots| && from <= |slots|
    ensures PassingFrom(slots[q := x], bits, s, from) ==
            PassingFrom(slots, bits, s, from) +
            if from <= q then (if Passes(x, bits, q, s) then 1 else 0) - (if Passes(slots[q], bits, q, s) then 1 else 0) else 0
    ensures from <= q && Passes(slots[q], bits, q, s) ==> PassingFrom(slots, bits, s, from) >= 1
    decreases |slots| - from
  {
    if from < |slots| {
      PassingUpdate(slots, bits, s, q, x, from + 1);
    }
  }

  function Count(slots: seq<Slot>): nat {
    if slots == [] then 0 else (if slots[0].Entry? then 1 else 0) + Count(slots[1..])
  }

  function Charges(slots: seq<Slot>): nat {
    if slots == [] then 0 else (if slots[0].Entry? then slots[0].charge else 0) + Charges(slots[1..])
  }

  lemma {:induction false} CountUpdate(slots: seq<Slot>, q: nat, x: Slot)
    requires q < |slots|
    ensures Count(slots[q := x]) == Count(slots) + (if x.Entry? then 1 else 0) - (if slots[q].Entry? then 1 else 0)
    ensures Charges(slots[q := x]) ==
            Charges(slots) + (if x.Entry? then x.charge else 0) - (if slots[q].Entry? then slots[q].charge else 0)
  {
    if q == 0 {
      assert slots[q := x][1..] == slots[1..];
    } else {
      CountUpdate(slots[1..], q - 1, x);
      assert slots[q := x][1..] == slots[1..][q - 1 := x];
    }
  }

  lemma {:induction false} CountFull(slots: seq<Slot>)
    requires forall s :: 0 <= s < |slots| ==> slots[s].Entry?
    ensures Count(slots) == |slots|
  {
    if slots != [] {
      CountFull(slots[1..]);
    }
  }

  /** A table with a free slot has one on the probe path of every key. */
  lemma MoreSlots(slots: seq<Slot>, k: Key, bits: nat, i: nat)
    requires |slots| == Pow2(bits) && i < |slots| && Count(slots) < |slots|
    requires forall j: nat :: j <= i ==> Probe(k, bits, j) < |slots| && slots[Probe(k, bits, j)].Entry?
    ensures i + 1 < |slots|
  {
    if i + 1 == |slots| {
      forall s | 0 <= s < |slots| ensures slots[s].Entry? {
        var j := Dist(k, bits, s);
        assert Probe(k, bits, j) == s && j <= i;
      }
      CountFull(slots);
    }
  }

  /** The displacement counts are right. */
  ghost predicate Placed(slots: seq<Slot>, displacements: seq<int>, bits: nat) {
    && |slots| == |displacements| == Pow2(bits)
    && forall s :: 0 <= s < |slots| ==> displacements[s] == Passing(slots, bits, s)
  }

  /** The counts change by d at every slot that k probes before slot q. */
  ghost predicate Shifted(before: seq<int>, after: seq<int>, bits: nat, k: Key, i: nat, d: int) {
    && |before| == |after| == Pow2(bits)
    && forall s :: 0 <= s < |before| ==> after[s] == before[s] + if Dist(k, bits, s) < i then d else 0
  }

  /** Putting x into slot q: the counts are right again if they shift along the paths of both entries. */
  lemma PlacedUpdate(slots: seq<Slot>, before: seq<int>, after: seq<int>, bits: nat, q: nat, x: Slot)
    requires Placed(slots, before, bits) && q < |slots| && |after| == |before|
    requires forall s :: 0 <= s < |slots| ==>
               after[s] == before[s] + (if Passes(x, bits, q, s) then 1 else 0) - (if Passes(slots[q], bits, q, s) then 1 else 0)
    ensures Placed(slots[q := x], after, bits)
  {
    forall s | 0 <= s < |slots| ensures after[s] == Passing(slots[q := x], bits, s) {
      PassingUpdate(slots, bits, s, q, x, 0);
    }
  }

  /** A slot that nothing has passed ends the search: behind it there is no entry of k. */
  lemma NothingBehind(slots: seq<Slot>, displacements: seq<int>, bits: nat, k: Key, i: nat, q: nat)
    requires Placed(slots, displacements, bits) && i < |slots| && q < |slots| && Probe(k, bits, i) < |slots|
    requires displacements[Probe(k, bits, i)] == 0 && slots[q].Entry? && slots[q].key == k
    ensures Dist(k, bits, q) <= i
  {
    DistIs(k, bits, i);
    PassingUpdate(slots, bits, Probe(k, bits, i), q, slots[q], 0);
  }

  /** Changing the counters or the visibility of an entry moves nothing. */
  lemma Touched(slots: seq<Slot>, displacements: seq<int>, bits: nat, q: nat, x: Slot)
    requires Placed(slots, displacements, bits) && q < |slots| && slots[q].Entry? && x.Entry? && x.key == slots[q].key
    ensures Placed(slots[q := x], displacements, bits) && Count(slots[q := x]) == Count(slots)
    ensures x.charge == slots[q].charge ==> Charges(slots[q := x]) == Charges(slots)
  {
    PlacedUpdate(slots, displacements, displacements, bits, q, x);
    CountUpdate(slots, q, x);
  }

  /** Taking an entry out together with its displacements. */
  lemma TakenOut(slots: seq<Slot>, before: seq<int>, after: seq<int>, bits: nat, q: nat)
    requires Placed(slots, before, bits) && q < |slots| && slots[q].Entry?
    requires Shifted(before, after, bits, slots[q].key, Dist(slots[q].key, bits, q), -1)
    ensures Placed(slots[q := Empty], after, bits)
    ensures Count(slots[q := Empty]) == Count(slots) - 1 && Charges(slots[q := Empty]) == Charges(slots) - slots[q].charge
  {
    PlacedUpdate(slots, before, after, bits, q, Empty);
    CountUpdate(slots, q, Empty);
  }

  /** Putting an entry into the free slot its probes have reached. */
  lemma PutIn(slots: seq<Slot>, before: seq<int>, after: seq<int>, bits: nat, q: nat, x: Slot)
    requires Placed(slots, before, bits) && q < |slots| && slots[q] == Empty && x.Entry?
    requires Shifted(before, after, bits, x.key, Dist(x.key, bits, q), 1)
    ensures Placed(slots[q := x], after, bits)
    ensures Count(slots[q := x]) == Count(slots) + 1 && Charges(slots[q := x]) == Charges(slots) + x.charge
  {
    PlacedUpdate(slots, before, after, bits, q, x);
    CountUpdate(slots, q, x);
  }

  datatype Result = Inserted(at: nat) | Matched(at: nat) | NoRoom

  class HyperClockTable {
    const bits: nat
    const size: nat
    const limit: nat
    const base: nat
    const slots: array<Slot>
    const displacements: array<int>
    var occupancy: int
    var usage: int
    var standalone: nat
    var pointer: nat

    ghost predicate Shape()
      reads this
    {
      size == Pow2(bits) == slots.Length == displacements.Length && limit < size
    }

    /** Counts, occupancy and usage are right, and a slot is always free. */
    ghost predicate Valid()
      reads this, slots, displacements
    {
      && Shape() && Placed(slots[..], displacements[..], bits)
      && occupancy == Count(slots[..]) <= limit
      && usage == base + standalone + Charges(slots[..])
    }

    /** base is what the table itself is charged for. */
    constructor (bits: nat, base: nat)
      ensures Valid() && this.bits == bits && size == Pow2(bits) && limit == size * 84 / 100 && fresh(slots) && fresh(displacements)
      ensures this.base == base && usage == base && standalone == 0 && occupancy == 0
      ensures forall s :: 0 <= s < size ==> slots[s] == Empty
    {
      Pow2Positive(bits);
      this.bits, size, limit, this.base := bits, Pow2(bits), Pow2(bits) * 84 / 100, base;
      slots := new Slot[Pow2(bits)](_ => Empty);
      displacements := new int[Pow2(bits)](_ => 0);
      occupancy, usage, standalone, pointer := 0, base, 0, 0;
      new;
      CountEmpty(slots[..]);
      forall s | 0 <= s < size ensures Passing(slots[..], bits, s) == 0 {
        PassingEmpty(slots[..], bits, s, 0);
      }
    }

    /** Takes back the displacements of k on its way to slot q. */
    method Rollback(k: Key, q: nat)
      requires Shape() && q < size
      modifies displacements
      ensures Shifted(old(displacements[..]), displacements[..], bits, k, Dist(k, bits, q), -1)
    {
      Pow2Positive(bits);
      var current := k.base % size;
      ghost var i := 0;
      while current != q
        invariant current == Probe(k, bits, i) < size && i <= Dist(k, bits, q)
        invariant Shifted(old(displacements[..]), displacements[..], bits, k, i, -1)
        decreases Dist(k, bits, q) - i
      {
        DistIs(k, bits, i);
        NextSlot(k, bits, i);
        OneMore(old(displacements[..]), displacements[..], bits, k, i, -1);
        displacements[current] := displacements[current] - 1;
        current := (current + Odd(k)) % size;
        i := i + 1;
      }
      DistIs(k, bits, i);
    }

    /** Empties slot q. */
    method FreeSlot(q: nat)
      requires Shape() && Placed(slots[..], displacements[..], bits) && q < size && slots[q].Entry?
      modifies slots, displacements
      ensures Placed(slots[..], displacements[..], bits) && slots[..] == old(slots[..])[q := Empty]
      ensures Count(slots[..]) == Count(old(slots[..])) - 1 && Charges(slots[..]) == Charges(old(slots[..])) - old(slots[q]).charge
    {
      Rollback(slots[q].key, q);
      TakenOut(slots[..], old(displacements[..]), displacements[..], bits, q);
      slots[q] := Empty;
    }

    /** Finds a visible entry of k if there is one, the first on its probe path, and references it. */
    method Lookup(k: Key) returns (r: Option<nat>)
      requires Valid()
      modifies slots
      ensures Valid()
      ensures r.None? <==> forall s :: 0 <= s < size ==> !old(slots[s]).Has(k)
      ensures r.None? ==> slots[..] == old(slots[..])
      ensures r.Some? ==> r.value < size && old(slots[r.value]).Has(k) &&
                          slots[..] == old(slots[..])[r.value := old(slots[r.value]).(acquires := old(slots[r.value]).acquires + 1)]
      ensures r.Some? ==> forall s :: 0 <= s < size && old(slots[s]).Has(k) ==> Dist(k, bits, r.value) <= Dist(k, bits, s)
    {
      Pow2Positive(bits);
      var i, current := 0, k.base % size;
      while i < size
        invariant i <= size && current == Probe(k, bits, i) < size && slots[..] == old(slots[..])
        invariant forall s :: 0 <= s < size && slots[s].Has(k) ==> i <= Dist(k, bits, s)
        decreases size - i
      {
        DistIs(k, bits, i);
        if slots[current].Has(k) {
          Touched(slots[..], displacements[..], bits, current, slots[current].(acquires := slots[current].acquires + 1));
          slots[current] := slots[current].(acquires := slots[current].acquires + 1);
          return Some(current);
        }
        forall s | 0 <= s < size && slots[s].Has(k)
          ensures i + 1 <= Dist(k, bits, s) && displacements[current] != 0
        {
          if displacements[current] == 0 {
            NothingBehind(slots[..], displacements[..], bits, k, i, s);
          }
        }
        if displacements[current] == 0 {
          return None;
        }
        NextSlot(k, bits, i);
        i, current := i + 1, (current + Odd(k)) % size;
      }
      r := None;
    }

    /** Probes for a free slot or an entry of k: takes the slot, or boosts the entry and takes the displacements back. */
    method Place(k: Key, charge: nat, countdown: nat, keep: bool) returns (r: Result)
      requires Shape() && Placed(slots[..], displacements[..], bits) && Count(slots[..]) < size && 1 <= countdown <= 3
      modifies slots, displacements
      ensures Placed(slots[..], displacements[..], bits) && r != NoRoom
      ensures r.at < size && forall s :: 0 <= s < size && Dist(k, bits, s) < Dist(k, bits, r.at) ==> old(slots[s]).Entry? && !old(slots[s]).Has(k)
      ensures r.Inserted? ==> Count(slots[..]) == Count(old(slots[..])) + 1 && Charges(slots[..]) == Charges(old(slots[..])) + charge
      ensures r.Inserted? ==> r.at < size && old(slots[r.at]) == Empty &&
                              slots[..] == old(slots[..])[r.at := NewEntry(k, charge, countdown, keep)]
      ensures r.Inserted? ==> forall s :: 0 <= s < size && old(slots[s]).Has(k) ==> Dist(k, bits, r.at) < Dist(k, bits, s)
      ensures r.Matched? ==> Count(slots[..]) == Count(old(slots[..])) && Charges(slots[..]) == Charges(old(slots[..]))
      ensures r.Matched? ==> r.at < size && old(slots[r.at]).Has(k) &&
                             slots[..] == old(slots[..])[r.at := Boosted(old(slots[r.at]), countdown)]
    {
      Pow2Positive(bits);
      var i, current := 0, k.base % size;
      while true
        invariant i < size && current == Probe(k, bits, i) < size && slots[..] == old(slots[..])
        invariant Shifted(old(displacements[..]), displacements[..], bits, k, i, 1)
        invariant forall s :: 0 <= s < size && Dist(k, bits, s) < i ==> slots[s].Entry? && !slots[s].Has(k)
        decreases size - i
      {
        DistIs(k, bits, i);
        if slots[current].Empty? {
          PutIn(slots[..], old(displacements[..]), displacements[..], bits, current, NewEntry(k, charge, countdown, keep));
          slots[current] := NewEntry(k, charge, countdown, keep);
          return Inserted(current);
        }
        if slots[current].Has(k) {
          Touched(slots[..], old(displacements[..]), bits, current, Boosted(slots[current], countdown));
          slots[current] := Boosted(slots[current], countdown);
          Rollback(k, current);
          assert displacements[..] == old(displacements[..]);
          return Matched(current);
        }
        OneMore(old(displacements[..]), displacements[..], bits, k, i, 1);
        StillFree(slots[..], k, bits, i);
        NextSlot(k, bits, i);
        displacements[current] := displacements[current] + 1;
        i, current := i + 1, (current + Odd(k)) % size;
      }
    }

    /** A clock update of slot q: the slot is emptied when its countdown has run out. */
    method Tick(q: nat) returns (evicted: bool)
      requires Shape() && Placed(slots[..], displacements[..], bits) && q < size
      modifies slots, displacements
      ensures Placed(slots[..], displacements[..], bits) && slots[..] == old(slots[..])[q := Clocked(old(slots[q]))]
      ensures evicted <==> old(slots[q]).Entry? && slots[q] == Empty
      ensures Count(slots[..]) + (if evicted then 1 else 0) == Count(old(slots[..]))
      ensures Charges(slots[..]) + (if evicted then old(slots[q]).charge else 0) == Charges(old(slots[..]))
    {
      evicted := false;
      if slots[q].Empty? || slots[q].Referenced() {
        assert slots[..] == slots[..][q := slots[q]];
        return;
      }
      if slots[q].visible && slots[q].acquires > 0 {
        Touched(slots[..], displacements[..], bits, q, Clocked(slots[q]));
        slots[q] := Clocked(slots[q]);
        return;
      }
      FreeSlot(q);
      evicted := true;
    }

    /** The four slots of one step of the clock hand. */
    method TickFour(p: nat) returns (freed: nat, count: nat)
      requires Shape() && size >= 1 && Placed(slots[..], displacements[..], bits)
      modifies slots, displacements
      ensures Placed(slots[..], displacements[..], bits) && Turned(old(slots[..]), slots[..], p, 4)
      ensures freed + Charges(slots[..]) == Charges(old(slots[..])) && count + Count(slots[..]) == Count(old(slots[..]))
      ensures count == 0 ==> freed == 0
    {
      freed, count := 0, 0;
      for i := 0 to 4
        invariant Placed(slots[..], displacements[..], bits) && Turned(old(slots[..]), slots[..], p, i)
        invariant freed + Charges(slots[..]) == Charges(old(slots[..])) && count + Count(slots[..]) == Count(old(slots[..]))
        invariant count == 0 ==> freed == 0
      {
        var q := (p + i) % size;
        var charge := if slots[q].Entry? then slots[q].charge else 0;
        TurnOne(old(slots[..]), slots[..], p, i);
        var evicted := Tick(q);
        if evicted {
          freed, count := freed + charge, count + 1;
        }
      }
    }

    /** Moves the clock hand until enough charge is freed or it has gone round three times. */
    method Evict(requested: nat) returns (freed: nat, count: nat, ghost visited: nat)
      requires Shape() && Placed(slots[..], displacements[..], bits) && requested > 0
      modifies this`pointer, slots, displacements
      ensures Placed(slots[..], displacements[..], bits) && Turned(old(slots[..]), slots[..], old(pointer), visited)
      ensures freed + Charges(slots[..]) == Charges(old(slots[..])) && count + Count(slots[..]) == Count(old(slots[..]))
      ensures pointer == old(pointer) + visited && visited < 3 * size + 8 && (count == 0 ==> freed == 0)
      ensures freed < requested ==> Cleared(old(slots[..]), slots[..])
      ensures Enough(old(slots[..]), old(pointer), visited, requested)
    {
      Pow2Positive(bits);
      freed, count, visited := 0, 0, 0;
      var p := pointer;
      pointer := pointer + 4;
      var end := p + 3 * size;
      while true
        invariant p == old(pointer) + visited && pointer == p + 4 && p < end + 4 && (count == 0 ==> freed == 0) && freed < requested
        invariant Placed(slots[..], displacements[..], bits) && Turned(old(slots[..]), slots[..], old(pointer), visited)
        invariant freed + Charges(slots[..]) == Charges(old(slots[..])) && count + Count(slots[..]) == Count(old(slots[..]))
        decreases end + 4 - p
      {
        ghost var mid := slots[..];
        var f, n := TickFour(p);
        TurnFour(old(slots[..]), mid, slots[..], old(pointer), visited);
        freed, count, visited := freed + f, count + n, visited + 4;
        if freed >= requested || p >= end {
          if p >= end {
            AllEvicted(old(slots[..]), slots[..], old(pointer), visited);
          }
          return;
        }
        p := pointer;
        pointer := pointer + 4;
      }
    }

    /** Evicts and gives the places back. */
    method MakeRoom(want: nat) returns (freed: nat, count: nat, ghost visited: nat)
      requires Shape() && Placed(slots[..], displacements[..], bits) && want > 0
      modifies this`occupancy, this`pointer, slots, displacements
      ensures Placed(slots[..], displacements[..], bits) && Turned(old(slots[..]), slots[..], old(pointer), visited)
      ensures occupancy == old(occupancy) - count && count + Count(slots[..]) == Count(old(slots[..]))
      ensures freed + Charges(slots[..]) == Charges(old(slots[..])) && (count == 0 ==> freed == 0)
      ensures freed < want ==> Cleared(old(slots[..]), slots[..])
      ensures Enough(old(slots[..]), old(pointer), visited, want)
    {
      freed, count, visited := Evict(want);
      occupancy := occupancy - count;
    }

    /** ChargeUsageMaybeEvictStrict: reserves what the capacity leaves, evicts for the rest, and settles. */
    method ChargeStrict(total: nat, capacity: nat, over: bool) returns (ok: bool, ghost visited: nat)
      requires Shape() && Placed(slots[..], displacements[..], bits)
      modifies this`usage, this`occupancy, this`pointer, slots, displacements
      ensures Placed(slots[..], displacements[..], bits) && Turned(old(slots[..]), slots[..], old(pointer), visited)
      ensures Count(slots[..]) <= Count(old(slots[..])) && Charges(slots[..]) <= Charges(old(slots[..]))
      ensures occupancy - Count(slots[..]) == old(occupancy) - Count(old(slots[..]))
      ensures usage - Charges(slots[..]) == old(usage) - Charges(old(slots[..])) + if ok then total else 0
      ensures ok <==> total <= capacity && Fits(old(usage) + total, capacity, over, old(slots[..]), slots[..])
      ensures !ok && total <= capacity ==> Cleared(old(slots[..]), slots[..])
      ensures old(usage) + total <= capacity && total <= capacity && !over ==> visited == 0
      ensures total > capacity || StrictRequest(old(usage), total, capacity, over) == 0 ==> visited == 0
      ensures total <= capacity && StrictRequest(old(usage), total, capacity, over) > 0 ==>
                Enough(old(slots[..]), old(pointer), visited, StrictRequest(old(usage), total, capacity, over))
    {
      visited := 0;
      if total > capacity {
        assert slots[..] == old(slots[..]);
        return false, 0;
      }
      var reserved := if usage + total < capacity then usage + total else capacity;
      var need := usage + total - reserved;
      var got := reserved - usage;
      usage := reserved;
      var request := if over && need == 0 then 1 else need;
      if request > 0 {
        var freed, count;
        freed, count, visited := MakeRoom(request);
        if freed > need {
          usage := usage - (freed - need);
        } else if freed < need || (over && count == 0) {
          usage := usage - (freed + got);
          return false, visited;
        }
      }
      ok := true;
    }

    /** ChargeUsageMaybeEvictNonStrict: evicts about as much as the entry needs, and charges it in any case. */
    method ChargeLoose(total: nat, capacity: nat, over: bool) returns (ok: bool, ghost visited: nat)
      requires Shape() && Placed(slots[..], displacements[..], bits)
      modifies this`usage, this`occupancy, this`pointer, slots, displacements
      ensures Placed(slots[..], displacements[..], bits) && Turned(old(slots[..]), slots[..], old(pointer), visited)
      ensures Count(slots[..]) <= Count(old(slots[..])) && Charges(slots[..]) <= Charges(old(slots[..]))
      ensures occupancy - Count(slots[..]) == old(occupancy) - Count(old(slots[..]))
      ensures usage - Charges(slots[..]) == old(usage) - Charges(old(slots[..])) + if ok then total else 0
      ensures ok <==> (over ==> Count(slots[..]) < Count(old(slots[..])))
      ensures !ok ==> Cleared(old(slots[..]), slots[..])
      ensures old(usage) + total > capacity && total <= old(usage) ==>
                || Charges(old(slots[..])) - Charges(slots[..]) >= total + Extra(old(usage), total, capacity)
                || Cleared(old(slots[..]), slots[..])
      ensures old(usage) + total <= capacity && !over ==> visited == 0
      ensures LooseRequest(old(usage), total, capacity, over) == 0 ==> visited == 0
      ensures LooseRequest(old(usage), total, capacity, over) > 0 ==>
                Enough(old(slots[..]), old(pointer), visited, LooseRequest(old(usage), total, capacity, over))
    {
      visited := 0;
      var freed, count := 0, 0;
      var need :=
        if usage + total <= capacity || total > usage then 0
        else if usage > capacity then total + (if capacity / 1024 < total then capacity / 1024 else total) + 1
        else total;
      var request := if over && need == 0 then 1 else need;
      if request > 0 {
        freed, count, visited := MakeRoom(request);
        if over && count == 0 {
          return false, visited;
        }
      }
      usage := usage + total - freed;
      ok := true;
    }

    /** Either way of charging an entry. */
    method Charge(total: nat, capacity: nat, over: bool, strict: bool) returns (ok: bool, ghost visited: nat)
      requires Shape() && Placed(slots[..], displacements[..], bits)
      modifies this`usage, this`occupancy, this`pointer, slots, displacements
      ensures Placed(slots[..], displacements[..], bits) && Turned(old(slots[..]), slots[..], old(pointer), visited)
      ensures Count(slots[..]) <= Count(old(slots[..])) && Charges(slots[..]) <= Charges(old(slots[..]))
      ensures occupancy - Count(slots[..]) == old(occupancy) - Count(old(slots[..]))
      ensures usage - Charges(slots[..]) == old(usage) - Charges(old(slots[..])) + if ok then total else 0
      ensures ok <==> if strict then total <= capacity && Fits(old(usage) + total, capacity, over, old(slots[..]), slots[..])
                      else over ==> Count(slots[..]) < Count(old(slots[..]))
      ensures !ok && !(strict && total > capacity) ==> Cleared(old(slots[..]), slots[..])
      ensures Served(old(slots[..]), slots[..], old(pointer), visited, old(usage), total, capacity, over, strict)
    {
      if strict {
        ok, visited := ChargeStrict(total, capacity, over);
      } else {
        ok, visited := ChargeLoose(total, capacity, over);
      }
    }

    /** Insert: charges the entry, makes room for it, then places it; an entry that finds its key or no room may
        become a standalone one. */
    method Insert(k: Key, charge: nat, countdown: nat, keep: bool, capacity: nat, strict: bool)
      returns (r: Result, ghost mid: seq<Slot>, ghost visited: nat)
      requires Valid() && 1 <= countdown <= 3
      modifies this, slots, displacements
      ensures Valid() && Turned(old(slots[..]), mid, old(pointer), visited)
      ensures old(usage) + charge <= capacity && old(occupancy) < limit ==> visited == 0 && r != NoRoom
      ensures r.NoRoom? <==> if strict then charge > capacity || !Fits(old(usage) + charge, capacity, old(occupancy) >= limit, old(slots[..]), mid)
                             else old(occupancy) >= limit && Count(mid) == Count(old(slots[..]))
      ensures r.NoRoom? && !(strict && charge > capacity) ==> Cleared(old(slots[..]), mid)
      ensures r.NoRoom? && !strict ==> old(occupancy) == limit && forall s :: 0 <= s < size ==> !Evictable(old(slots[s]))
      ensures r.Inserted? ==> r.at < size && mid[r.at] == Empty && slots[..] == mid[r.at := NewEntry(k, charge, countdown, keep)]
      ensures r.Matched? ==> r.at < size && mid[r.at].Has(k) && slots[..] == mid[r.at := Boosted(mid[r.at], countdown)]
      ensures r.NoRoom? ==> slots[..] == mid
      ensures Served(old(slots[..]), mid, old(pointer), visited, old(usage), charge, capacity, old(occupancy) >= limit, strict)
      ensures r.Inserted? ==> slots[r.at].Has(k) && slots[r.at].acquires - slots[r.at].releases == if keep then 1 else 0
      ensures !r.NoRoom? ==> forall s :: 0 <= s < size && Dist(k, bits, s) < Dist(k, bits, r.at) ==> mid[s].Entry? && !mid[s].Has(k)
      ensures standalone == old(standalone) + if keep && (r.Matched? || (r.NoRoom? && !strict)) then charge else 0
      ensures strict && !r.NoRoom? ==> usage <= capacity
    {
      var over := occupancy >= limit;
      occupancy := occupancy + 1;
      var ok;
      ok, visited := Charge(charge, capacity, over, strict);
      mid := slots[..];
      if !ok {
        occupancy := occupancy - 1;
        r := NoRoom;
        if !strict {
          NothingEvictable(old(slots[..]), mid, old(pointer), visited);
        }
        if !strict && keep {
          usage, standalone := usage + charge, standalone + charge;
        }
        return;
      }
      r := PlaceCharged(k, charge, countdown, keep);
    }

    /** Places an entry that is charged and counted; one that finds its key becomes standalone or is given up. */
    method PlaceCharged(k: Key, charge: nat, countdown: nat, keep: bool) returns (r: Result)
      requires Shape() && Placed(slots[..], displacements[..], bits) && 1 <= countdown <= 3
      requires occupancy == Count(slots[..]) + 1 <= limit && usage == base + standalone + Charges(slots[..]) + charge
      modifies this`usage, this`standalone, this`occupancy, slots, displacements
      ensures Valid() && r != NoRoom && usage <= old(usage)
      ensures standalone == old(standalone) + if keep && r.Matched? then charge else 0
      ensures r.at < size && forall s :: 0 <= s < size && Dist(k, bits, s) < Dist(k, bits, r.at) ==> old(slots[s]).Entry? && !old(slots[s]).Has(k)
      ensures r.Inserted? ==> old(slots[r.at]) == Empty && slots[..] == old(slots[..])[r.at := NewEntry(k, charge, countdown, keep)]
      ensures r.Matched? ==> old(slots[r.at]).Has(k) && slots[..] == old(slots[..])[r.at := Boosted(old(slots[r.at]), countdown)]
    {
      r := Place(k, charge, countdown, keep);
      if r.Matched? {
        occupancy := occupancy - 1;
        if keep {
          standalone := standalone + charge;
        } else {
          usage := usage - charge;
        }
      }
    }

    /** Gives back a reference; the last one of an invisible entry, or of one to be erased, frees it. */
    method Release(q: nat, useful: bool, erase: bool) returns (freed: bool)
      requires Valid() && q < size && slots[q].Entry? && slots[q].acquires > slots[q].releases
      modifies this`occupancy, this`usage, slots, displacements
      ensures Valid()
      ensures freed <==> slots[q] == Empty
      ensures freed <==> old(slots[q]).acquires == old(slots[q]).releases + 1 && (erase || !old(slots[q]).visible)
      ensures slots[..] == old(slots[..])[q := if freed then Empty else Dropped(old(slots[q]), useful)]
      ensures !freed ==> slots[q].acquires - slots[q].releases == old(slots[q]).acquires - old(slots[q]).releases - 1
      ensures !freed ==> slots[q].acquires == old(slots[q]).acquires - if useful then 0 else 1
    {
      var visible := slots[q].visible;
      Touched(slots[..], displacements[..], bits, q, Dropped(slots[q], useful));
      slots[q] := Dropped(slots[q], useful);
      freed := (erase || !visible) && slots[q].acquires == slots[q].releases;
      if freed {
        var charge := slots[q].charge;
        FreeSlot(q);
        occupancy, usage := occupancy - 1, usage - charge;
      }
    }

    /** The slot's part of an erase. */
    method EraseAt(q: nat, k: Key)
      requires Valid() && q < size
      modifies this`occupancy, this`usage, slots, displacements
      ensures Valid() && slots[..] == old(slots[..])[q := Erased(old(slots[q]), k)]
    {
      if slots[q].Has(k) {
        if slots[q].Referenced() {
          Touched(slots[..], displacements[..], bits, q, Erased(slots[q], k));
          slots[q] := Erased(slots[q], k);
        } else {
          var charge := slots[q].charge;
          FreeSlot(q);
          occupancy, usage := occupancy - 1, usage - charge;
        }
      } else {
        assert slots[..] == slots[..][q := slots[q]];
      }
    }

    /** Erase: every visible entry of k in the table goes, wherever it is. */
    method Erase(k: Key)
      requires Valid()
      modifies this`occupancy, this`usage, slots, displacements
      ensures Valid() && forall s :: 0 <= s < size ==> slots[s] == Erased(old(slots[s]), k)
      ensures forall s :: 0 <= s < size ==> !slots[s].Has(k) && (old(slots[s]).Referenced() ==> slots[s].Referenced())
      ensures forall s :: 0 <= s < size && !old(slots[s]).Has(k) ==> slots[s] == old(slots[s])
    {
      Pow2Positive(bits);
      var i, current := 0, k.base % size;
      ghost var before := slots[..];
      while i < size
        invariant i <= size && current == Probe(k, bits, i) < size && Valid()
        invariant forall s :: 0 <= s < size ==> slots[s] == if Dist(k, bits, s) < i then Erased(before[s], k) else before[s]
        decreases size - i
      {
        DistIs(k, bits, i);
        EraseAt(current, k);
        if displacements[current] == 0 {
          forall s | 0 <= s < size ensures slots[s] == Erased(before[s], k) {
            if slots[s].Has(k) {
              NothingBehind(slots[..], displacements[..], bits, k, i, s);
            }
          }
          return;
        }
        NextSlot(k, bits, i);
        i, current := i + 1, (current + Odd(k)) % size;
      }
    }
  }

  /** What a strict insert of charge total is over the capacity by; at least one entry has to go for a missing place. */
  function StrictRequest(usage: int, total: nat, capacity: nat, over: bool): nat {
    var need := if usage + total > capacity then usage + total - capacity else 0;
    if over && need == 0 then 1 else need
  }

  /** What a loose insert evicts beyond its own charge while usage is over the capacity. */
  function Extra(usage: int, total: nat, capacity: nat): nat {
    if usage <= capacity then 0 else (if capacity / 1024 < total then capacity / 1024 else total) + 1
  }

  /** A loose insert evicts for itself only if it does not fit and there is as much as that. */
  function LooseRequest(usage: int, total: nat, capacity: nat, over: bool): nat {
    var need := if usage + total <= capacity || total > usage then 0 else total + Extra(usage, total, capacity);
    if over && need == 0 then 1 else need
  }

  /** What an insert asks the clock hand for. */
  function Request(usage: int, charge: nat, capacity: nat, over: bool, strict: bool): nat {
    if !strict then LooseRequest(usage, charge, capacity, over)
    else if charge > capacity then 0
    else StrictRequest(usage, charge, capacity, over)
  }

  /** The clock hand has gone just as far as the request takes it, and a loose insert that did not fit has freed its
      own charge and the extra, or all that could be evicted. */
  ghost predicate Served(before: seq<Slot>, after: seq<Slot>, p: nat, visited: nat, usage: int, charge: nat, capacity: nat,
                         over: bool, strict: bool) {
    && (var request := Request(usage, charge, capacity, over, strict);
        if request == 0 then visited == 0 else Enough(before, p, visited, request))
    && (!strict && usage + charge > capacity && charge <= usage ==>
          Charges(before) - Charges(after) >= charge + Extra(usage, charge, capacity) || Cleared(before, after))
  }

  /** What erasing k leaves of a slot: a referenced entry becomes invisible. */
  function Erased(x: Slot, k: Key): Slot {
    if !x.Has(k) then x else if x.Referenced() then x.(visible := false) else Empty
  }

  /** An entry with one reference less; a useful one counts for the clock. */
  function Dropped(x: Slot, useful: bool): Slot
    requires x.Entry? && x.acquires > 0
  {
    if useful then x.(releases := x.releases + 1) else x.(acquires := x.acquires - 1)
  }

  function NewEntry(k: Key, charge: nat, countdown: nat, keep: bool): Slot
    requires countdown >= 1
  {
    Entry(k, charge, true, countdown, countdown - if keep then 1 else 0)
  }

  /** An entry used for a repeated insert. */
  function Boosted(x: Slot, countdown: nat): Slot
    requires x.Entry?
  {
    x.(acquires := x.acquires + countdown, releases := x.releases + countdown)
  }

  /** The last reference given back as useful lets an entry survive one clock update more than given back as not. */
  lemma UsefulRank(x: Slot)
    requires x.Entry? && x.visible && x.acquires == x.releases + 1
    ensures !Dropped(x, true).Referenced() && !Dropped(x, false).Referenced()
    ensures Rank(Dropped(x, true)) == (if x.acquires <= 3 then Rank(Dropped(x, false)) + 1 else Rank(Dropped(x, false)))
  {
  }

  lemma StillFree(slots: seq<Slot>, k: Key, bits: nat, i: nat)
    requires |slots| == Pow2(bits) && i < |slots| && Count(slots) < |slots|
    requires forall s :: 0 <= s < |slots| && Dist(k, bits, s) < i ==> slots[s].Entry?
    requires Probe(k, bits, i) < |slots| && slots[Probe(k, bits, i)].Entry?
    ensures i + 1 < |slots|
  {
    forall j: nat | j <= i ensures Probe(k, bits, j) < |slots| && slots[Probe(k, bits, j)].Entry? {
      DistIs(k, bits, j);
    }
    MoreSlots(slots, k, bits, i);
  }

  // ---- The clock ----

  /** ClockUpdate on a slot: referenced entries stay, others count down and go when the countdown is over. */
  function Clocked(x: Slot): Slot {
    if x.Empty? || x.Referenced() then x
    else if x.visible && x.acquires > 0 then
      var count := if x.acquires - 1 < 2 then x.acquires - 1 else 2;
      x.(acquires := count, releases := count)
    else Empty
  }

  /** n clock updates. */
  function Clock(x: Slot, n: nat): Slot {
    if n == 0 then x else Clocked(Clock(x, n - 1))
  }

  /** How many clock updates an unreferenced entry survives, plus one. */
  function Rank(x: Slot): nat {
    if x.Empty? then 0
    else if !x.visible then 1
    else if x.acquires < 3 then x.acquires + 1 else 4
  }

  /** An unreferenced entry is gone after as many clock updates as its rank, and not before; a
      referenced one stays as it is. */
  lemma {:induction false} ClockRank(x: Slot, n: nat)
    ensures x.Referenced() ==> Clock(x, n) == x
    ensures !x.Referenced() ==> !Clock(x, n).Referenced() && Rank(Clock(x, n)) == if n < Rank(x) then Rank(x) - n else 0
  {
    if n > 0 {
      ClockRank(x, n - 1);
    }
  }

  /** How often the clock hand visits slot s on its way from p over m slots. */
  function Visits(s: nat, p: nat, m: nat, size: nat): nat
    requires size >= 1
  {
    if m == 0 then 0 else Visits(s, p, m - 1, size) + if (p + m - 1) % size == s then 1 else 0
  }

  lemma {:induction false} VisitsGrow(s: nat, p: nat, m: nat, n: nat, size: nat)
    requires size >= 1 && m <= n
    ensures Visits(s, p, m, size) <= Visits(s, p, n, size)
    decreases n - m
  {
    if m < n {
      VisitsGrow(s, p, m, n - 1, size);
    }
  }

  /** Each slot has had as many clock updates as the hand has visited it. */
  ghost predicate Turned(before: seq<Slot>, after: seq<Slot>, p: nat, m: nat) {
    |before| == |after| >= 1 && forall s :: 0 <= s < |before| ==> after[s] == Clock(before[s], Visits(s, p, m, |before|))
  }

  /** The slots after the hand has gone m slots on from p, and the charge that has freed. */
  ghost function Turn(before: seq<Slot>, p: nat, m: nat): seq<Slot> {
    seq(|before|, s requires 0 <= s < |before| => Clock(before[s], Visits(s, p, m, |before|)))
  }

  ghost function FreedBy(before: seq<Slot>, p: nat, m: nat): int {
    Charges(before) - Charges(Turn(before, p, m))
  }

  lemma TurnedIs(before: seq<Slot>, after: seq<Slot>, p: nat, m: nat)
    requires Turned(before, after, p, m)
    ensures after == Turn(before, p, m) && FreedBy(before, p, m) == Charges(before) - Charges(after)
  {
    assert after == Turn(before, p, m);
  }

  /** The hand has stopped after the first step of four that made the freed charge enough, or after three turns. */
  ghost predicate Enough(before: seq<Slot>, p: nat, visited: nat, requested: nat) {
    && visited >= 4 && FreedBy(before, p, visited - 4) < requested
    && (FreedBy(before, p, visited) >= requested || visited >= 3 * |before| + 4)
  }

  lemma TurnOne(before: seq<Slot>, after: seq<Slot>, p: nat, m: nat)
    requires Turned(before, after, p, m)
    ensures var q := (p + m) % |after|; Turned(before, after[q := Clocked(after[q])], p, m + 1)
  {
  }

  lemma {:induction false} VisitsSum(s: nat, p: nat, m: nat, n: nat, size: nat)
    requires size >= 1
    ensures Visits(s, p, m + n, size) == Visits(s, p, m, size) + Visits(s, p + m, n, size)
  {
    if n > 0 {
      VisitsSum(s, p, m, n - 1, size);
      assert p + (m + n) - 1 == (p + m) + n - 1;
    }
  }

  lemma {:induction false} ClockSum(x: Slot, m: nat, n: nat)
    ensures Clock(x, m + n) == Clock(Clock(x, m), n)
  {
    if n > 0 {
      ClockSum(x, m, n - 1);
    }
  }

  lemma TurnMore(before: seq<Slot>, mid: seq<Slot>, after: seq<Slot>, p: nat, m: nat, n: nat)
    requires Turned(before, mid, p, m) && Turned(mid, after, p + m, n)
    ensures Turned(before, after, p, m + n)
  {
    forall s | 0 <= s < |before| ensures after[s] == Clock(before[s], Visits(s, p, m + n, |before|)) {
      VisitsSum(s, p, m, n, |before|);
      ClockSum(before[s], Visits(s, p, m, |before|), Visits(s, p + m, n, |before|));
    }
  }

  lemma TurnFour(before: seq<Slot>, mid: seq<Slot>, after: seq<Slot>, p: nat, m: nat)
    requires Turned(before, mid, p, m) && Turned(mid, after, p + m, 4)
    ensures Turned(before, after, p, m + 4)
    ensures FreedBy(before, p, m) == Charges(before) - Charges(mid) && FreedBy(before, p, m + 4) == Charges(before) - Charges(after)
  {
    TurnMore(before, mid, after, p, m, 4);
    TurnedIs(before, mid, p, m);
    TurnedIs(before, after, p, m + 4);
  }

  /** An unreferenced entry that is invisible or has a countdown of at most 2. */
  predicate Evictable(x: Slot) {
    x.Entry? && !x.Referenced() && (x.visible ==> x.acquires <= 2)
  }

  /** Every such entry is gone. */
  ghost predicate Cleared(before: seq<Slot>, after: seq<Slot>) {
    |before| == |after| && forall s :: 0 <= s < |before| && Evictable(before[s]) ==> after[s] == Empty
  }

  /** With what has been evicted the total is within the capacity, and there is a place if one is missing. */
  predicate Fits(total: int, capacity: nat, over: bool, before: seq<Slot>, after: seq<Slot>) {
    total - (Charges(before) - Charges(after)) <= capacity && (over ==> Count(after) < Count(before))
  }

  /** Three turns of the clock hand evict every such entry. */
  lemma AllEvicted(before: seq<Slot>, after: seq<Slot>, p: nat, m: nat)
    requires Turned(before, after, p, m) && m >= 3 * |before|
    ensures Cleared(before, after)
  {
    forall s | 0 <= s < |before| && Evictable(before[s]) ensures after[s] == Empty {
      ThreeTurns(s, p, m, |before|);
      ClockRank(before[s], Visits(s, p, m, |before|));
    }
  }

  lemma {:induction false} CountSame(before: seq<Slot>, after: seq<Slot>)
    requires |before| == |after| && Count(before) == Count(after)
    requires forall s :: 0 <= s < |before| && before[s].Empty? ==> after[s].Empty?
    ensures forall s :: 0 <= s < |before| ==> (before[s].Empty? <==> after[s].Empty?)
  {
    if before != [] {
      CountLess(before[1..], after[1..]);
      CountSame(before[1..], after[1..]);
    }
  }

  lemma {:induction false} CountLess(before: seq<Slot>, after: seq<Slot>)
    requires |before| == |after|
    requires forall s :: 0 <= s < |before| && before[s].Empty? ==> after[s].Empty?
    ensures Count(after) <= Count(before)
  {
    if before != [] {
      CountLess(before[1..], after[1..]);
    }
  }

  lemma TurnedEmpty(before: seq<Slot>, after: seq<Slot>, p: nat, m: nat)
    requires Turned(before, after, p, m)
    ensures forall s :: 0 <= s < |before| && before[s].Empty? ==> after[s].Empty?
  {
    forall s | 0 <= s < |before| && before[s].Empty? ensures after[s].Empty? {
      ClockRank(before[s], Visits(s, p, m, |before|));
    }
  }

  /** If all evictable entries are gone and yet no entry is, there were none. */
  lemma NothingEvictable(before: seq<Slot>, after: seq<Slot>, p: nat, m: nat)
    requires Turned(before, after, p, m) && Cleared(before, after) && Count(before) == Count(after)
    ensures forall s :: 0 <= s < |before| ==> !Evictable(before[s])
  {
    TurnedEmpty(before, after, p, m);
    CountSame(before, after);
  }

  /** Every slot is less than a turn away. */
  lemma Ahead(x: nat, s: nat, size: nat) returns (j: nat)
    requires s < size
    ensures j < size && (x + j) % size == s
  {
    var q, a := x / size, x % size;
    assert x == q * size + a;
    if a <= s {
      j := s - a;
      RemainderIs(x + j, q, s, size);
    } else {
      j := s + size - a;
      assert x + j == (q + 1) * size + s;
      RemainderIs(x + j, q + 1, s, size);
    }
  }

  /** A full turn visits every slot. */
  lemma FullTurn(s: nat, p: nat, m: nat, size: nat)
    requires size >= 1 && s < size
    ensures Visits(s, p, m + size, size) >= Visits(s, p, m, size) + 1
  {
    var j := Ahead(p + m, s, size);
    assert p + (m + j + 1) - 1 == p + m + j;
    VisitsGrow(s, p, m, m + j, size);
    VisitsGrow(s, p, m + j + 1, m + size, size);
  }

  lemma ThreeTurns(s: nat, p: nat, m: nat, size: nat)
    requires size >= 1 && s < size && m >= 3 * size
    ensures Visits(s, p, m, size) >= 3
  {
    FullTurn(s, p, 0, size);
    FullTurn(s, p, size, size);
    FullTurn(s, p, size + size, size);
    VisitsGrow(s, p, size + size + size, m, size);
  }

  /** Shifting one more count along the path. */
  lemma OneMore(before: seq<int>, after: seq<int>, bits: nat, k: Key, i: nat, d: int)
    requires Shifted(before, after, bits, k, i, d) && i < Pow2(bits)
    ensures Probe(k, bits, i) < |after|
    ensures Shifted(before, after[Probe(k, bits, i) := after[Probe(k, bits, i)] + d], bits, k, i + 1, d)
  {
    DistIs(k, bits, i);
  }

  lemma {:induction false} CountEmpty(slots: seq<Slot>)
    requires forall s :: 0 <= s < |slots| ==> slots[s] == Empty
    ensures Count(slots) == 0 && Charges(slots) == 0
  {
    if slots != [] {
      CountEmpty(slots[1..]);
    }
  }

  lemma {:induction false} PassingEmpty(slots: seq<Slot>, bits: nat, s: nat, q: nat)
    requires |slots| == Pow2(bits) && s < |slots| && q <= |slots| && forall p :: 0 <= p < |slots| ==> slots[p] == Empty
    ensures PassingFrom(slots, bits, s, q) == 0
    decreases |slots| - q
  {
    if q < |slots| {
      PassingEmpty(slots, bits, s, q + 1);
    }
  }
}
