/**
 The packed meta word of a clock cache slot: an acquire counter in the low 30 bits, a release
 counter in the next 30, and the slot state above them (`ClockHandle` in clock_cache.h).

 Atomic operations act on the whole word.  As long as neither counter has its top bit set, each
 of them changes just the field it is meant for; `Unpacked` below gives the word's fields and
 the lemmas relate every operation of the table to them.
 */
module ClockMeta {

  const COUNTER: int := 0x4000_0000
  const TOP: int := 0x2000_0000
  const STATE: int := 0x1000_0000_0000_0000
  const WORD: int := 0x1_0000_0000_0000_0000

  datatype State = Empty | Construction | Invisible | Visible {
    /** Reference counted. */
    predicate Shareable() {
      Invisible? || Visible?
    }
  }

  /** The bits of a state: occupied 4, shareable 2, visible 1. */
  function Bits(s: State): nat {
    match s
    case Empty => 0
    case Construction => 4
    case Invisible => 6
    case Visible => 7
  }

  datatype Meta = Meta(state: State, acquires: nat, releases: nat) {
    /** Neither counter has its top bit set. */
    predicate Low() {
      acquires < TOP && releases < TOP
    }

    function Packed(): int {
      Bits(state) * STATE + releases * COUNTER + acquires
    }
  }

  /** GetRefcount on the packed word. */
  function RefcountOf(word: int): int {
    (word - word / COUNTER) % COUNTER
  }

  /** The counters of a word. */
  function AcquiresOf(word: int): int {
    word % COUNTER
  }

  function ReleasesOf(word: int): int {
    word / COUNTER % COUNTER
  }

  function BitsOf(word: int): int {
    word / STATE
  }

  /** fetch_add and fetch_sub wrap around at 64 bits. */
  function FetchAdd(word: int, n: int): int {
    (word + n) % WORD
  }

  /** fetch_or of the occupied bit. */
  function FetchOrOccupied(word: int): int {
    if BitsOf(word) / 4 % 2 == 1 then word else word + 4 * STATE
  }

  /** fetch_and with all but the visible bit. */
  function FetchAndInvisible(word: int): int {
    if BitsOf(word) % 2 == 1 then word - STATE else word
  }

  /** The fields of a packed word can be read back. */
  lemma Unpacked(m: Meta)
    requires m.acquires < COUNTER && m.releases < COUNTER
    ensures 0 <= m.Packed() < WORD
    ensures AcquiresOf(m.Packed()) == m.acquires && ReleasesOf(m.Packed()) == m.releases && BitsOf(m.Packed()) == Bits(m.state)
    ensures RefcountOf(m.Packed()) == (m.acquires - m.releases) % COUNTER
  {
  }

  /** A compare-exchange on words compares all fields. */
  lemma PackedOnce(m: Meta, n: Meta)
    requires m.acquires < COUNTER && m.releases < COUNTER && n.acquires < COUNTER && n.releases < COUNTER
    requires m.Packed() == n.Packed()
    ensures m == n
  {
    Unpacked(m);
    Unpacked(n);
  }

  lemma AddAcquires(m: Meta, n: nat)
    requires m.Low() && n <= TOP
    ensures FetchAdd(m.Packed(), n) == m.(acquires := m.acquires + n).Packed()
  {
  }

  lemma SubAcquires(m: Meta, n: nat)
    requires m.Low() && n <= m.acquires
    ensures FetchAdd(m.Packed(), 0 - n) == m.(acquires := m.acquires - n).Packed()
  {
  }

  lemma AddReleases(m: Meta, n: nat)
    requires m.Low() && n <= TOP
    ensures FetchAdd(m.Packed(), n * COUNTER) == m.(releases := m.releases + n).Packed()
  {
  }

  lemma Occupy(m: Meta)
    requires m.Low()
    ensures FetchOrOccupied(m.Packed()) == m.(state := if m.state.Empty? then Construction else m.state).Packed()
  {
    Unpacked(m);
  }

  lemma Hide(m: Meta)
    requires m.Low() && m.state.Shareable()
    ensures FetchAndInvisible(m.Packed()) == m.(state := Invisible).Packed()
  {
    Unpacked(m);
  }

  /** A counter that overflows spills into the next field: with 2^30 - 1 acquires, one more reads as a release. */
  lemma AcquireOverflow(m: Meta)
    requires m.acquires == COUNTER - 1 && m.releases < COUNTER - 1
    ensures FetchAdd(m.Packed(), 1) == m.(acquires := 0, releases := m.releases + 1).Packed()
  {
  }

  // ---- Correction near overflow ----

  /** fetch_and that clears the top bits of both counters. */
  function FetchAndClear(word: int): int {
    word - (if AcquiresOf(word) >= TOP then TOP else 0) - (if ReleasesOf(word) >= TOP then TOP * COUNTER else 0)
  }

  /** The correction is triggered by the top bit or by bit 2 of the release counter read before. */
  predicate Triggers(before: int) {
    ReleasesOf(before) >= TOP || ReleasesOf(before) / 4 % 2 == 1
  }

  function CorrectNearOverflow(before: int, word: int): int {
    if Triggers(before) then FetchAndClear(word) else word
  }

  function Cleared(m: Meta): Meta {
    m.(acquires := m.acquires % TOP, releases := m.releases % TOP)
  }

  lemma ClearedWord(m: Meta)
    requires m.acquires < COUNTER && m.releases < COUNTER
    ensures FetchAndClear(m.Packed()) == Cleared(m).Packed()
  {
    Unpacked(m);
  }

  /** While both counters are low the correction changes nothing. */
  lemma CorrectionIdle(before: int, m: Meta)
    requires m.Low()
    ensures CorrectNearOverflow(before, m.Packed()) == m.Packed()
  {
    ClearedWord(m);
  }

  /** The correction keeps the reference count if and only if it is not triggered or both top bits are equal. */
  lemma CorrectionKeepsRefs(before: int, m: Meta)
    requires m.acquires < COUNTER && m.releases < COUNTER
    ensures RefcountOf(CorrectNearOverflow(before, m.Packed())) == RefcountOf(m.Packed()) <==>
            !Triggers(before) || (m.acquires < TOP <==> m.releases < TOP)
  {
    ClearedWord(m);
    Unpacked(m);
    Unpacked(Cleared(m));
  }

  /** What the clock makes of a countdown: everything from 3 up counts as 3. */
  function Countdown(counter: nat): nat {
    if counter < 3 then counter else 3
  }

  /** The correction keeps the countdown of an unreferenced entry if and only if it is not triggered, the
      counter is low, or it is at least 3 above its top bit. */
  lemma CorrectionKeepsCountdown(before: int, m: Meta)
    requires m.acquires == m.releases < COUNTER
    ensures Countdown(AcquiresOf(CorrectNearOverflow(before, m.Packed()))) == Countdown(m.acquires) <==>
            !Triggers(before) || m.acquires < TOP || m.acquires >= TOP + 3
  {
    ClearedWord(m);
    Unpacked(m);
    Unpacked(Cleared(m));
  }

  /** Releasing the last of 2^29 references triggers the correction although the release counter read before
      is below its top bit, and a countdown of 3 becomes 0. */
  lemma CorrectionExample(before: Meta, m: Meta)
    requires before == Meta(Visible, TOP, TOP - 1) && m == Meta(Visible, TOP, TOP)
    ensures FetchAdd(before.Packed(), COUNTER) == m.Packed() && ReleasesOf(before.Packed()) < TOP
    ensures Countdown(AcquiresOf(m.Packed())) == 3 && Countdown(AcquiresOf(CorrectNearOverflow(before.Packed(), m.Packed()))) == 0
  {
    Unpacked(before);
    Unpacked(m);
    ClearedWord(m);
    Unpacked(Cleared(m));
  }
}
