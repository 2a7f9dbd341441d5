/**
 The emulator as a whole: the memory buffer in front of the tree (`MemoryBuffer`,
 `WorkloadExecutor`), the record of what the workload should leave behind (`WorkloadRecorder`),
 and the instructions that drive both (`InstructionDecoder`).
 */
module Emulator {
  import opened Options
  import opened Entries
  import opened EntryLists
  import opened Levels
  import opened FileCut
  import opened Disk
  import opened Tree
  import opened Queries
  import Skyline

  // ---- The buffer ----

  /** Bytes of the points: two keys and the value. */
  function PointBytes(ps: seq<Point>): nat {
    if ps == [] then 0 else 16 + |ps[0].value| + PointBytes(ps[1..])
  }

  /** Finds the first point with a key. */
  method Find(ps: seq<Point>, key: int) returns (i: nat)
    ensures i <= |ps| && (i < |ps| <==> HasKey(ps, key))
    ensures i < |ps| ==> ps[i].key == key && ValueAt(ps, key) == Some(ps[i].value)
  {
    i := 0;
    assert ps[0..] == ps;
    while i < |ps| && ps[i].key != key
      invariant i <= |ps| && ValueAt(ps, key) == ValueAt(ps[i..], key)
    {
      assert ps[i..][1..] == ps[i + 1..];
      i := i + 1;
    }
    assert i < |ps| ==> ps[i..][0] == ps[i];
  }

  lemma {:induction false} SetValue(ps: seq<Point>, i: nat, value: string)
    requires DistinctKeys(ps) && i < |ps|
    ensures var qs := ps[i := Point(ps[i].key, value)];
            && DistinctKeys(qs)
            && (forall k :: ValueAt(qs, k) == if k == ps[i].key then Some(value) else ValueAt(ps, k))
            && PointBytes(qs) == PointBytes(ps) + |value| - |ps[i].value|
  {
    var qs := ps[i := Point(ps[i].key, value)];
    if i == 0 {
      assert qs[1..] == ps[1..];
    } else {
      assert qs[1..] == ps[1..][i - 1 := Point(ps[i].key, value)];
      SetValue(ps[1..], i - 1, value);
      ValueIndex(ps[1..], ps[0].key);
      assert ps[1..][i - 1] == ps[i];
    }
  }

  lemma {:induction false} AddPoint(ps: seq<Point>, p: Point)
    requires DistinctKeys(ps) && !HasKey(ps, p.key)
    ensures DistinctKeys(ps + [p])
    ensures forall k :: ValueAt(ps + [p], k) == if k == p.key then Some(p.value) else ValueAt(ps, k)
    ensures PointBytes(ps + [p]) == PointBytes(ps) + 16 + |p.value|
  {
    if ps == [] {
      assert ps + [p] == [p];
    } else {
      AddPoint(ps[1..], p);
      assert (ps + [p])[1..] == ps[1..] + [p];
    }
  }

  /** remove_point_entries_in_range: drops the points of a range from the buffer. */
  method RemovePointsInRange(ps: seq<Point>, r: Interval) returns (kept: seq<Point>, count: nat, bytes: nat)
    requires DistinctKeys(ps)
    ensures DistinctKeys(kept)
    ensures forall k :: ValueAt(kept, k) == if In(k, r) then None else ValueAt(ps, k)
    ensures |kept| + count == |ps| && PointBytes(kept) + bytes == PointBytes(ps)
  {
    kept, count, bytes := [], 0, 0;
    var rest := ps;
    assert kept + rest == ps;
    while rest != []
      invariant DistinctKeys(kept) && DistinctKeys(rest)
      invariant forall k :: ValueAt(kept, k).None? || ValueAt(rest, k).None?
      invariant forall k :: if In(k, r) then ValueAt(kept, k) == None else OrElse(ValueAt(kept, k), ValueAt(rest, k)) == ValueAt(ps, k)
      invariant |kept| + |rest| + count == |ps| && PointBytes(kept) + PointBytes(rest) + bytes == PointBytes(ps)
      decreases |rest|
    {
      var p := rest[0];
      if In(p.key, r) {
        count, bytes := count + 1, bytes + 16 + |p.value|;
      } else {
        AddPoint(kept, p);
        kept := kept + [p];
      }
      rest := rest[1..];
    }
  }

  /** Searches the buffer: points first, then range deletes. */
  method SearchBuffer(b: EntryList, k: int) returns (v: Verdict)
    ensures v == VerdictOf(b, k)
  {
    var i := Find(b.points, k);
    if i < |b.points| {
      return Live(b.points[i].value);
    }
    var rest := b.ranges;
    while rest != []
      invariant Covers(b.ranges, k) <==> Covers(rest, k)
      decreases |rest|
    {
      if In(k, rest[0]) {
        return Deleted;
      }
      rest := rest[1..];
    }
    v := Absent;
  }

  // ---- Buffer and tree together ----

  /** What the buffer and the tree below it say about k. */
  function Says(b: EntryList, levels: seq<seq<EntryList>>, k: int): Verdict {
    Under(VerdictOf(b, k), MeaningFrom(levels, 1, k))
  }

  /** The buffer or the tree holds a point of k, hidden or not. */
  predicate Stores(b: EntryList, levels: seq<seq<EntryList>>, k: int) {
    HasKey(b.points, k) || StoredFrom(levels, 1, k)
  }

  function TruthOf(truth: map<int, string>, k: int): Option<string> {
    if k in truth then Some(truth[k]) else None
  }

  /** The ground truth of k is what buffer and tree say. */
  predicate RecordedKey(b: EntryList, levels: seq<seq<EntryList>>, truth: map<int, string>, k: int) {
    ValueOf(Says(b, levels, k)) == TruthOf(truth, k)
  }

  /** A key exists exactly if no range delete came after its last insert; only inserted keys are stored. */
  ghost predicate StampedKey(b: EntryList, levels: seq<seq<EntryList>>, truth: map<int, string>, stamps: map<int, int>,
                             history: seq<Skyline.Tagged>, seqno: nat, k: int) {
    && (k in stamps ==> stamps[k] <= seqno)
    && (k in truth <==> k in stamps && !Skyline.Dead(history, k, stamps[k]))
    && (Stores(b, levels, k) ==> k in stamps)
  }

  /** A flush changes neither what is said about k nor adds a point of k. */
  predicate FlushedKey(b: EntryList, levels: seq<seq<EntryList>>, b': EntryList, levels': seq<seq<EntryList>>, k: int) {
    Says(b', levels', k) == Says(b, levels, k) && (Stores(b', levels', k) ==> Stores(b, levels, k))
  }

  /** Keys are inclusive and fit into an int, tags rise and are all below the next instruction's. */
  predicate Numbered(history: seq<Skyline.Tagged>, seqno: nat) {
    && (forall i :: 0 <= i < |history| ==> 0 <= history[i].lo <= history[i].hi < 0x8000_0000 && 0 <= history[i].tag < seqno)
    && (forall i, j :: 0 <= i < j < |history| ==> history[i].tag < history[j].tag)
  }

  /** The two equations of checkEquation. */
  predicate Counted(b: EntryList, s: State, inserts: nat, updates: nat, bufferDeleted: nat, rangeDeletes: nat) {
    && |b.points| + updates + PointsFrom(s.levels, 1) + s.mergedPoints + s.deletedPoints + bufferDeleted == inserts
    && |b.ranges| + RangesFrom(s.levels, 1) + s.mergedRanges - s.splits == rangeDeletes
  }

  predicate InRange(key: int) {
    0 <= key < 0x8000_0000
  }

  /** What the skyline query answers below a buffer that says nothing about k. */
  lemma SkylineTruth(b: EntryList, levels: seq<seq<EntryList>>, truth: map<int, string>, stamps: map<int, int>,
                     history: seq<Skyline.Tagged>, seqno: nat, k: int, stamp: int)
    requires RecordedKey(b, levels, truth, k) && StampedKey(b, levels, truth, stamps, history, seqno, k)
    requires VerdictOf(b, k) == Absent && Numbered(history, seqno) && seqno <= 0x8000_0000 && (k in stamps ==> stamp == stamps[k])
    ensures Skyline.Lined(Skyline.Build(history))
    ensures var r := if Skyline.Answer(Skyline.ViewOf(Skyline.Build(history), k), stamp) then FirstStored(levels, 1, k) else None;
            r != TruthOf(truth, k) <==> StoredFrom(levels, 1, k) && k in stamps && Skyline.Missed(history, k, stamps[k])
  {
    FirstStoredIs(levels, 1, k);
    assert Skyline.History(history);
    Skyline.BuildOk(history);
    Skyline.SkylineWrong(history, k, stamp);
  }

  lemma FlushKeys(b: EntryList, levels: seq<seq<EntryList>>, levels': seq<seq<EntryList>>)
    requires forall k :: WroteKey(levels, levels', b, 1, k)
    ensures forall k :: FlushedKey(b, levels, EntryList([], []), levels', k)
  {
    forall k ensures FlushedKey(b, levels, EntryList([], []), levels', k) {
      assert WroteKey(levels, levels', b, 1, k);
    }
  }

  lemma InsertedKey(b: EntryList, b1: EntryList, levels: seq<seq<EntryList>>, b2: EntryList, levels2: seq<seq<EntryList>>,
                    truth: map<int, string>, stamps: map<int, int>, history: seq<Skyline.Tagged>, seqno: nat,
                    key: int, value: string, k: int)
    requires RecordedKey(b, levels, truth, k) && StampedKey(b, levels, truth, stamps, history, seqno, k) && Numbered(history, seqno)
    requires b1.ranges == b.ranges && ValueAt(b1.points, k) == if k == key then Some(value) else ValueAt(b.points, k)
    requires FlushedKey(b1, levels, b2, levels2, k)
    ensures RecordedKey(b2, levels2, truth[key := value], k)
    ensures StampedKey(b2, levels2, truth[key := value], stamps[key := seqno + 1], history, seqno + 1, k)
  {
  }

  lemma InsertedKeys(b: EntryList, b1: EntryList, levels: seq<seq<EntryList>>, b2: EntryList, levels2: seq<seq<EntryList>>,
                     truth: map<int, string>, stamps: map<int, int>, history: seq<Skyline.Tagged>, seqno: nat, key: int, value: string,
                     truth': map<int, string>, stamps': map<int, int>, next: nat)
    requires truth' == truth[key := value] && stamps' == stamps[key := next] && next == seqno + 1
    requires forall k :: RecordedKey(b, levels, truth, k)
    requires forall k :: StampedKey(b, levels, truth, stamps, history, seqno, k)
    requires Numbered(history, seqno) && b1.ranges == b.ranges
    requires forall k :: ValueAt(b1.points, k) == if k == key then Some(value) else ValueAt(b.points, k)
    requires forall k :: FlushedKey(b1, levels, b2, levels2, k)
    ensures forall k :: RecordedKey(b2, levels2, truth', k)
    ensures forall k :: StampedKey(b2, levels2, truth', stamps', history, next, k)
  {
    forall k ensures RecordedKey(b2, levels2, truth', k) && StampedKey(b2, levels2, truth', stamps', history, next, k) {
      assert RecordedKey(b, levels, truth, k) && StampedKey(b, levels, truth, stamps, history, seqno, k);
      assert FlushedKey(b1, levels, b2, levels2, k);
      InsertedKey(b, b1, levels, b2, levels2, truth, stamps, history, seqno, key, value, k);
    }
  }

  lemma DeadGrows(history: seq<Skyline.Tagged>, x: Skyline.Tagged, k: int, t: int)
    ensures Skyline.Dead(history + [x], k, t) <==> Skyline.Dead(history, k, t) || (Skyline.Hits(x, k) && t <= x.tag)
  {
    var more := history + [x];
    if Skyline.Dead(history, k, t) {
      var i :| 0 <= i < |history| && Skyline.Hits(history[i], k) && t <= history[i].tag;
      assert more[i] == history[i];
    }
    if Skyline.Hits(x, k) && t <= x.tag {
      assert more[|history|] == x;
    }
  }

  function Erased(truth: map<int, string>, r: Interval): map<int, string> {
    map k | k in truth && !In(k, r) :: truth[k]
  }

  lemma DeletedKey(b: EntryList, b1: EntryList, levels: seq<seq<EntryList>>, b2: EntryList, levels2: seq<seq<EntryList>>,
                   truth: map<int, string>, stamps: map<int, int>, history: seq<Skyline.Tagged>, seqno: nat,
                   r: Interval, k: int)
    requires RecordedKey(b, levels, truth, k) && StampedKey(b, levels, truth, stamps, history, seqno, k)
    requires ValueAt(b1.points, k) == if In(k, r) then None else ValueAt(b.points, k)
    requires Covers(b1.ranges, k) <==> Covers(b.ranges, k) || In(k, r)
    requires FlushedKey(b1, levels, b2, levels2, k)
    ensures RecordedKey(b2, levels2, Erased(truth, r), k)
    ensures StampedKey(b2, levels2, Erased(truth, r), stamps, history + [Skyline.Tagged(r.lo, r.hi, seqno)], seqno + 1, k)
  {
    if k in stamps {
      DeadGrows(history, Skyline.Tagged(r.lo, r.hi, seqno), k, stamps[k]);
    }
  }

  lemma DeletedKeys(b: EntryList, b1: EntryList, levels: seq<seq<EntryList>>, b2: EntryList, levels2: seq<seq<EntryList>>,
                    truth: map<int, string>, stamps: map<int, int>, history: seq<Skyline.Tagged>, seqno: nat, r: Interval,
                    truth': map<int, string>, history': seq<Skyline.Tagged>, next: nat)
    requires truth' == Erased(truth, r) && history' == history + [Skyline.Tagged(r.lo, r.hi, seqno)] && next == seqno + 1
    requires forall k :: RecordedKey(b, levels, truth, k)
    requires forall k :: StampedKey(b, levels, truth, stamps, history, seqno, k)
    requires forall k :: ValueAt(b1.points, k) == if In(k, r) then None else ValueAt(b.points, k)
    requires b1.ranges == b.ranges + [r]
    requires forall k :: FlushedKey(b1, levels, b2, levels2, k)
    ensures forall k :: RecordedKey(b2, levels2, truth', k)
    ensures forall k :: StampedKey(b2, levels2, truth', stamps, history', next, k)
  {
    CoversAppend(b.ranges, r);
    forall k ensures RecordedKey(b2, levels2, truth', k) && StampedKey(b2, levels2, truth', stamps, history', next, k) {
      assert RecordedKey(b, levels, truth, k) && StampedKey(b, levels, truth, stamps, history, seqno, k);
      assert FlushedKey(b1, levels, b2, levels2, k);
      DeletedKey(b, b1, levels, b2, levels2, truth, stamps, history, seqno, r, k);
    }
  }

  lemma NumberedNext(history: seq<Skyline.Tagged>, r: Interval, seqno: nat)
    requires Numbered(history, seqno) && 0 <= r.lo <= r.hi < 0x8000_0000
    ensures Numbered(history + [Skyline.Tagged(r.lo, r.hi, seqno)], seqno + 1)
  {
  }

  lemma {:induction false} AllProperAppend(rs: seq<Interval>, r: Interval)
    requires AllProper(rs) && r.lo <= r.hi
    ensures AllProper(rs + [r])
  {
    if rs != [] {
      AllProperAppend(rs[1..], r);
      assert (rs + [r])[1..] == rs[1..] + [r];
    }
  }

  /** The buffer with its statistics (MemoryBuffer). */
  class MemoryBuffer {
    var points: seq<Point>
    var ranges: seq<Interval>
    var pointCount: int
    var rangeCount: int
    var size: int
    var flushes: nat

    constructor ()
      ensures Ok() && Entries() == EntryList([], []) && flushes == 0
    {
      points, ranges, pointCount, rangeCount, size, flushes := [], [], 0, 0, 0, 0;
    }

    function Entries(): EntryList
      reads this
    {
      EntryList(points, ranges)
    }

    /** Distinct keys, proper ranges, and statistics that match the entries. */
    ghost predicate Ok()
      reads this
    {
      && Incoming(Entries(), 1)
      && pointCount == |points| && rangeCount == |ranges| && size == PointBytes(points) + 16 * |ranges|
    }

    /** An update in place or a new point. */
    method PutPoint(key: int, value: string) returns (updated: bool)
      requires Ok() && 0 <= key
      modifies this
      ensures Ok() && ranges == old(ranges) && flushes == old(flushes)
      ensures forall k :: ValueAt(points, k) == if k == key then Some(value) else ValueAt(old(points), k)
      ensures updated <==> HasKey(old(points), key)
      ensures |points| == |old(points)| + if updated then 0 else 1
    {
      ghost var before := points;
      var i := Find(points, key);
      updated := i < |points|;
      if updated {
        SetValue(points, i, value);
        size := size + |value| - |points[i].value|;
        points := points[i := Point(key, value)];
      } else {
        AddPoint(points, Point(key, value));
        size := size + 16 + |value|;
        pointCount := pointCount + 1;
        points := points + [Point(key, value)];
      }
      assert forall k :: Mentions(Entries(), k) ==> k == key || Mentions(EntryList(before, ranges), k);
    }

    /** A tombstone; the points it deletes leave the buffer. */
    method PutTombstone(r: Interval) returns (count: nat)
      requires Ok() && 0 <= r.lo <= r.hi
      modifies this
      ensures Ok() && ranges == old(ranges) + [r] && flushes == old(flushes)
      ensures forall k :: ValueAt(points, k) == if In(k, r) then None else ValueAt(old(points), k)
      ensures |points| + count == |old(points)|
    {
      ghost var before := Entries();
      CoversAppend(ranges, r);
      AllProperAppend(ranges, r);
      var kept, bytes;
      kept, count, bytes := RemovePointsInRange(points, r);
      size, rangeCount, ranges := size + 16, rangeCount + 1, ranges + [r];
      pointCount, size, points := pointCount - count, size - bytes, kept;
      assert forall k :: Mentions(Entries(), k) ==> In(k, r) || Mentions(before, k);
    }

    method Clear()
      modifies this
      ensures Ok() && Entries() == EntryList([], []) && flushes == old(flushes) + 1
    {
      points, ranges, flushes := [], [], flushes + 1;
      pointCount, rangeCount, size := 0, 0, 0;
    }
  }

  /** The buffer in front of the tree, and the counters of the workload (WorkloadExecutor). */
  class WorkloadExecutor {
    const disk: DiskMetaFile
    const buffer: MemoryBuffer
    const maxBuffer: int
    const threshold: real

    var inserts: nat
    var updates: nat
    var rangeDeletes: nat
    var bufferDeleted: nat

    constructor (env: Env, maxBuffer: int, threshold: real)
      requires env.Valid() && maxBuffer > 0
      ensures Sound() && fresh(disk) && fresh(buffer)
      ensures disk.env == env && this.maxBuffer == maxBuffer && this.threshold == threshold
      ensures inserts == 0 && rangeDeletes == 0 && buffer.Entries() == EntryList([], [])
      ensures forall j :: 0 <= j < |disk.levels| ==> disk.levels[j] == []
    {
      disk := new DiskMetaFile(env);
      buffer := new MemoryBuffer();
      this.maxBuffer, this.threshold := maxBuffer, threshold;
      inserts, updates, rangeDeletes, bufferDeleted := 0, 0, 0, 0;
      new;
      EmptyTree(disk.levels, 1);
    }

    /** Buffer and tree are well-formed, and every insert and range delete is accounted for. */
    ghost predicate Sound()
      reads this, disk, buffer
    {
      && disk.Valid() && buffer.Ok() && maxBuffer > 0
      && Counted(buffer.Entries(), disk.Now(), inserts, updates, bufferDeleted, rangeDeletes)
    }

    predicate Saturated()
      reads this, buffer
      requires maxBuffer > 0
    {
      buffer.size as real / maxBuffer as real >= threshold
    }

    /** Under which condition the program stops: at a flush of the buffer, and for a tile larger than one page, more
        tombstones than fit into a file beside a point, or a saturated last level. */
    predicate Stops(why: Failure)
      reads this, disk, buffer
      requires maxBuffer > 0
    {
      Saturated() &&
      match why
      case TileRelation => disk.env.tile > 1
      case CutUnderflow => disk.env.sizes.file < Bytes(1, rangeDeletes + disk.splits, disk.env.sizes)
      case NoSuchLevel => |disk.levels| == LEVELS && |disk.levels[LEVELS - 1]| >= MaxFiles(disk.env, LEVELS - 1)
    }

    /** checkBufferFlush: a saturated buffer is written into the tree. */
    method CheckBufferFlush() returns (r: Outcome<()>)
      requires Sound()
      modifies disk, buffer
      ensures r.Ok? ==> Sound()
      ensures r.Ok? && old(Saturated()) ==> buffer.Entries() == EntryList([], []) && buffer.flushes == old(buffer.flushes) + 1
      ensures r.Ok? && !old(Saturated()) ==> buffer.Entries() == old(buffer.Entries()) && disk.Now() == old(disk.Now())
      ensures r.Ok? ==> forall k :: FlushedKey(old(buffer.Entries()), old(disk.levels), buffer.Entries(), disk.levels, k)
      ensures r.Exit? ==> Stops(r.why) && buffer.Entries() == old(buffer.Entries())
      ensures old(Saturated()) && old(disk.levels[1]) == [] && 0 < |old(buffer.points)| < disk.env.tile ==> r == Exit(TileRelation)
    {
      if !Saturated() {
        return Ok(());
      }
      ghost var s := disk.Now();
      ghost var first, u;
      r, first, u := disk.Flush(buffer.Entries());
      if r.Exit? {
        if r.why == CutUnderflow {
          TimesMonotone(RangesFrom(s.levels, 1) + |buffer.ranges| + disk.splits - s.splits, rangeDeletes + disk.splits, disk.env.sizes.range);
        }
        return;
      }
      FlushKeys(buffer.Entries(), s.levels, disk.levels);
      buffer.Clear();
    }

    /** WorkloadExecutor::insert; b1 is the buffer before the flush. */
    method InsertEntry(key: int, value: string) returns (r: Outcome<()>, ghost b1: EntryList)
      requires Sound() && InRange(key)
      modifies this`inserts, this`updates, disk, buffer
      ensures r.Ok? ==> Sound() && inserts == old(inserts) + 1 && b1.ranges == old(buffer.ranges)
      ensures r.Ok? ==> forall k :: ValueAt(b1.points, k) == if k == key then Some(value) else ValueAt(old(buffer.points), k)
      ensures r.Ok? ==> forall k :: FlushedKey(b1, old(disk.levels), buffer.Entries(), disk.levels, k)
      ensures r.Exit? ==> Stops(r.why)
    {
      var updated := buffer.PutPoint(key, value);
      inserts := inserts + 1;
      if updated {
        updates := updates + 1;
      }
      b1 := buffer.Entries();
      r := CheckBufferFlush();
    }

    /** WorkloadExecutor::rangeDeleteOnPrimaryKey without the skyline filter. */
    method DeleteEntries(range: Interval) returns (r: Outcome<()>, ghost b1: EntryList)
      requires Sound() && 0 <= range.lo <= range.hi
      modifies this`rangeDeletes, this`bufferDeleted, disk, buffer
      ensures r.Ok? ==> Sound() && rangeDeletes == old(rangeDeletes) + 1 && b1.ranges == old(buffer.ranges) + [range]
      ensures r.Ok? ==> forall k :: ValueAt(b1.points, k) == if In(k, range) then None else ValueAt(old(buffer.points), k)
      ensures r.Ok? ==> forall k :: FlushedKey(b1, old(disk.levels), buffer.Entries(), disk.levels, k)
      ensures r.Exit? ==> Stops(r.why)
    {
      var count := buffer.PutTombstone(range);
      rangeDeletes, bufferDeleted := rangeDeletes + 1, bufferDeleted + count;
      b1 := buffer.Entries();
      r := CheckBufferFlush();
    }
  }

  /** What the workload should leave behind (WorkloadRecorder). */
  class WorkloadRecorder {
    var truth: map<int, string>
    var stamps: map<int, int>

    constructor ()
      ensures truth == map[] && stamps == map[]
    {
      truth, stamps := map[], map[];
    }

    method Insert(key: int, value: string, stamp: int)
      modifies this
      ensures truth == old(truth)[key := value] && stamps == old(stamps)[key := stamp]
    {
      truth, stamps := truth[key := value], stamps[key := stamp];
    }

    method Remove(range: Interval)
      modifies this
      ensures truth == Erased(old(truth), range) && stamps == old(stamps)
    {
      truth := Erased(truth, range);
    }
  }

  /** The workload driver (InstructionDecoder) with everything it drives. */
  class Emulator {
    const executor: WorkloadExecutor
    const skyline: Skyline.SkylineRangeDeleteFilter
    const recorder: WorkloadRecorder
    var seqno: nat
    ghost var history: seq<Skyline.Tagged>

    constructor (env: Env, maxBuffer: int, threshold: real)
      requires env.Valid() && maxBuffer > 0
      ensures Valid() && fresh(executor) && fresh(executor.disk) && fresh(executor.buffer) && fresh(skyline) && fresh(recorder)
      ensures Ran([]) && recorder.truth == map[] && seqno == 0 && history == []
      ensures executor.disk.env == env
    {
      executor := new WorkloadExecutor(env, maxBuffer, threshold);
      skyline := new Skyline.SkylineRangeDeleteFilter();
      recorder := new WorkloadRecorder();
      seqno, history := 0, [];
      new;
      EmptyTree(executor.disk.levels, 1);
    }

    /** Buffer and tree say what the recorder says, and so do the insert stamps and the range
        deletes the skyline filter was built from. */
    ghost predicate Valid()
      reads this, executor, executor.disk, executor.buffer, skyline, recorder
    {
      && executor.Sound()
      && (forall k :: RecordedKey(executor.buffer.Entries(), executor.disk.levels, recorder.truth, k))
      && (forall k :: StampedKey(executor.buffer.Entries(), executor.disk.levels, recorder.truth, recorder.stamps, history, seqno, k))
      && Numbered(history, seqno) && skyline.list == Skyline.Build(history)
    }

    /** The state the recorder still describes: buffer b1 over the old levels has since been flushed. */
    ghost predicate Pending(b: EntryList, b1: EntryList, levels: seq<seq<EntryList>>)
      reads this, executor, executor.disk, executor.buffer, recorder
    {
      && executor.Sound() && Numbered(history, seqno)
      && (forall k :: RecordedKey(b, levels, recorder.truth, k))
      && (forall k :: StampedKey(b, levels, recorder.truth, recorder.stamps, history, seqno, k))
      && (forall k :: FlushedKey(b1, levels, executor.buffer.Entries(), executor.disk.levels, k))
    }

    method RecordInsert(key: int, value: string, ghost b: EntryList, ghost b1: EntryList, ghost levels: seq<seq<EntryList>>)
      requires Pending(b, b1, levels) && skyline.list == Skyline.Build(history) && b1.ranges == b.ranges
      requires forall k :: ValueAt(b1.points, k) == if k == key then Some(value) else ValueAt(b.points, k)
      modifies this`seqno, recorder
      ensures Valid() && seqno == old(seqno) + 1 && recorder.truth == old(recorder.truth)[key := value]
    {
      ghost var truth, stamps := recorder.truth, recorder.stamps;
      seqno := seqno + 1;
      recorder.Insert(key, value, seqno);
      InsertedKeys(b, b1, levels, executor.buffer.Entries(), executor.disk.levels, truth, stamps, history, seqno - 1, key, value,
                   recorder.truth, recorder.stamps, seqno);
    }

    method RecordDelete(range: Interval, ghost b: EntryList, ghost b1: EntryList, ghost levels: seq<seq<EntryList>>)
      requires Pending(b, b1, levels) && 0 <= range.lo <= range.hi < 0x8000_0000 && b1.ranges == b.ranges + [range]
      requires skyline.list == Skyline.Build(history + [Skyline.Tagged(range.lo, range.hi, seqno)])
      requires forall k :: ValueAt(b1.points, k) == if In(k, range) then None else ValueAt(b.points, k)
      modifies this, recorder
      ensures Valid() && seqno == old(seqno) + 1 && recorder.truth == Erased(old(recorder.truth), range)
      ensures history == old(history) + [Skyline.Tagged(range.lo, range.hi, old(seqno))]
    {
      ghost var truth, stamps, past := recorder.truth, recorder.stamps, history;
      NumberedNext(history, range, seqno);
      history := past + [Skyline.Tagged(range.lo, range.hi, seqno)];
      seqno := seqno + 1;
      recorder.Remove(range);
      DeletedKeys(b, b1, levels, executor.buffer.Entries(), executor.disk.levels, truth, stamps, past, seqno - 1, range,
                  recorder.truth, history, seqno);
    }

    /** An instruction "I key value". */
    method Insert(key: int, value: string) returns (r: Outcome<()>)
      requires Valid() && InRange(key)
      modifies this, executor, executor.disk, executor.buffer, recorder
      ensures r.Ok? ==> Valid() && recorder.truth == old(recorder.truth)[key := value]
      ensures r.Ok? ==> history == old(history) && seqno == old(seqno) + 1
      ensures r.Ok? ==> executor.inserts == old(executor.inserts) + 1 && executor.rangeDeletes == old(executor.rangeDeletes)
      ensures r.Exit? ==> executor.Stops(r.why)
    {
      ghost var b, levels, b1 := executor.buffer.Entries(), executor.disk.levels, executor.buffer.Entries();
      r, b1 := executor.InsertEntry(key, value);
      if r.Exit? {
        return;
      }
      RecordInsert(key, value, b, b1, levels);
    }

    /** An instruction "RD lo hi". */
    method RangeDelete(lo: int, hi: int) returns (r: Outcome<()>)
      requires Valid() && InRange(lo) && InRange(hi) && lo <= hi
      modifies this, executor, executor.disk, executor.buffer, recorder, skyline
      ensures r.Ok? ==> Valid() && recorder.truth == Erased(old(recorder.truth), Interval(lo, hi))
      ensures r.Ok? ==> history == old(history) + [Skyline.Tagged(lo, hi, old(seqno))] && seqno == old(seqno) + 1
      ensures r.Ok? ==> executor.inserts == old(executor.inserts) && executor.rangeDeletes == old(executor.rangeDeletes) + 1
      ensures r.Exit? ==> executor.Stops(r.why)
    {
      ghost var b, levels, b1 := executor.buffer.Entries(), executor.disk.levels, executor.buffer.Entries();
      BuildNext(history, Skyline.Tagged(lo, hi, seqno));
      skyline.Add(Skyline.Tagged(lo, hi, seqno));
      r, b1 := executor.DeleteEntries(Interval(lo, hi));
      if r.Exit? {
        return;
      }
      RecordDelete(Interval(lo, hi), b, b1, levels);
    }

    /** pointQuery_RDF: buffer and tree with the plain filters give the ground truth. */
    method PointQuery(k: int) returns (r: Option<string>, probed: nat)
      requires Valid()
      ensures r == TruthOf(recorder.truth, k)
      ensures probed == if VerdictOf(executor.buffer.Entries(), k) == Absent then PlainProbes(executor.disk.levels, executor.disk.plain, 1, k) else 0
    {
      assert RecordedKey(executor.buffer.Entries(), executor.disk.levels, recorder.truth, k);
      var v := SearchBuffer(executor.buffer.Entries(), k);
      if v != Absent {
        return ValueOf(v), 0;
      }
      r, probed := QueryPlain(executor.disk.levels, executor.disk.plain, executor.disk.split, k);
    }

    /** pointQuery_SplitRDF: buffer and tree with the split filters give the ground truth. */
    method PointQuerySplit(k: int) returns (r: Option<string>, probed: nat)
      requires Valid()
      ensures r == TruthOf(recorder.truth, k)
      ensures probed == if VerdictOf(executor.buffer.Entries(), k) == Absent then SplitProbes(executor.disk.levels, executor.disk.split, 1, k) else 0
    {
      assert RecordedKey(executor.buffer.Entries(), executor.disk.levels, recorder.truth, k);
      var v := SearchBuffer(executor.buffer.Entries(), k);
      if v != Absent {
        return ValueOf(v), 0;
      }
      r, probed := QuerySplit(executor.disk.levels, executor.disk.plain, executor.disk.split, k);
    }

    /** Where the skyline query goes wrong. */
    ghost predicate Wrong(k: int)
      reads this, executor, executor.disk, executor.buffer, recorder
    {
      && VerdictOf(executor.buffer.Entries(), k) == Absent && StoredFrom(executor.disk.levels, 1, k)
      && k in recorder.stamps && Skyline.Missed(history, k, recorder.stamps[k])
    }

    /** pointQuery_RDF_SkyLine with the stamp of the last insert: the ground truth, unless the buffer says
        nothing, a point of k is stored, and the delete after its last insert escapes the skyline filter. */
    method PointQuerySkyline(k: int) returns (r: Option<string>, probed: nat)
      requires Valid() && seqno <= 0x8000_0000
      ensures r != TruthOf(recorder.truth, k) <==> Wrong(k)
      ensures probed == if VerdictOf(executor.buffer.Entries(), k) == Absent then SkylineProbes(executor.disk.levels, 1, k) else 0
    {
      assert RecordedKey(executor.buffer.Entries(), executor.disk.levels, recorder.truth, k);
      assert StampedKey(executor.buffer.Entries(), executor.disk.levels, recorder.truth, recorder.stamps, history, seqno, k);
      var v := SearchBuffer(executor.buffer.Entries(), k);
      if v != Absent {
        return ValueOf(v), 0;
      }
      var stamp := if k in recorder.stamps then recorder.stamps[k] else 0;
      SkylineTruth(executor.buffer.Entries(), executor.disk.levels, recorder.truth, recorder.stamps, history, seqno, k, stamp);
      r, probed := QuerySkyline(executor.disk.levels, executor.disk.plain, executor.disk.split, skyline.list, k, stamp);
    }

    /** checkEquation: both assertions hold. */
    method CheckEquation() returns (points: bool, ranges: bool)
      requires Valid()
      ensures points && ranges
    {
      var levels := executor.disk.levels;
      points := executor.buffer.pointCount + executor.updates + PointsFrom(levels, 1) + executor.disk.mergedPoints
        + executor.disk.deletedPoints + executor.bufferDeleted == executor.inserts;
      ranges := executor.buffer.rangeCount + RangesFrom(levels, 1) + executor.disk.mergedRanges - executor.disk.splits
        == executor.rangeDeletes;
    }

    /** decode: one instruction. */
    method Decode(op: Op) returns (r: Outcome<()>)
      requires Valid() && op.Ok()
      modifies this, executor, executor.disk, executor.buffer, recorder, skyline
      ensures r.Ok? ==> Valid() && forall k :: TruthOf(recorder.truth, k) == Effect(op, k, TruthOf(old(recorder.truth), k))
      ensures r.Ok? ==> executor.inserts + executor.rangeDeletes == old(executor.inserts + executor.rangeDeletes) + 1
      ensures r.Exit? ==> executor.Stops(r.why)
    {
      match op {
        case Put(key, value) => r := Insert(key, value);
        case DeleteRange(lo, hi) => r := RangeDelete(lo, hi);
      }
    }

    /** The emulator is in the state the instructions done lead to. */
    ghost predicate Ran(done: seq<Op>)
      reads this, executor, executor.disk, executor.buffer, skyline, recorder
    {
      && Valid() && executor.inserts + executor.rangeDeletes == |done|
      && forall k :: TruthOf(recorder.truth, k) == Replay(done, k)
    }

    method Next(ops: seq<Op>, i: nat) returns (r: Outcome<()>)
      requires i < |ops| && ops[i].Ok() && Ran(ops[..i])
      modifies this, executor, executor.disk, executor.buffer, recorder, skyline
      ensures r.Ok? ==> Ran(ops[..i + 1])
      ensures r.Exit? ==> executor.Stops(r.why)
    {
      ReplayNext(ops, i);
      r := Decode(ops[i]);
    }

    /** A whole workload on a new emulator. */
    method Run(ops: seq<Op>) returns (r: Outcome<()>)
      requires Ran([]) && forall i :: 0 <= i < |ops| ==> ops[i].Ok()
      modifies this, executor, executor.disk, executor.buffer, recorder, skyline
      ensures r.Ok? ==> Ran(ops)
      ensures r.Exit? ==> executor.Stops(r.why)
    {
      assert ops[..0] == [] && ops[..|ops|] == ops;
      for i := 0 to |ops|
        invariant Ran(ops[..i])
      {
        r := Next(ops, i);
        if r.Exit? {
          return;
        }
      }
      r := Ok(());
    }
  }

  lemma ReplayNext(ops: seq<Op>, i: nat)
    requires i < |ops|
    ensures forall k :: Replay(ops[..i + 1], k) == Effect(ops[i], k, Replay(ops[..i], k))
  {
    assert ops[..i + 1][..i] == ops[..i];
  }

  datatype Op = Put(key: int, value: string) | DeleteRange(lo: int, hi: int) {
    /** Keys fit into an int, and the first key of a range is not behind its last. */
    predicate Ok() {
      match this
      case Put(key, _) => InRange(key)
      case DeleteRange(lo, hi) => InRange(lo) && InRange(hi) && lo <= hi
    }
  }

  /** What an instruction does to the value of k. */
  function Effect(op: Op, k: int, before: Option<string>): Option<string> {
    match op
    case Put(key, value) => if k == key then Some(value) else before
    case DeleteRange(lo, hi) => if lo <= k <= hi then None else before
  }

  /** The value of k after a workload. */
  function Replay(ops: seq<Op>, k: int): Option<string> {
    if ops == [] then None else Effect(ops[|ops| - 1], k, Replay(ops[..|ops| - 1], k))
  }

  lemma BuildNext(history: seq<Skyline.Tagged>, x: Skyline.Tagged)
    ensures Skyline.Build(history + [x]) == Skyline.Added(Skyline.Build(history), x)
  {
    assert (history + [x])[..|history|] == history;
  }

  lemma {:induction false} EmptyTree(levels: seq<seq<EntryList>>, i: nat)
    requires forall j :: 0 <= j < |levels| ==> levels[j] == []
    ensures forall k :: MeaningFrom(levels, i, k) == Absent
    ensures forall k :: !StoredFrom(levels, i, k)
    ensures PointsFrom(levels, i) == 0 && RangesFrom(levels, i) == 0
    decreases |levels| - i
  {
    if i < |levels| {
      EmptyTree(levels, i + 1);
    }
  }
}
