/**
 The chained hash table of an LRU shard (`LRUHandleTable`): 2^bits buckets selected by the upper
 bits of the 32-bit hash, doubled when there are as many handles as buckets.
 */
module LruTable {
  import opened Options
  import opened Probing

  datatype Handle = Handle(key: string, hash: nat, id: nat) {
    predicate Is(key: string, hash: nat) {
      this.key == key && this.hash == hash
    }
  }

  /** hash >> (32 - bits). */
  function Bucket(hash: nat, bits: nat): nat
    requires bits <= 32
  {
    Pow2Positive(32 - bits);
    Quotient(hash, Pow2(32 - bits))
  }

  function Quotient(x: nat, n: nat): nat
    requires n >= 1
  {
    x / n
  }

  lemma {:induction false} Pow2Sum(a: nat, b: nat)
    ensures Pow2(a + b) == Pow2(a) * Pow2(b)
  {
    if a > 0 {
      Pow2Sum(a - 1, b);
      assert Pow2(a + b) == 2 * Pow2((a - 1) + b);
      DoubleProduct(Pow2(a - 1), Pow2(b));
    }
  }

  lemma DoubleProduct(x: nat, y: nat)
    ensures 2 * (x * y) == (2 * x) * y
  {
  }

  lemma BucketBound(hash: nat, bits: nat)
    requires bits <= 32 && hash < Pow2(32)
    ensures Bucket(hash, bits) < Pow2(bits)
  {
    Pow2Sum(bits, 32 - bits);
    Pow2Positive(32 - bits);
    QuotientBound(hash, Pow2(32 - bits), Pow2(bits));
  }

  lemma ProductOrder(a: int, b: int, n: nat)
    ensures a <= b ==> a * n <= b * n
  {
  }

  lemma QuotientBound(x: nat, n: nat, m: nat)
    requires n >= 1 && x < m * n
    ensures x / n < m
  {
    assert x == x / n * n + x % n;
    ProductOrder(m, x / n, n);
  }

  lemma QuotientIs(x: nat, n: nat, q: nat, r: nat)
    requires n >= 1 && x == q * n + r && r < n
    ensures x / n == q
  {
    var d := x / n;
    assert x == d * n + x % n;
    ProductOrder(d + 1, q, n);
    ProductOrder(q + 1, d, n);
  }

  lemma HalfQuotient(x: nat, n: nat)
    requires n >= 1
    ensures x / n / 2 == x / (2 * n)
  {
    var q, r := x / n, x % n;
    var p, s := q / 2, q % 2;
    assert x == q * n + r;
    assert q * n == (2 * p + s) * n == p * (2 * n) + s * n;
    ProductOrder(s, 1, n);
    QuotientIs(x, 2 * n, p, s * n + r);
  }

  /** The bucket is taken from the upper hash bits: one bit more splits a bucket into two neighbours. */
  lemma BucketHalves(hash: nat, bits: nat)
    requires bits < 32
    ensures Bucket(hash, bits + 1) / 2 == Bucket(hash, bits)
  {
    Pow2Positive(31 - bits);
    assert Pow2(32 - bits) == 2 * Pow2(31 - bits);
    HalfQuotient(hash, Pow2(31 - bits));
  }

  // ---- Chains ----

  /** The first handle of a chain with the given key and hash. */
  function Find(chain: seq<Handle>, key: string, hash: nat): Option<Handle> {
    if chain == [] then None
    else if chain[0].Is(key, hash) then Some(chain[0])
    else Find(chain[1..], key, hash)
  }

  /** No two handles of a chain have the same key and hash. */
  predicate Distinct(chain: seq<Handle>) {
    chain != [] ==> Find(chain[1..], chain[0].key, chain[0].hash).None? && Distinct(chain[1..])
  }

  /** All handles of a chain belong into a bucket. */
  predicate Within(chain: seq<Handle>, bits: nat, bucket: nat)
    requires bits <= 32
  {
    chain != [] ==> chain[0].hash < Pow2(32) && Bucket(chain[0].hash, bits) == bucket && Within(chain[1..], bits, bucket)
  }

  /** The chain with h in the place of the handle with its key, or at the end. */
  function Put(chain: seq<Handle>, h: Handle): seq<Handle> {
    if chain == [] then [h]
    else if chain[0].Is(h.key, h.hash) then [h] + chain[1..]
    else [chain[0]] + Put(chain[1..], h)
  }

  function Drop(chain: seq<Handle>, key: string, hash: nat): seq<Handle> {
    if chain == [] then []
    else if chain[0].Is(key, hash) then chain[1..]
    else [chain[0]] + Drop(chain[1..], key, hash)
  }

  lemma {:induction false} PutFinds(chain: seq<Handle>, h: Handle, key: string, hash: nat)
    requires Distinct(chain)
    ensures Distinct(Put(chain, h))
    ensures Find(Put(chain, h), key, hash) == if h.Is(key, hash) then Some(h) else Find(chain, key, hash)
    ensures |Put(chain, h)| == |chain| + if Find(chain, h.key, h.hash).Some? then 0 else 1
  {
    if chain == [] {
      assert [h][1..] == [];
    } else if chain[0].Is(h.key, h.hash) {
      assert ([h] + chain[1..])[1..] == chain[1..];
    } else {
      PutFinds(chain[1..], h, key, hash);
      PutFinds(chain[1..], h, chain[0].key, chain[0].hash);
      assert Put(chain, h)[1..] == Put(chain[1..], h);
    }
  }

  lemma {:induction false} PutWithin(chain: seq<Handle>, h: Handle, bits: nat, bucket: nat)
    requires bits <= 32 && Within(chain, bits, bucket) && h.hash < Pow2(32) && Bucket(h.hash, bits) == bucket
    ensures Within(Put(chain, h), bits, bucket)
  {
    if chain == [] {
      assert [h][1..] == [];
    } else if chain[0].Is(h.key, h.hash) {
      assert ([h] + chain[1..])[1..] == chain[1..];
    } else {
      PutWithin(chain[1..], h, bits, bucket);
      assert Put(chain, h)[1..] == Put(chain[1..], h);
    }
  }

  lemma {:induction false} DropFinds(chain: seq<Handle>, key: string, hash: nat, key': string, hash': nat)
    requires Distinct(chain)
    ensures Distinct(Drop(chain, key, hash))
    ensures Find(Drop(chain, key, hash), key', hash') == if key == key' && hash == hash' then None else Find(chain, key', hash')
    ensures |Drop(chain, key, hash)| == |chain| - if Find(chain, key, hash).Some? then 1 else 0
  {
    if chain != [] && !chain[0].Is(key, hash) {
      DropFinds(chain[1..], key, hash, key', hash');
      DropFinds(chain[1..], key, hash, chain[0].key, chain[0].hash);
      assert Drop(chain, key, hash)[1..] == Drop(chain[1..], key, hash);
    }
  }

  lemma {:induction false} DropWithin(chain: seq<Handle>, key: string, hash: nat, bits: nat, bucket: nat)
    requires bits <= 32 && Within(chain, bits, bucket)
    ensures Within(Drop(chain, key, hash), bits, bucket)
  {
    if chain != [] && !chain[0].Is(key, hash) {
      DropWithin(chain[1..], key, hash, bits, bucket);
      assert Drop(chain, key, hash)[1..] == Drop(chain[1..], key, hash);
    }
  }

  // ---- The table ----

  predicate Ok(list: seq<seq<Handle>>, bits: nat) {
    && bits <= 32 && |list| == Pow2(bits)
    && forall b :: 0 <= b < |list| ==> Distinct(list[b]) && Within(list[b], bits, b)
  }

  /** What the table holds under a key and its hash. */
  function Get(list: seq<seq<Handle>>, bits: nat, key: string, hash: nat): Option<Handle>
    requires bits <= 32 && |list| == Pow2(bits) && hash < Pow2(32)
  {
    BucketBound(hash, bits);
    Find(list[Bucket(hash, bits)], key, hash)
  }

  function Size(list: seq<seq<Handle>>): nat {
    if list == [] then 0 else |list[0]| + Size(list[1..])
  }

  lemma {:induction false} SizeUpdate(list: seq<seq<Handle>>, b: nat, chain: seq<Handle>)
    requires b < |list|
    ensures Size(list[b := chain]) == Size(list) - |list[b]| + |chain|
  {
    if b == 0 {
      assert list[b := chain][1..] == list[1..];
    } else {
      SizeUpdate(list[1..], b - 1, chain);
      assert list[b := chain][1..] == list[1..][b - 1 := chain];
    }
  }

  lemma {:induction false} SizeEmpty(list: seq<seq<Handle>>)
    requires forall b :: 0 <= b < |list| ==> list[b] == []
    ensures Size(list) == 0
  {
    if list != [] {
      SizeEmpty(list[1..]);
    }
  }

  lemma {:induction false} SizeNext(list: seq<seq<Handle>>, i: nat)
    requires i < |list|
    ensures Size(list[..i + 1]) == Size(list[..i]) + |list[i]|
  {
    if i == 0 {
      assert list[..1] == [list[0]] && list[..1][1..] == [] && list[..0] == [];
    } else {
      SizeNext(list[1..], i - 1);
      assert list[..i + 1][1..] == list[1..][..i] && list[..i][1..] == list[1..][..i - 1];
    }
  }

  /** Follows a chain to the handle with the given key, or to its end. */
  method FindPointer(chain: seq<Handle>, key: string, hash: nat) returns (i: nat)
    ensures i <= |chain| && (forall j :: 0 <= j < i ==> !chain[j].Is(key, hash)) && (i < |chain| ==> chain[i].Is(key, hash))
  {
    i := 0;
    while i < |chain| && !chain[i].Is(key, hash)
      invariant i <= |chain| && forall j :: 0 <= j < i ==> !chain[j].Is(key, hash)
    {
      i := i + 1;
    }
  }

  /** The chain with handle i taken out. */
  function Spliced(chain: seq<Handle>, i: nat, put: seq<Handle>): seq<Handle>
    requires i <= |chain|
  {
    chain[..i] + put + if i < |chain| then chain[i + 1..] else []
  }

  /** What the pointer found is the first handle with the key; replacing or unlinking it there is Put or Drop. */
  lemma {:induction false} FoundAt(chain: seq<Handle>, i: nat, h: Handle)
    requires i <= |chain| && (forall j :: 0 <= j < i ==> !chain[j].Is(h.key, h.hash)) && (i < |chain| ==> chain[i].Is(h.key, h.hash))
    ensures Find(chain, h.key, h.hash) == if i < |chain| then Some(chain[i]) else None
    ensures Put(chain, h) == Spliced(chain, i, [h]) && Drop(chain, h.key, h.hash) == Spliced(chain, i, [])
  {
    if i > 0 {
      FoundAt(chain[1..], i - 1, h);
      SplicedNext(chain, i, [h]);
      SplicedNext(chain, i, []);
    } else {
      assert Spliced(chain, i, [h]) == [h] + if i < |chain| then chain[1..] else [];
      assert Spliced(chain, i, []) == if i < |chain| then chain[1..] else [];
    }
  }

  lemma SplicedNext(chain: seq<Handle>, i: nat, put: seq<Handle>)
    requires 0 < i <= |chain|
    ensures Spliced(chain, i, put) == [chain[0]] + Spliced(chain[1..], i - 1, put)
  {
  }

  /** Replacing one chain. */
  lemma OkUpdate(list: seq<seq<Handle>>, bits: nat, b: nat, chain: seq<Handle>)
    requires Ok(list, bits) && b < |list| && Distinct(chain) && Within(chain, bits, b)
    ensures Ok(list[b := chain], bits) && Size(list[b := chain]) == Size(list) - |list[b]| + |chain|
  {
    SizeUpdate(list, b, chain);
  }

  /** Only the entry of one key has changed, to r. */
  ghost predicate Changed(list: seq<seq<Handle>>, list': seq<seq<Handle>>, bits: nat, key: string, hash: nat, r: Option<Handle>)
    requires bits <= 32 && |list| == |list'| == Pow2(bits)
  {
    forall key', hash': nat | hash' < Pow2(32) ::
      Get(list', bits, key', hash') == if key' == key && hash' == hash then r else Get(list, bits, key', hash')
  }

  lemma PutChanges(list: seq<seq<Handle>>, bits: nat, h: Handle)
    requires Ok(list, bits) && h.hash < Pow2(32)
    ensures var b := Bucket(h.hash, bits);
            && b < |list|
            && var list' := list[b := Put(list[b], h)];
            && Ok(list', bits) && Changed(list, list', bits, h.key, h.hash, Some(h))
            && Size(list') == Size(list) + if Get(list, bits, h.key, h.hash).Some? then 0 else 1
  {
    BucketBound(h.hash, bits);
    var b := Bucket(h.hash, bits);
    var list' := list[b := Put(list[b], h)];
    PutFinds(list[b], h, h.key, h.hash);
    PutWithin(list[b], h, bits, b);
    OkUpdate(list, bits, b, Put(list[b], h));
    forall key', hash': nat | hash' < Pow2(32)
      ensures Get(list', bits, key', hash') == if key' == h.key && hash' == h.hash then Some(h) else Get(list, bits, key', hash')
    {
      BucketBound(hash', bits);
      PutFinds(list[b], h, key', hash');
    }
  }

  lemma DropChanges(list: seq<seq<Handle>>, bits: nat, key: string, hash: nat)
    requires Ok(list, bits) && hash < Pow2(32)
    ensures var b := Bucket(hash, bits);
            && b < |list|
            && var list' := list[b := Drop(list[b], key, hash)];
            && Ok(list', bits) && Changed(list, list', bits, key, hash, None)
            && Size(list') == Size(list) - if Get(list, bits, key, hash).Some? then 1 else 0
  {
    BucketBound(hash, bits);
    var b := Bucket(hash, bits);
    var list' := list[b := Drop(list[b], key, hash)];
    DropFinds(list[b], key, hash, key, hash);
    DropWithin(list[b], key, hash, bits, b);
    OkUpdate(list, bits, b, Drop(list[b], key, hash));
    forall key', hash': nat | hash' < Pow2(32)
      ensures Get(list', bits, key', hash') == if key' == key && hash' == hash then None else Get(list, bits, key', hash')
    {
      BucketBound(hash', bits);
      DropFinds(list[b], key, hash, key', hash');
    }
  }

  // ---- Resizing ----

  /** What the doubled table holds when the buckets before i have been moved, and of bucket i all but rest. */
  function Moved(list: seq<seq<Handle>>, bits: nat, i: nat, rest: seq<Handle>, key: string, hash: nat): Option<Handle>
    requires bits <= 32 && |list| == Pow2(bits) && hash < Pow2(32)
  {
    BucketBound(hash, bits);
    var b := Bucket(hash, bits);
    if b < i || (b == i && Find(rest, key, hash).None?) then Find(list[b], key, hash) else None
  }

  ghost predicate Moving(list: seq<seq<Handle>>, bits: nat, doubled: seq<seq<Handle>>, i: nat, rest: seq<Handle>)
    requires bits < 32 && |list| == Pow2(bits)
  {
    && Ok(doubled, bits + 1)
    && forall key, hash: nat | hash < Pow2(32) :: MovedKey(list, bits, doubled, i, rest, key, hash)
  }

  predicate MovedKey(list: seq<seq<Handle>>, bits: nat, doubled: seq<seq<Handle>>, i: nat, rest: seq<Handle>, key: string, hash: nat)
    requires bits < 32 && |list| == Pow2(bits) && |doubled| == Pow2(bits + 1) && hash < Pow2(32)
  {
    Get(doubled, bits + 1, key, hash) == Moved(list, bits, i, rest, key, hash)
  }

  /** rest is what is left of a chain. */
  ghost predicate Suffix(chain: seq<Handle>, rest: seq<Handle>, bits: nat, i: nat)
    requires bits <= 32
  {
    && Distinct(rest) && Within(rest, bits, i)
    && forall key, hash | Find(rest, key, hash).Some? :: Find(chain, key, hash) == Find(rest, key, hash)
  }

  lemma SuffixNext(chain: seq<Handle>, rest: seq<Handle>, bits: nat, i: nat)
    requires bits <= 32 && Suffix(chain, rest, bits, i) && rest != []
    ensures Suffix(chain, rest[1..], bits, i)
  {
    forall key, hash | Find(rest[1..], key, hash).Some? ensures Find(chain, key, hash) == Find(rest[1..], key, hash) {
      assert !rest[0].Is(key, hash);
      assert Find(rest, key, hash) == Find(rest[1..], key, hash);
    }
  }

  /** One handle moves to the front of its new bucket. */
  lemma MoveOne(list: seq<seq<Handle>>, bits: nat, doubled: seq<seq<Handle>>, i: nat, rest: seq<Handle>)
    requires bits < 32 && Ok(list, bits) && i < |list| && Moving(list, bits, doubled, i, rest) && Suffix(list[i], rest, bits, i) && rest != []
    ensures rest[0].hash < Pow2(32) && Bucket(rest[0].hash, bits + 1) < |doubled|
    ensures var nb := Bucket(rest[0].hash, bits + 1);
            && Moving(list, bits, doubled[nb := [rest[0]] + doubled[nb]], i, rest[1..])
            && Size(doubled[nb := [rest[0]] + doubled[nb]]) == Size(doubled) + 1
  {
    var h := rest[0];
    BucketBound(h.hash, bits + 1);
    var nb := Bucket(h.hash, bits + 1);
    var chain := [h] + doubled[nb];
    assert chain[1..] == doubled[nb];
    assert MovedKey(list, bits, doubled, i, rest, h.key, h.hash);
    OkUpdate(doubled, bits + 1, nb, chain);
    var doubled', rest' := doubled[nb := chain], rest[1..];
    forall key, hash: nat | hash < Pow2(32) ensures MovedKey(list, bits, doubled', i, rest', key, hash) {
      assert MovedKey(list, bits, doubled, i, rest, key, hash);
      BucketBound(hash, bits + 1);
      MovedOne(list, bits, doubled, i, rest, key, hash);
    }
  }

  lemma MovedOne(list: seq<seq<Handle>>, bits: nat, doubled: seq<seq<Handle>>, i: nat, rest: seq<Handle>, key: string, hash: nat)
    requires bits < 32 && |list| == Pow2(bits) && |doubled| == Pow2(bits + 1) && hash < Pow2(32) && i < |list|
    requires Suffix(list[i], rest, bits, i) && rest != []
    ensures Moved(list, bits, i, rest[1..], key, hash) ==
            if rest[0].Is(key, hash) then Some(rest[0]) else Moved(list, bits, i, rest, key, hash)
  {
    assert rest[0].Is(key, hash) ==> Find(rest, key, hash) == Some(rest[0]);
  }

  /** A table with twice the buckets that holds the same handles. */
  method Doubled(list: seq<seq<Handle>>, bits: nat) returns (doubled: seq<seq<Handle>>)
    requires bits < 32 && Ok(list, bits)
    ensures Ok(doubled, bits + 1) && Size(doubled) == Size(list)
    ensures forall key, hash: nat | hash < Pow2(32) :: MovedKey(list, bits, doubled, |list|, [], key, hash)
  {
    doubled := seq(Pow2(bits + 1), _ => []);
    SizeEmpty(doubled);
    NothingMoved(list, bits, doubled);
    for i := 0 to |list|
      invariant Moving(list, bits, doubled, i, if i < |list| then list[i] else []) && Size(doubled) == Size(list[..i])
    {
      doubled := MoveChain(list, bits, doubled, i);
      SizeNext(list, i);
      NextBucket(list, bits, doubled, i);
    }
    assert list[..|list|] == list;
  }

  /** Moves one bucket. */
  method MoveChain(list: seq<seq<Handle>>, bits: nat, before: seq<seq<Handle>>, i: nat) returns (doubled: seq<seq<Handle>>)
    requires bits < 32 && Ok(list, bits) && i < |list| && Moving(list, bits, before, i, list[i])
    ensures Moving(list, bits, doubled, i, []) && Size(doubled) == Size(before) + |list[i]|
  {
    doubled := before;
    var rest := list[i];
    while rest != []
      invariant Moving(list, bits, doubled, i, rest) && Suffix(list[i], rest, bits, i)
      invariant Size(doubled) + |rest| == Size(before) + |list[i]|
      decreases |rest|
    {
      MoveOne(list, bits, doubled, i, rest);
      SuffixNext(list[i], rest, bits, i);
      var b := Bucket(rest[0].hash, bits + 1);
      doubled := doubled[b := [rest[0]] + doubled[b]];
      rest := rest[1..];
    }
  }

  lemma NothingMoved(list: seq<seq<Handle>>, bits: nat, doubled: seq<seq<Handle>>)
    requires bits < 32 && Ok(list, bits) && |doubled| == Pow2(bits + 1) && forall b :: 0 <= b < |doubled| ==> doubled[b] == []
    ensures |list| > 0 && Moving(list, bits, doubled, 0, list[0])
  {
    Pow2Positive(bits);
    forall key, hash: nat | hash < Pow2(32) ensures MovedKey(list, bits, doubled, 0, list[0], key, hash) {
      BucketBound(hash, bits + 1);
      BucketBound(hash, bits);
    }
  }

  lemma NextBucket(list: seq<seq<Handle>>, bits: nat, doubled: seq<seq<Handle>>, i: nat)
    requires bits < 32 && Ok(list, bits) && i < |list| && Moving(list, bits, doubled, i, [])
    ensures Moving(list, bits, doubled, i + 1, if i + 1 < |list| then list[i + 1] else [])
  {
    var next, rest := i + 1, if i + 1 < |list| then list[i + 1] else [];
    forall key, hash: nat | hash < Pow2(32) ensures MovedKey(list, bits, doubled, next, rest, key, hash) {
      assert MovedKey(list, bits, doubled, i, [], key, hash);
      BucketBound(hash, bits);
    }
  }

  class LRUHandleTable {
    var bits: nat
    const maxBits: nat
    var list: seq<seq<Handle>>
    var elems: nat

    constructor (maxBits: nat)
      ensures Valid() && this.maxBits == maxBits && forall key, hash: nat | hash < Pow2(32) :: Get(list, bits, key, hash) == None
    {
      this.maxBits := maxBits;
      bits, list, elems := 4, seq(Pow2(4), _ => []), 0;
      new;
      SizeEmpty(list);
    }

    predicate Shape()
      reads this
    {
      bits <= 31 && Ok(list, bits) && elems == Size(list)
    }

    /** Chains have less than one handle on average, as long as the table may grow. */
    predicate Valid()
      reads this
    {
      Shape() && (elems < Pow2(bits) || bits >= maxBits || bits >= 31)
    }

    method Lookup(key: string, hash: nat) returns (r: Option<Handle>)
      requires Valid() && hash < Pow2(32)
      ensures r == Get(list, bits, key, hash)
    {
      BucketBound(hash, bits);
      var chain := list[Bucket(hash, bits)];
      var i := FindPointer(chain, key, hash);
      FoundAt(chain, i, Handle(key, hash, 0));
      r := if i < |chain| then Some(chain[i]) else None;
    }

    /** Removes the handle with a key. */
    method Remove(key: string, hash: nat) returns (r: Option<Handle>)
      requires Valid() && hash < Pow2(32)
      modifies this
      ensures Valid() && bits == old(bits) && r == Get(old(list), bits, key, hash)
      ensures Changed(old(list), list, bits, key, hash, None) && elems == old(elems) - if r.Some? then 1 else 0
    {
      DropChanges(list, bits, key, hash);
      var b := Bucket(hash, bits);
      var chain := list[b];
      var i := FindPointer(chain, key, hash);
      FoundAt(chain, i, Handle(key, hash, 0));
      r := None;
      if i < |chain| {
        r := Some(chain[i]);
        list := list[b := Spliced(chain, i, [])];
        elems := elems - 1;
      } else {
        assert Spliced(chain, i, []) == chain && list[b := chain] == list;
      }
    }

    /** Doubles the table unless it uses all hash bits it may. */
    method Resize()
      requires Shape()
      modifies this
      ensures Shape() && elems == old(elems)
      ensures bits == old(bits) + if old(bits) < maxBits && old(bits) < 31 then 1 else 0
      ensures forall key, hash: nat | hash < Pow2(32) :: Get(list, bits, key, hash) == Get(old(list), old(bits), key, hash)
    {
      if bits >= maxBits || bits >= 31 {
        return;
      }
      var doubled := Doubled(list, bits);
      forall key, hash: nat | hash < Pow2(32) ensures Get(doubled, bits + 1, key, hash) == Get(list, bits, key, hash) {
        assert MovedKey(list, bits, doubled, |list|, [], key, hash);
        BucketBound(hash, bits);
      }
      list, bits := doubled, bits + 1;
    }

    /** Inserts a handle in place of the one with the same key. */
    method Insert(h: Handle) returns (old': Option<Handle>)
      requires Valid() && h.hash < Pow2(32)
      modifies this
      ensures Valid() && old' == Get(old(list), old(bits), h.key, h.hash)
      ensures forall key, hash: nat | hash < Pow2(32) ::
                Get(list, bits, key, hash) == if h.Is(key, hash) then Some(h) else Get(old(list), old(bits), key, hash)
      ensures elems == old(elems) + if old'.Some? then 0 else 1
      ensures bits == old(bits) + if elems > old(elems) && elems >= Pow2(old(bits)) && old(bits) < maxBits && old(bits) < 31 then 1 else 0
    {
      old' := PutHandle(h);
      if old'.None? && elems >= Pow2(bits) {
        Resize();
      }
    }

    /** Links a handle into its chain in place of the one with the same key, or at its end. */
    method PutHandle(h: Handle) returns (old': Option<Handle>)
      requires Shape() && h.hash < Pow2(32)
      modifies this`list, this`elems
      ensures Shape() && old' == Get(old(list), bits, h.key, h.hash) && elems == old(elems) + if old'.Some? then 0 else 1
      ensures forall key, hash: nat | hash < Pow2(32) ::
                Get(list, bits, key, hash) == if h.Is(key, hash) then Some(h) else Get(old(list), bits, key, hash)
    {
      PutChanges(list, bits, h);
      var b := Bucket(h.hash, bits);
      var chain := list[b];
      var i := FindPointer(chain, h.key, h.hash);
      FoundAt(chain, i, h);
      old' := if i < |chain| then Some(chain[i]) else None;
      list := list[b := Spliced(chain, i, [h])];
      if old'.None? {
        elems := elems + 1;
      }
    }
  }
}
