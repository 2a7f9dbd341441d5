/**
 A shard of the LRU cache (`LRUCacheShard`): the handles that are cached or still referenced, the table of
 cached handles by key, and the LRU list of those that can be evicted.
 */
module LruShard {
  import opened Options
  import LruList

  /** A handle; the hash is part of the key. */
  datatype Handle = Handle(key: string, charge: nat, refs: nat, inCache: bool, hit: bool, highPri: bool, lowPri: bool)

  /** The handles by identity; a freed handle is None. */
  type Handles = seq<Option<Handle>>

  function Total(hs: Handles): nat {
    if hs == [] then 0 else (if hs[0].Some? then hs[0].value.charge else 0) + Total(hs[1..])
  }

  function ChargeOf(h: Option<Handle>): nat {
    if h.Some? then h.value.charge else 0
  }

  lemma {:induction false} TotalUpdate(hs: Handles, id: nat, h: Option<Handle>)
    requires id < |hs|
    ensures Total(hs[id := h]) == Total(hs) - ChargeOf(hs[id]) + ChargeOf(h)
    ensures ChargeOf(hs[id]) <= Total(hs)
  {
    if id == 0 {
      assert hs[id := h][1..] == hs[1..];
    } else {
      TotalUpdate(hs[1..], id - 1, h);
      assert hs[id := h][1..] == hs[1..][id - 1 := h];
    }
  }

  lemma {:induction false} TotalAppend(hs: Handles, h: Option<Handle>)
    ensures Total(hs + [h]) == Total(hs) + ChargeOf(h)
  {
    if hs == [] {
      assert hs + [h] == [h];
      assert [h][1..] == [];
    } else {
      TotalAppend(hs[1..], h);
      assert (hs + [h])[1..] == hs[1..] + [h];
    }
  }

  /** Which handles belong on the LRU list: cached and not referenced. */
  predicate Evictable(hs: Handles, id: nat) {
    id < |hs| && hs[id].Some? && hs[id].value.inCache && hs[id].value.refs == 0
  }

  /** The table holds exactly the cached handles, by their keys; a handle that is not cached is referenced. */
  predicate TableOk(hs: Handles, table: map<string, nat>) {
    && (forall k :: k in table ==> table[k] < |hs| && hs[table[k]].Some? && hs[table[k]].value.inCache && hs[table[k]].value.key == k)
    && (forall id :: 0 <= id < |hs| && hs[id].Some? && hs[id].value.inCache ==>
          hs[id].value.key in table && table[hs[id].value.key] == id)
    && (forall id :: 0 <= id < |hs| && hs[id].Some? && !hs[id].value.inCache ==> hs[id].value.refs > 0)
  }

  /** The list holds exactly the evictable handles, each once, with their charges. */
  ghost predicate ListOk(hs: Handles, nodes: seq<LruList.Node>) {
    && LruList.Unique(nodes) && Charged(hs, nodes)
    && forall id: nat :: LruList.Listed(nodes, id) <==> Evictable(hs, id)
  }

  predicate Charged(hs: Handles, nodes: seq<LruList.Node>) {
    nodes != [] ==> Carries(hs, nodes[0]) && Charged(hs, nodes[1..])
  }

  predicate Carries(hs: Handles, n: LruList.Node) {
    n.id < |hs| && hs[n.id].Some? && n.charge == hs[n.id].value.charge
  }

  lemma {:induction false} ChargedKeep(hs: Handles, nodes: seq<LruList.Node>, hs': Handles)
    requires Charged(hs, nodes) && |hs| <= |hs'|
    requires forall id :: 0 <= id < |hs| && LruList.Listed(nodes, id) ==> hs'[id] == hs[id]
    ensures Charged(hs', nodes)
  {
    if nodes != [] {
      ChargedKeep(hs, nodes[1..], hs');
    }
  }

  lemma {:induction false} ChargedSame(hs: Handles, a: seq<LruList.Node>, b: seq<LruList.Node>)
    requires Charged(hs, a) && LruList.SameNodes(b, a)
    ensures Charged(hs, b)
  {
    if a != [] {
      ChargedSame(hs, a[1..], b[1..]);
    }
  }

  lemma {:induction false} ChargedRemove(hs: Handles, nodes: seq<LruList.Node>, p: nat)
    requires Charged(hs, nodes) && p < |nodes|
    ensures Charged(hs, LruList.Without(nodes, p))
  {
    if p > 0 {
      ChargedRemove(hs, nodes[1..], p - 1);
      assert LruList.Without(nodes, p)[1..] == LruList.Without(nodes[1..], p - 1);
    }
  }

  lemma {:induction false} ChargedInsert(hs: Handles, nodes: seq<LruList.Node>, p: nat, n: LruList.Node)
    requires Charged(hs, nodes) && p <= |nodes| && Carries(hs, n)
    ensures Charged(hs, LruList.InsertedAt(nodes, p, n))
  {
    if p == 0 {
      assert ([n] + nodes)[1..] == nodes;
    } else {
      ChargedInsert(hs, nodes[1..], p - 1, n);
      assert LruList.InsertedAt(nodes, p, n)[1..] == LruList.InsertedAt(nodes[1..], p - 1, n);
    }
  }

  /** Only the pools differ. */
  lemma ListSame(hs: Handles, a: seq<LruList.Node>, b: seq<LruList.Node>)
    requires ListOk(hs, a) && LruList.SameNodes(b, a)
    ensures ListOk(hs, b)
  {
    LruList.SameMarks(a, b, 0, 0);
    ChargedSame(hs, a, b);
    forall id: nat ensures LruList.Listed(b, id) <==> Evictable(hs, id) {
      LruList.SameMarks(a, b, id, 0);
    }
  }

  /** The handle at position p leaves the list and is evictable no more. */
  lemma ListRemove(hs: Handles, nodes: seq<LruList.Node>, p: nat, h: Option<Handle>)
    requires ListOk(hs, nodes) && p < |nodes|
    requires h.Some? ==> h.value.refs > 0 || !h.value.inCache
    ensures Evictable(hs, nodes[p].id) && ListOk(hs[nodes[p].id := h], LruList.Without(nodes, p))
  {
    var id, left := nodes[p].id, LruList.Without(nodes, p);
    LruList.PointerListed(nodes, p + 1);
    LruList.UniqueRemoved(nodes, p, id);
    ChargedRemove(hs, nodes, p);
    ChargedKeep(hs, left, hs[id := h]);
    forall k: nat ensures LruList.Listed(left, k) <==> Evictable(hs[id := h], k) {
      ListedRemove(hs, nodes, p, h, k);
    }
  }

  lemma ListedRemove(hs: Handles, nodes: seq<LruList.Node>, p: nat, h: Option<Handle>, k: nat)
    requires ListOk(hs, nodes) && p < |nodes| && Evictable(hs, nodes[p].id)
    requires h.Some? ==> h.value.refs > 0 || !h.value.inCache
    ensures LruList.Listed(LruList.Without(nodes, p), k) <==> Evictable(hs[nodes[p].id := h], k)
  {
    LruList.UniqueRemoved(nodes, p, k);
  }

  /** A handle becomes evictable and enters the list at position p. */
  lemma ListInsert(hs: Handles, nodes: seq<LruList.Node>, p: nat, id: nat, h: Handle, n: LruList.Node)
    requires ListOk(hs, nodes) && p <= |nodes| && id < |hs| && !Evictable(hs, id)
    requires h.inCache && h.refs == 0 && n.id == id && n.charge == h.charge
    ensures ListOk(hs[id := Some(h)], LruList.InsertedAt(nodes, p, n))
  {
    var hs', more := hs[id := Some(h)], LruList.InsertedAt(nodes, p, n);
    ChargedKeep(hs, nodes, hs');
    ChargedInsert(hs', nodes, p, n);
    LruList.UniqueInserted(nodes, p, n, id);
    forall k: nat ensures LruList.Listed(more, k) <==> Evictable(hs', k) {
      LruList.UniqueInserted(nodes, p, n, k);
    }
  }

  /** A change that leaves a handle off the list. */
  lemma ListOff(hs: Handles, nodes: seq<LruList.Node>, id: nat, h: Option<Handle>)
    requires ListOk(hs, nodes) && id < |hs| && !Evictable(hs, id) && !Evictable(hs[id := h], id)
    ensures ListOk(hs[id := h], nodes)
  {
    ChargedKeep(hs, nodes, hs[id := h]);
    forall k: nat ensures LruList.Listed(nodes, k) <==> Evictable(hs[id := h], k) {
      assert k != id ==> (Evictable(hs[id := h], k) <==> Evictable(hs, k));
    }
  }

  /** A key leaves the table, and its handle is freed or only referenced from then on. */
  lemma TableRemove(hs: Handles, table: map<string, nat>, key: string, h: Option<Handle>)
    requires TableOk(hs, table) && key in table
    requires h.Some? ==> !h.value.inCache && h.value.refs > 0
    ensures TableOk(hs[table[key] := h], table - {key})
  {
  }

  /** A change that keeps a handle where it is in the table. */
  lemma TableKeep(hs: Handles, table: map<string, nat>, id: nat, h: Handle)
    requires TableOk(hs, table) && id < |hs| && hs[id].Some?
    requires h.key == hs[id].value.key && h.inCache == hs[id].value.inCache && (!h.inCache ==> h.refs > 0)
    ensures TableOk(hs[id := Some(h)], table)
  {
  }

  lemma TableFree(hs: Handles, table: map<string, nat>, id: nat)
    requires TableOk(hs, table) && id < |hs| && hs[id].Some? && !hs[id].value.inCache
    ensures TableOk(hs[id := None], table)
  {
  }

  /** A new handle, in the table if it is cached. */
  lemma TableAdd(hs: Handles, table: map<string, nat>, h: Handle)
    requires TableOk(hs, table) && h.key !in table && (!h.inCache ==> h.refs > 0)
    ensures TableOk(hs + [Some(h)], if h.inCache then table[h.key := |hs|] else table)
  {
  }

  lemma ListAdd(hs: Handles, nodes: seq<LruList.Node>, h: Option<Handle>)
    requires ListOk(hs, nodes) && (h.Some? ==> h.value.refs > 0 || !h.value.inCache)
    ensures ListOk(hs + [h], nodes)
  {
    ChargedKeep(hs, nodes, hs + [h]);
    forall k: nat ensures LruList.Listed(nodes, k) <==> Evictable(hs + [h], k) {
      assert k != |hs| ==> (Evictable(hs + [h], k) <==> Evictable(hs, k));
    }
  }

  /** What is left of a handle that leaves the table. */
  function Uncached(h: Option<Handle>): Option<Handle> {
    if h.Some? && h.value.refs > 0 then Some(h.value.(inCache := false)) else None
  }

  /** Some evictable handles have been freed. */
  predicate Evicted(before: Handles, after: Handles) {
    && |before| == |after|
    && forall id :: 0 <= id < |before| ==> after[id] == before[id] || (Evictable(before, id) && after[id] == None)
  }

  lemma EvictedOne(before: Handles, after: Handles, id: nat)
    requires Evicted(before, after) && Evictable(after, id)
    ensures Evicted(before, after[id := None])
  {
  }

  /** Nodes went from the old end of the list, and no more of them than it took to get within the limit
      that usage is over by. */
  predicate Trimmed(before: seq<LruList.Node>, after: seq<LruList.Node>, over: int) {
    && |after| <= |before| && after == before[|before| - |after|..]
    && (|after| < |before| ==> over + before[|before| - |after| - 1].charge > 0)
  }

  /** What an eviction for charge does: handles go from the old end of the list, as many as it takes to fit and no more. */
  predicate Evictions(before: Handles, after: Handles, nodes: seq<LruList.Node>, nodes': seq<LruList.Node>, usage: int, usage': int,
                      charge: nat, capacity: nat) {
    && Evicted(before, after) && Trimmed(nodes, nodes', usage' + charge - capacity)
    && usage' == Total(after) && (usage' + charge <= capacity || nodes' == [])
    && (usage + charge <= capacity ==> after == before && nodes' == nodes && usage' == usage)
  }

  lemma TrimOne(before: seq<LruList.Node>, after: seq<LruList.Node>, over: int)
    requires Trimmed(before, after, over) && after != [] && over > 0
    ensures Trimmed(before, after[1..], over - after[0].charge)
  {
  }

  /** The handle has come off the list, and the others are as they were. */
  predicate Unlisted(before: seq<LruList.Node>, after: seq<LruList.Node>, id: nat) {
    exists p :: 0 <= p < |before| && before[p].id == id && after == LruList.Without(before, p)
  }

  method FindNode(nodes: seq<LruList.Node>, id: nat) returns (p: nat)
    requires LruList.Listed(nodes, id)
    ensures p < |nodes| && nodes[p].id == id
  {
    LruList.ListedAt(nodes, id);
    p := 0;
    while nodes[p].id != id
      invariant p < |nodes| && forall i :: 0 <= i < p ==> nodes[i].id != id
      decreases |nodes| - p
    {
      p := p + 1;
    }
  }

  class LRUCacheShard {
    const lru: LruList.LruList
    var handles: Handles
    var table: map<string, nat>
    var usage: int
    var capacity: nat
    var strict: bool

    constructor (capacity: nat, strict: bool, highCapacity: nat, lowCapacity: nat, highOn: bool, lowOn: bool)
      ensures Valid() && Balanced() && fresh(lru) && handles == [] && table == map[] && usage == 0 && lru.list == []
      ensures this.capacity == capacity && this.strict == strict
      ensures lru.highCapacity == highCapacity && lru.lowCapacity == lowCapacity && lru.highOn == highOn && lru.lowOn == lowOn
    {
      lru := new LruList.LruList(highCapacity, lowCapacity, highOn, lowOn);
      handles, table, usage := [], map[], 0;
      this.capacity, this.strict := capacity, strict;
    }

    /** The list holds the cached handles without references, the table the cached ones, and usage is the
        charge of all handles that are cached or referenced. */
    ghost predicate Core()
      reads this, lru
    {
      lru.Valid() && TableOk(handles, table) && ListOk(handles, lru.list) && usage == Total(handles)
    }

    /** And beyond its capacity the shard holds nothing it could evict. */
    ghost predicate Valid()
      reads this, lru
    {
      Core() && (usage > capacity ==> lru.list == [])
    }

    /** The high pool is within its capacity, as every operation but SetCapacity keeps it. */
    predicate Balanced()
      reads this, lru
    {
      lru.highUsage <= lru.highCapacity
    }

    /** A handle that goes to the head of the low pool needs the high pool within its capacity. */
    predicate Accepts(highPri: bool, lowPri: bool, hit: bool)
      reads this, lru
    {
      lru.GoesLow(highPri, lowPri, hit) ==> Balanced()
    }

    /** Takes a cached, unreferenced handle off the list. */
    method Unlist(id: nat, ghost h: Option<Handle>) returns (p: nat)
      requires lru.Valid() && ListOk(handles, lru.list) && Evictable(handles, id)
      requires h.Some? ==> h.value.refs > 0 || !h.value.inCache
      modifies lru`list, lru`bottom, lru`bottomPri, lru`low, lru`lowPri, lru`usage, lru`highUsage, lru`lowUsage
      ensures lru.Valid() && ListOk(handles[id := h], lru.list) && lru.highUsage <= old(lru.highUsage)
      ensures p < |old(lru.list)| && old(lru.list)[p].id == id && lru.list == LruList.Without(old(lru.list), p)
    {
      assert Evictable(handles, id);
      p := FindNode(lru.list, id);
      ListRemove(handles, lru.list, p, h);
      lru.Remove(p);
    }

    /** Erase: the key leaves the table; its handle is freed unless it is still referenced. */
    method Erase(key: string)
      requires Core()
      modifies this`handles, this`table, this`usage, lru`list, lru`bottom, lru`bottomPri, lru`low, lru`lowPri, lru`usage, lru`highUsage, lru`lowUsage
      ensures Core() && table == old(table) - {key} && usage <= old(usage) && |lru.list| <= |old(lru.list)|
      ensures old(usage > capacity ==> lru.list == []) ==> (usage > capacity ==> lru.list == [])
      ensures key !in old(table) ==> handles == old(handles) && lru.list == old(lru.list)
      ensures key in old(table) ==> old(table[key]) < |old(handles)| && old(handles[table[key]]).Some?
      ensures key in old(table) && old(handles[table[key]]).value.refs > 0 ==> lru.list == old(lru.list)
      ensures key in old(table) && old(handles[table[key]]).value.refs == 0 ==> Unlisted(old(lru.list), lru.list, old(table[key]))
      ensures key in old(table) ==> old(table[key]) < |old(handles)| && handles == old(handles)[old(table[key]) := Uncached(old(handles[table[key]]))]
      ensures old(Balanced()) ==> Balanced()
    {
      if key !in table {
        assert table == table - {key};
        return;
      }
      Uncache(key, table[key]);
    }

    /** Takes a cached handle out of the table, and off the list if it is not referenced. */
    method Uncache(key: string, id: nat)
      requires Core() && key in table && table[key] == id
      modifies this`handles, this`table, this`usage, lru`list, lru`bottom, lru`bottomPri, lru`low, lru`lowPri, lru`usage, lru`highUsage, lru`lowUsage
      ensures Core() && table == old(table) - {key} && handles == old(handles)[id := Uncached(old(handles[id]))]
      ensures usage <= old(usage) && |lru.list| <= |old(lru.list)| && lru.highUsage <= old(lru.highUsage)
      ensures if old(handles[id]).value.refs > 0 then lru.list == old(lru.list) else Unlisted(old(lru.list), lru.list, id)
    {
      var h := handles[id].value;
      var h' := Uncached(handles[id]);
      TableRemove(handles, table, key, h');
      TotalUpdate(handles, id, h');
      if h.refs == 0 {
        var p := Unlist(id, h');
        usage := usage - h.charge;
      } else {
        ListOff(handles, lru.list, id, h');
      }
      handles, table := handles[id := h'], table - {key};
    }

    /** Evicts the handle at the old end of the list. */
    method EvictOldest()
      requires Core() && lru.list != []
      modifies this`handles, this`table, this`usage, lru`list, lru`bottom, lru`bottomPri, lru`low, lru`lowPri, lru`usage, lru`highUsage, lru`lowUsage
      ensures Core() && usage <= old(usage) && |lru.list| == |old(lru.list)| - 1 && lru.highUsage <= old(lru.highUsage)
      ensures old(lru.list[0].id) < |old(handles)| && Evictable(old(handles), old(lru.list[0].id))
      ensures handles == old(handles)[old(lru.list[0].id) := None] && lru.list == old(lru.list)[1..]
      ensures usage == old(usage) - old(lru.list[0].charge)
    {
      var id := lru.list[0].id;
      assert Evictable(handles, id);
      var h := handles[id].value;
      TableRemove(handles, table, h.key, None);
      TotalUpdate(handles, id, None);
      ListRemove(handles, lru.list, 0, None);
      lru.Remove(0);
      handles, table := handles[id := None], table - {h.key};
      usage := usage - h.charge;
    }

    /** EvictFromLRU: evicts until charge more fits or nothing is left to evict. */
    method EvictFromLRU(charge: nat)
      requires Core()
      modifies this`handles, this`table, this`usage, lru`list, lru`bottom, lru`bottomPri, lru`low, lru`lowPri, lru`usage, lru`highUsage, lru`lowUsage
      ensures Core() && usage <= old(usage) && lru.highUsage <= old(lru.highUsage) && (usage + charge <= capacity || lru.list == [])
      ensures Evictions(old(handles), handles, old(lru.list), lru.list, old(usage), usage, charge, capacity)
    {
      while usage + charge > capacity && lru.list != []
        invariant Core() && usage <= old(usage) && lru.highUsage <= old(lru.highUsage)
        invariant Evicted(old(handles), handles) && Trimmed(old(lru.list), lru.list, usage + charge - capacity)
        invariant old(usage) + charge <= capacity ==> handles == old(handles) && lru.list == old(lru.list) && usage == old(usage)
        decreases |lru.list|
      {
        EvictNext(charge, old(handles), old(lru.list));
      }
    }

    /** One round of EvictFromLRU. */
    method EvictNext(charge: nat, ghost before: Handles, ghost nodes: seq<LruList.Node>)
      requires Core() && lru.list != [] && usage + charge > capacity
      requires Evicted(before, handles) && Trimmed(nodes, lru.list, usage + charge - capacity)
      modifies this`handles, this`table, this`usage, lru`list, lru`bottom, lru`bottomPri, lru`low, lru`lowPri, lru`usage, lru`highUsage, lru`lowUsage
      ensures Core() && usage <= old(usage) && |lru.list| == |old(lru.list)| - 1 && lru.highUsage <= old(lru.highUsage)
      ensures Evicted(before, handles) && Trimmed(nodes, lru.list, usage + charge - capacity)
    {
      TrimOne(nodes, lru.list, usage + charge - capacity);
      EvictedOne(before, handles, lru.list[0].id);
      EvictOldest();
    }

    /** A new handle for a key that is not in the table; listed if it is cached and not referenced. */
    method Add(h: Handle) returns (id: nat)
      requires Core() && h.key !in table && (!h.inCache ==> h.refs > 0) && (h.refs == 0 ==> Accepts(h.highPri, h.lowPri, h.hit))
      modifies this`handles, this`table, this`usage, lru`list, lru`bottom, lru`bottomPri, lru`low, lru`lowPri, lru`usage, lru`highUsage, lru`lowUsage
      ensures Core() && (old(Balanced()) ==> Balanced()) && id == |old(handles)| && handles == old(handles) + [Some(h)]
      ensures table == (if h.inCache then old(table)[h.key := id] else old(table))
      ensures usage == old(usage) + h.charge && (h.refs > 0 ==> lru.list == old(lru.list))
      ensures h.refs == 0 ==> LruList.SameNodes(lru.list, old(lru.Inserting(id, h.charge, h.highPri, h.lowPri, h.hit)))
    {
      id := |handles|;
      TableAdd(handles, table, h);
      TotalAppend(handles, Some(h));
      ListAdd(handles, lru.list, None);
      if h.inCache && h.refs == 0 {
        ghost var p, n := lru.PlaceOf(h.highPri, h.lowPri, h.hit), LruList.Node(id, h.charge, LruList.Bottom);
        ListInsert(handles + [None], lru.list, p, id, h, n);
        assert (handles + [None])[id := Some(h)] == handles + [Some(h)];
        ghost var more := lru.Inserting(id, h.charge, h.highPri, h.lowPri, h.hit);
        lru.Insert(id, h.charge, h.highPri, h.lowPri, h.hit);
        ListSame(handles + [Some(h)], more, lru.list);
      } else {
        ListAdd(handles, lru.list, Some(h));
      }
      if h.inCache {
        table := table[h.key := id];
      }
      handles, usage := handles + [Some(h)], usage + h.charge;
    }

    /** Insert of a cached handle: evicts, replaces an entry of the same key, and references the new one for
        the caller or puts it on the list.  left, nodes and used are handles, list and usage after the eviction. */
    method Insert(key: string, charge: nat, highPri: bool, lowPri: bool, keep: bool)
      returns (r: Option<nat>, ghost left: Handles, ghost nodes: seq<LruList.Node>, ghost used: int)
      requires Valid() && (!keep ==> Accepts(highPri, lowPri, false))
      modifies this`handles, this`table, this`usage, lru`list, lru`bottom, lru`bottomPri, lru`low, lru`lowPri, lru`usage, lru`highUsage, lru`lowUsage
      ensures Valid() && (old(Balanced()) ==> Balanced())
      ensures Evictions(old(handles), left, old(lru.list), nodes, old(usage), used, charge, capacity)
      ensures r.None? <==> used + charge > capacity && (strict || !keep)
      ensures r.None? ==> lru.list == nodes == [] && handles == left && usage == used
      ensures r.Some? ==> r.value < |handles| && key in table && table[key] == r.value &&
                          handles[r.value] == Some(Handle(key, charge, if keep then 1 else 0, true, false, highPri, lowPri))
      ensures r.Some? ==> Replaced(left, handles, old(table), key) && AllKept(old(handles), handles, old(table), key)
      ensures strict || !keep ==> usage <= capacity || usage <= old(usage)
    {
      EvictFromLRU(charge);
      left, nodes, used := handles, lru.list, usage;
      if usage + charge > capacity && (strict || !keep) {
        return None, left, nodes, used;
      }
      ghost var table' := table;
      var id := Replace(Handle(key, charge, if keep then 1 else 0, true, false, highPri, lowPri));
      KeptBy(old(handles), old(table), left, table', handles, key);
      r := Some(id);
    }

    /** The new handle takes the key's place in the table. */
    method Replace(h: Handle) returns (id: nat)
      requires Core() && h.inCache && (h.refs == 0 ==> Accepts(h.highPri, h.lowPri, h.hit))
      modifies this`handles, this`table, this`usage, lru`list, lru`bottom, lru`bottomPri, lru`low, lru`lowPri, lru`usage, lru`highUsage, lru`lowUsage
      ensures Core() && (old(Balanced()) ==> Balanced()) && id == |handles| - 1 && handles[id] == Some(h) && h.key in table && table[h.key] == id
      ensures usage <= old(usage) + h.charge && (h.refs > 0 ==> |lru.list| <= |old(lru.list)|)
      ensures Replaced(old(handles), handles, old(table), h.key)
    {
      Erase(h.key);
      id := Add(h);
    }

    /** Lookup: a cached handle is referenced, and comes off the list if it was on it. */
    method Lookup(key: string) returns (r: Option<nat>)
      requires Valid()
      modifies this`handles, lru`list, lru`bottom, lru`bottomPri, lru`low, lru`lowPri, lru`usage, lru`highUsage, lru`lowUsage
      ensures Valid() && (old(Balanced()) ==> Balanced())
      ensures r == if key in table then Some(table[key]) else None
      ensures r.None? ==> handles == old(handles) && lru.list == old(lru.list)
      ensures r.Some? ==> r.value < |handles| && old(handles[r.value]).Some? && old(handles[r.value]).value.key == key &&
                          handles == old(handles)[r.value := Some(Hit(old(handles[r.value]).value))]
      ensures r.Some? ==> handles[r.value].value.hit && handles[r.value].value.refs == old(handles[r.value]).value.refs + 1
      ensures r.Some? && old(handles[r.value]).value.refs > 0 ==> lru.list == old(lru.list)
      ensures r.Some? && old(handles[r.value]).value.refs == 0 ==> Unlisted(old(lru.list), lru.list, r.value)
    {
      if key !in table {
        return None;
      }
      var id := table[key];
      var h := handles[id].value;
      TableKeep(handles, table, id, Hit(h));
      TotalUpdate(handles, id, Some(Hit(h)));
      if h.refs == 0 {
        var p := Unlist(id, Some(Hit(h)));
      } else {
        ListOff(handles, lru.list, id, Some(Hit(h)));
      }
      handles := handles[id := Some(Hit(h))];
      r := Some(id);
    }

    /** Ref: one more reference to a referenced handle. */
    method Ref(id: nat)
      requires Valid() && id < |handles| && handles[id].Some? && handles[id].value.refs > 0
      modifies this`handles
      ensures Valid() && handles == old(handles)[id := Some(old(handles[id]).value.(refs := old(handles[id]).value.refs + 1))]
    {
      var h := handles[id].value.(refs := handles[id].value.refs + 1);
      TableKeep(handles, table, id, h);
      TotalUpdate(handles, id, Some(h));
      ListOff(handles, lru.list, id, Some(h));
      handles := handles[id := Some(h)];
    }

    /** Whether a release puts the handle back on the list. */
    predicate Relisted(id: nat, erase: bool)
      reads this
      requires id < |handles| && handles[id].Some?
    {
      var h := handles[id].value;
      h.refs == 1 && h.inCache && usage <= capacity && !erase
    }

    /** Release: the last reference puts a cached handle back on the list, unless the shard is over capacity or
        the caller wants it erased; a handle that is not cached is freed with its last reference. */
    method Release(id: nat, erase: bool) returns (freed: bool)
      requires Valid() && id < |handles| && handles[id].Some? && handles[id].value.refs > 0
      requires Relisted(id, erase) ==> Accepts(handles[id].value.highPri, handles[id].value.lowPri, handles[id].value.hit)
      modifies this`handles, this`table, this`usage, lru`list, lru`bottom, lru`bottomPri, lru`low, lru`lowPri, lru`usage, lru`highUsage, lru`lowUsage
      ensures Valid() && (old(Balanced()) ==> Balanced())
      ensures freed <==> old(handles[id]).value.refs == 1 && (!old(handles[id]).value.inCache || old(usage) > capacity || erase)
      ensures handles == old(handles)[id := if freed then None else Some(Unref(old(handles[id]).value))]
      ensures freed ==> usage == old(usage) - old(handles[id]).value.charge
      ensures !freed ==> usage == old(usage) && table == old(table)
      ensures if old(Relisted(id, erase)) then
                LruList.SameNodes(lru.list, old(lru.Inserting(id, handles[id].value.charge, handles[id].value.highPri, handles[id].value.lowPri, handles[id].value.hit)))
              else lru.list == old(lru.list)
    {
      var h := Unref(handles[id].value);
      freed := h.refs == 0 && (!h.inCache || usage > capacity || erase);
      if freed {
        assert h.inCache ==> lru.list == [] || erase;
        TotalUpdate(handles, id, None);
        ListOff(handles, lru.list, id, None);
        if h.inCache {
          TableRemove(handles, table, h.key, None);
          table := table - {h.key};
        } else {
          TableFree(handles, table, id);
        }
        handles, usage := handles[id := None], usage - h.charge;
      } else {
        Drop(id, h);
      }
    }

    /** A reference less; the handle goes on the list if it was the last one. */
    method Drop(id: nat, h: Handle)
      requires Valid() && id < |handles| && handles[id].Some? && handles[id].value.refs > 0
      requires h == Unref(handles[id].value) && (h.refs == 0 ==> h.inCache && usage <= capacity && Accepts(h.highPri, h.lowPri, h.hit))
      modifies this`handles, lru`list, lru`bottom, lru`bottomPri, lru`low, lru`lowPri, lru`usage, lru`highUsage, lru`lowUsage
      ensures Valid() && (old(Balanced()) ==> Balanced()) && handles == old(handles)[id := Some(h)]
      ensures h.refs > 0 ==> lru.list == old(lru.list)
      ensures h.refs == 0 ==> LruList.SameNodes(lru.list, old(lru.Inserting(id, h.charge, h.highPri, h.lowPri, h.hit)))
    {
      TableKeep(handles, table, id, h);
      TotalUpdate(handles, id, Some(h));
      if h.refs == 0 {
        ghost var p, n := lru.PlaceOf(h.highPri, h.lowPri, h.hit), LruList.Node(id, h.charge, LruList.Bottom);
        ghost var more := lru.Inserting(id, h.charge, h.highPri, h.lowPri, h.hit);
        ListInsert(handles, lru.list, p, id, h, n);
        lru.Insert(id, h.charge, h.highPri, h.lowPri, h.hit);
        ListSame(handles[id := Some(h)], more, lru.list);
      } else {
        ListOff(handles, lru.list, id, Some(h));
      }
      handles := handles[id := Some(h)];
    }

    /** CreateStandalone: a referenced handle outside the table; it may have to go without its charge. */
    method CreateStandalone(key: string, charge: nat, allowUncharged: bool)
      returns (r: Option<nat>, ghost left: Handles, ghost nodes: seq<LruList.Node>, ghost used: int)
      requires Valid()
      modifies this`handles, this`table, this`usage, lru`list, lru`bottom, lru`bottomPri, lru`low, lru`lowPri, lru`usage, lru`highUsage, lru`lowUsage
      ensures Valid() && (old(Balanced()) ==> Balanced()) && lru.list == nodes
      ensures Evictions(old(handles), left, old(lru.list), nodes, old(usage), used, charge, capacity)
      ensures r.None? <==> strict && !allowUncharged && used + charge > capacity
      ensures r.None? ==> handles == left && usage == used
      ensures r.Some? ==> r.value == |left| &&
                          handles == left + [Some(Handle(key, if strict && used + charge > capacity then 0 else charge, 1, false, false, false, false))]
      ensures strict ==> usage <= capacity || usage <= old(usage)
    {
      EvictFromLRU(charge);
      left, nodes, used := handles, lru.list, usage;
      var charged := charge;
      if strict && usage + charge > capacity {
        if !allowUncharged {
          return None, left, nodes, used;
        }
        charged := 0;
      }
      var id := AddStandalone(Handle(key, charged, 1, false, false, false, false));
      r := Some(id);
    }

    method AddStandalone(h: Handle) returns (id: nat)
      requires Core() && !h.inCache && h.refs > 0
      modifies this`handles, this`usage
      ensures Core() && id == |old(handles)| && handles == old(handles) + [Some(h)] && usage == old(usage) + h.charge
    {
      id := |handles|;
      TotalAppend(handles, Some(h));
      ListAdd(handles, lru.list, Some(h));
      handles, usage := handles + [Some(h)], usage + h.charge;
    }

    /** SetCapacity: the pool capacities change with it, but the pools are not rebalanced. */
    method SetCapacity(capacity: nat, highCapacity: nat, lowCapacity: nat)
      requires Valid()
      modifies this, lru
      ensures Valid() && this.capacity == capacity
      ensures Evictions(old(handles), handles, old(lru.list), lru.list, old(usage), usage, 0, capacity)
      ensures old(lru.highUsage) <= highCapacity ==> Balanced()
    {
      this.capacity := capacity;
      lru.SetCapacities(highCapacity, lowCapacity);
      EvictFromLRU(0);
    }
  }

  function Unref(h: Handle): Handle
    requires h.refs > 0
  {
    h.(refs := h.refs - 1)
  }

  /** What an insert may do to another handle: evict it, or uncache it if it has the same key. */
  predicate OthersKept(before: Option<Handle>, after: Option<Handle>, sameKey: bool) {
    || after == before
    || (before.Some? && before.value.inCache && before.value.refs == 0 && after == None)
    || (sameKey && after == Uncached(before))
  }

  predicate AllKept(before: Handles, after: Handles, table: map<string, nat>, key: string) {
    && |after| == |before| + 1
    && forall id :: 0 <= id < |before| ==> OthersKept(before[id], after[id], key in table && table[key] == id)
  }

  /** One more handle, and only the handle of the key has changed. */
  predicate Replaced(before: Handles, after: Handles, table: map<string, nat>, key: string) {
    && |after| == |before| + 1
    && forall id :: 0 <= id < |before| ==>
         after[id] == before[id] || (key in table && table[key] == id && after[id] == Uncached(before[id]))
  }

  /** Evicting and then replacing. */
  lemma KeptBy(before: Handles, table: map<string, nat>, mid: Handles, table': map<string, nat>, after: Handles, key: string)
    requires TableOk(before, table) && TableOk(mid, table') && Evicted(before, mid) && Replaced(mid, after, table', key)
    ensures AllKept(before, after, table, key) && Replaced(mid, after, table, key)
  {
    forall id | 0 <= id < |before| ensures OthersKept(before[id], after[id], key in table && table[key] == id) {
      if key in table' && table'[key] == id {
        assert mid[id].Some? && mid[id] == before[id];
      }
    }
  }

  /** A handle found by a lookup. */
  function Hit(h: Handle): Handle {
    h.(refs := h.refs + 1, hit := true)
  }
}
