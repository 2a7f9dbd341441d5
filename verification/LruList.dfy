/**
 The LRU list of a cache shard with its three priority pools (`LRU_Remove`, `LRU_Insert`,
 `MaintainPoolSize`).

 The list runs from the oldest handle to the newest: first the bottom pool, then the low pool, then
 the high pool.  Two pointers mark the boundaries: each is the newest handle of its pool, or the list
 head.  The links of the list are its order; a pointer is the identity of a handle, and `None` is the
 list head.
 */
module LruList {
  import opened Options

  datatype Pool = Bottom | Low | High

  /** A handle on the list: its identity, its charge, and its two pool flags. */
  datatype Node = Node(id: nat, charge: nat, pool: Pool)

  function Charge(nodes: seq<Node>): nat {
    if nodes == [] then 0 else nodes[0].charge + Charge(nodes[1..])
  }

  // ---- The pools ----

  /** Pools and pool counters of a list whose bottom pool ends at bottom and whose low pool ends at low. */
  predicate Pooled(nodes: seq<Node>, bottom: nat, low: nat, lowUsage: int, highUsage: int) {
    if nodes == [] then bottom == low == 0 && lowUsage == highUsage == 0
    else
      var n, rest := nodes[0], nodes[1..];
      if bottom > 0 then n.pool.Bottom? && low > 0 && Pooled(rest, bottom - 1, low - 1, lowUsage, highUsage)
      else if low > 0 then n.pool.Low? && Pooled(rest, 0, low - 1, lowUsage - n.charge, highUsage)
      else n.pool.High? && Pooled(rest, 0, 0, lowUsage, highUsage - n.charge)
  }

  lemma {:induction false} PooledBounds(nodes: seq<Node>, bottom: nat, low: nat, lowUsage: int, highUsage: int)
    requires Pooled(nodes, bottom, low, lowUsage, highUsage)
    ensures bottom <= low <= |nodes| && lowUsage >= 0 && highUsage >= 0
    ensures highUsage > 0 ==> low < |nodes|
    ensures lowUsage > 0 ==> bottom < low
  {
    if nodes != [] {
      var n, rest := nodes[0], nodes[1..];
      if bottom > 0 {
        PooledBounds(rest, bottom - 1, low - 1, lowUsage, highUsage);
      } else if low > 0 {
        PooledBounds(rest, 0, low - 1, lowUsage - n.charge, highUsage);
      } else {
        PooledBounds(rest, 0, 0, lowUsage, highUsage - n.charge);
      }
    }
  }

  /** The node at position p with another pool. */
  function Repooled(nodes: seq<Node>, p: nat, pool: Pool): (r: seq<Node>)
    requires p < |nodes|
    ensures |r| == |nodes|
  {
    if p == 0 then [nodes[0].(pool := pool)] + nodes[1..] else [nodes[0]] + Repooled(nodes[1..], p - 1, pool)
  }

  lemma {:induction false} RepooledIs(nodes: seq<Node>, p: nat, pool: Pool)
    requires p < |nodes|
    ensures Repooled(nodes, p, pool) == nodes[p := nodes[p].(pool := pool)]
  {
    if p > 0 {
      RepooledIs(nodes[1..], p - 1, pool);
    }
  }

  /** The oldest handle of the high pool moves to the low pool. */
  lemma {:induction false} HighToLow(nodes: seq<Node>, bottom: nat, low: nat, lowUsage: int, highUsage: int)
    requires Pooled(nodes, bottom, low, lowUsage, highUsage) && low < |nodes|
    ensures var n := nodes[low];
            && highUsage >= n.charge
            && Pooled(Repooled(nodes, low, Low), bottom, low + 1, lowUsage + n.charge, highUsage - n.charge)
  {
    var n, rest := nodes[0], nodes[1..];
    if bottom > 0 {
      HighToLow(rest, bottom - 1, low - 1, lowUsage, highUsage);
    } else if low > 0 {
      HighToLow(rest, 0, low - 1, lowUsage - n.charge, highUsage);
    } else {
      PooledBounds(rest, 0, 0, lowUsage, highUsage - n.charge);
    }
  }

  /** The oldest handle of the low pool moves to the bottom pool. */
  lemma {:induction false} LowToBottom(nodes: seq<Node>, bottom: nat, low: nat, lowUsage: int, highUsage: int)
    requires Pooled(nodes, bottom, low, lowUsage, highUsage) && bottom < low
    ensures low <= |nodes| && lowUsage >= nodes[bottom].charge
    ensures Pooled(Repooled(nodes, bottom, Bottom), bottom + 1, low, lowUsage - nodes[bottom].charge, highUsage)
  {
    PooledBounds(nodes, bottom, low, lowUsage, highUsage);
    var n, rest := nodes[0], nodes[1..];
    if bottom > 0 {
      LowToBottom(rest, bottom - 1, low - 1, lowUsage, highUsage);
    } else {
      PooledBounds(rest, 0, low - 1, lowUsage - n.charge, highUsage);
    }
  }

  function Without(nodes: seq<Node>, p: nat): (r: seq<Node>)
    requires p < |nodes|
    ensures |r| == |nodes| - 1
  {
    if p == 0 then nodes[1..] else [nodes[0]] + Without(nodes[1..], p - 1)
  }

  /** A handle leaves the list. */
  lemma {:induction false} Removed(nodes: seq<Node>, bottom: nat, low: nat, lowUsage: int, highUsage: int, p: nat)
    requires Pooled(nodes, bottom, low, lowUsage, highUsage) && p < |nodes|
    ensures var n := nodes[p];
            && (n.pool.High? ==> highUsage >= n.charge) && (n.pool.Low? ==> lowUsage >= n.charge)
            && Pooled(Without(nodes, p), if p < bottom then bottom - 1 else bottom, if p < low then low - 1 else low,
                      if n.pool.Low? then lowUsage - n.charge else lowUsage, if n.pool.High? then highUsage - n.charge else highUsage)
  {
    PooledBounds(nodes, bottom, low, lowUsage, highUsage);
    var n, rest := nodes[0], nodes[1..];
    var bottom', low' := if bottom > 0 then bottom - 1 else 0, if low > 0 then low - 1 else 0;
    var lowUsage', highUsage' := if n.pool.Low? then lowUsage - n.charge else lowUsage, if n.pool.High? then highUsage - n.charge else highUsage;
    PooledBounds(rest, bottom', low', lowUsage', highUsage');
    if p > 0 {
      Removed(rest, bottom', low', lowUsage', highUsage', p - 1);
      assert Without(nodes, p)[1..] == Without(rest, p - 1);
    }
  }

  lemma {:induction false} ChargeWithout(nodes: seq<Node>, p: nat)
    requires p < |nodes|
    ensures Charge(Without(nodes, p)) == Charge(nodes) - nodes[p].charge
  {
    if p > 0 {
      ChargeWithout(nodes[1..], p - 1);
      assert Without(nodes, p)[1..] == Without(nodes[1..], p - 1);
    }
  }

  function InsertedAt(nodes: seq<Node>, p: nat, n: Node): (r: seq<Node>)
    requires p <= |nodes|
    ensures |r| == |nodes| + 1
  {
    if p == 0 then [n] + nodes else [nodes[0]] + InsertedAt(nodes[1..], p - 1, n)
  }

  lemma {:induction false} ChargeAt(nodes: seq<Node>, p: nat, n: Node)
    requires p <= |nodes|
    ensures Charge(InsertedAt(nodes, p, n)) == Charge(nodes) + n.charge
  {
    if p == 0 {
      assert ([n] + nodes)[1..] == nodes;
    } else {
      ChargeAt(nodes[1..], p - 1, n);
      assert InsertedAt(nodes, p, n)[1..] == InsertedAt(nodes[1..], p - 1, n);
    }
  }

  /** A handle enters the list at the head of its pool. */
  lemma {:induction false} AddedHigh(nodes: seq<Node>, bottom: nat, low: nat, lowUsage: int, highUsage: int, n: Node)
    requires Pooled(nodes, bottom, low, lowUsage, highUsage) && n.pool.High?
    ensures Pooled(InsertedAt(nodes, |nodes|, n), bottom, low, lowUsage, highUsage + n.charge)
  {
    if nodes == [] {
      assert ([n] + nodes)[1..] == [];
    } else {
      var m, rest := nodes[0], nodes[1..];
      assert InsertedAt(nodes, |nodes|, n)[1..] == InsertedAt(rest, |rest|, n);
      if bottom > 0 {
        AddedHigh(rest, bottom - 1, low - 1, lowUsage, highUsage, n);
      } else if low > 0 {
        AddedHigh(rest, 0, low - 1, lowUsage - m.charge, highUsage, n);
      } else {
        AddedHigh(rest, 0, 0, lowUsage, highUsage - m.charge, n);
      }
    }
  }

  lemma {:induction false} AddedLow(nodes: seq<Node>, bottom: nat, low: nat, lowUsage: int, highUsage: int, n: Node)
    requires Pooled(nodes, bottom, low, lowUsage, highUsage) && n.pool.Low?
    ensures low <= |nodes| && Pooled(InsertedAt(nodes, low, n), bottom, low + 1, lowUsage + n.charge, highUsage)
  {
    PooledBounds(nodes, bottom, low, lowUsage, highUsage);
    if low == 0 {
      assert ([n] + nodes)[1..] == nodes;
    } else {
      var m, rest := nodes[0], nodes[1..];
      assert InsertedAt(nodes, low, n)[1..] == InsertedAt(rest, low - 1, n);
      if bottom > 0 {
        AddedLow(rest, bottom - 1, low - 1, lowUsage, highUsage, n);
      } else {
        AddedLow(rest, 0, low - 1, lowUsage - m.charge, highUsage, n);
      }
    }
  }

  lemma {:induction false} AddedBottom(nodes: seq<Node>, bottom: nat, low: nat, lowUsage: int, highUsage: int, n: Node)
    requires Pooled(nodes, bottom, low, lowUsage, highUsage) && n.pool.Bottom?
    ensures bottom <= |nodes| && Pooled(InsertedAt(nodes, bottom, n), bottom + 1, low + 1, lowUsage, highUsage)
  {
    PooledBounds(nodes, bottom, low, lowUsage, highUsage);
    if bottom == 0 {
      assert ([n] + nodes)[1..] == nodes;
    } else {
      assert InsertedAt(nodes, bottom, n)[1..] == InsertedAt(nodes[1..], bottom - 1, n);
      AddedBottom(nodes[1..], bottom - 1, low - 1, lowUsage, highUsage, n);
    }
  }

  /** The handles and their charges, in order, whatever their pools. */
  predicate SameNodes(a: seq<Node>, b: seq<Node>) {
    if a == [] || b == [] then a == b == []
    else a[0].id == b[0].id && a[0].charge == b[0].charge && SameNodes(a[1..], b[1..])
  }

  lemma {:induction false} SameCharge(a: seq<Node>, b: seq<Node>)
    requires SameNodes(a, b)
    ensures Charge(a) == Charge(b)
  {
    if a != [] {
      SameCharge(a[1..], b[1..]);
    }
  }

  lemma {:induction false} SameTrans(a: seq<Node>, b: seq<Node>, c: seq<Node>)
    requires SameNodes(a, b) && SameNodes(b, c)
    ensures SameNodes(a, c)
  {
    if a != [] {
      SameTrans(a[1..], b[1..], c[1..]);
    }
  }

  lemma {:induction false} SameIndex(a: seq<Node>, b: seq<Node>)
    requires SameNodes(a, b)
    ensures |a| == |b| && forall i :: 0 <= i < |a| ==> a[i].id == b[i].id && a[i].charge == b[i].charge
  {
    if a != [] {
      SameIndex(a[1..], b[1..]);
    }
  }

  lemma {:induction false} SameSelf(a: seq<Node>)
    ensures SameNodes(a, a)
  {
    if a != [] {
      SameSelf(a[1..]);
    }
  }

  lemma {:induction false} RepooledSame(nodes: seq<Node>, p: nat, pool: Pool)
    requires p < |nodes|
    ensures SameNodes(Repooled(nodes, p, pool), nodes)
  {
    if p == 0 {
      SameSelf(nodes[1..]);
    } else {
      RepooledSame(nodes[1..], p - 1, pool);
    }
  }

  /** Two handles inserted that differ in their pools. */
  lemma {:induction false} AnyPool(nodes: seq<Node>, p: nat, n: Node, m: Node)
    requires p <= |nodes| && n.id == m.id && n.charge == m.charge
    ensures SameNodes(InsertedAt(nodes, p, n), InsertedAt(nodes, p, m))
  {
    if p == 0 {
      SameSelf(nodes);
      assert ([n] + nodes)[1..] == nodes && ([m] + nodes)[1..] == nodes;
    } else {
      AnyPool(nodes[1..], p - 1, n, m);
      assert InsertedAt(nodes, p, n)[1..] == InsertedAt(nodes[1..], p - 1, n);
      assert InsertedAt(nodes, p, m)[1..] == InsertedAt(nodes[1..], p - 1, m);
    }
  }

  lemma {:induction false} WithoutIndex(nodes: seq<Node>, p: nat, i: nat)
    requires p < |nodes| && i < |nodes| - 1
    ensures Without(nodes, p)[i] == nodes[if i < p then i else i + 1]
  {
    if p > 0 && i > 0 {
      WithoutIndex(nodes[1..], p - 1, i - 1);
    }
  }

  lemma {:induction false} InsertedIndex(nodes: seq<Node>, p: nat, n: Node, i: nat)
    requires p <= |nodes| && i <= |nodes|
    ensures InsertedAt(nodes, p, n)[i] == if i < p then nodes[i] else if i == p then n else nodes[i - 1]
  {
    if p > 0 {
      InsertedIndex(nodes[1..], p - 1, n, if i > 0 then i - 1 else 0);
    }
  }

  // ---- The boundary pointers ----

  /** No handle is twice on the list. */
  predicate Unique(nodes: seq<Node>) {
    nodes != [] ==> !Listed(nodes[1..], nodes[0].id) && Unique(nodes[1..])
  }

  predicate Listed(nodes: seq<Node>, id: nat) {
    nodes != [] && (nodes[0].id == id || Listed(nodes[1..], id))
  }

  lemma {:induction false} ListedAt(nodes: seq<Node>, id: nat)
    ensures Listed(nodes, id) <==> exists i :: 0 <= i < |nodes| && nodes[i].id == id
  {
    if nodes != [] {
      ListedAt(nodes[1..], id);
      if exists i :: 0 <= i < |nodes| && nodes[i].id == id {
        var i :| 0 <= i < |nodes| && nodes[i].id == id;
        assert i > 0 ==> nodes[1..][i - 1].id == id;
      }
      if exists i :: 0 <= i < |nodes[1..]| && nodes[1..][i].id == id {
        var i :| 0 <= i < |nodes[1..]| && nodes[1..][i].id == id;
        assert nodes[i + 1].id == id;
      }
    }
  }

  /** The pointer to the last of the first p handles. */
  function PointerAt(nodes: seq<Node>, p: nat): Option<nat>
    requires p <= |nodes|
  {
    if p == 0 then None else if p == 1 then Some(nodes[0].id) else PointerAt(nodes[1..], p - 1)
  }

  /** How many handles there are up to the one pointed at. */
  function Position(nodes: seq<Node>, pointer: Option<nat>): nat {
    if pointer.None? then 0 else Before(nodes, pointer.value) + 1
  }

  function Before(nodes: seq<Node>, id: nat): nat {
    if nodes == [] || nodes[0].id == id then 0 else 1 + Before(nodes[1..], id)
  }

  lemma {:induction false} PointerListed(nodes: seq<Node>, p: nat)
    requires 0 < p <= |nodes|
    ensures PointerAt(nodes, p) == Some(nodes[p - 1].id) && Listed(nodes, nodes[p - 1].id)
  {
    if p > 1 {
      PointerListed(nodes[1..], p - 1);
    }
  }

  lemma {:induction false} PositionIs(nodes: seq<Node>, p: nat)
    requires Unique(nodes) && p <= |nodes|
    ensures Position(nodes, PointerAt(nodes, p)) == p
  {
    if p > 1 {
      PointerListed(nodes[1..], p - 1);
      PositionIs(nodes[1..], p - 1);
    }
  }

  /** The pointers mark the ends of the two lower pools. */
  predicate Marked(nodes: seq<Node>, bottom: nat, low: nat, bottomPri: Option<nat>, lowPri: Option<nat>) {
    && Unique(nodes) && bottom <= |nodes| && low <= |nodes|
    && bottomPri == PointerAt(nodes, bottom) && lowPri == PointerAt(nodes, low)
  }

  /** A pointer to the removed handle goes to the one before it; every other one stays. */
  lemma PointerRemoved(nodes: seq<Node>, q: nat, p: nat)
    requires Unique(nodes) && q <= |nodes| && p < |nodes|
    ensures PointerAt(Without(nodes, p), if p < q then q - 1 else q) ==
            if PointerAt(nodes, q) == Some(nodes[p].id) then PointerAt(nodes, p) else PointerAt(nodes, q)
  {
    var left, q' := Without(nodes, p), if p < q then q - 1 else q;
    PointerListed(nodes, p + 1);
    if q > 0 {
      PointerListed(nodes, q);
      PositionIs(nodes, q);
      PositionIs(nodes, p + 1);
    }
    if q' > 0 {
      PointerListed(nodes, if q == p + 1 then p else q);
      WithoutIndex(nodes, p, q' - 1);
      PointerListed(left, q');
    }
  }

  lemma {:induction false} UniqueRemoved(nodes: seq<Node>, p: nat, id: nat)
    requires Unique(nodes) && p < |nodes|
    ensures Unique(Without(nodes, p))
    ensures Listed(Without(nodes, p), id) <==> Listed(nodes, id) && id != nodes[p].id
  {
    if p > 0 {
      UniqueRemoved(nodes[1..], p - 1, nodes[0].id);
      UniqueRemoved(nodes[1..], p - 1, id);
      PointerListed(nodes[1..], p);
      assert Without(nodes, p)[1..] == Without(nodes[1..], p - 1);
    }
  }

  lemma MarkedRemoved(nodes: seq<Node>, bottom: nat, low: nat, bottomPri: Option<nat>, lowPri: Option<nat>, p: nat)
    requires Marked(nodes, bottom, low, bottomPri, lowPri) && p < |nodes|
    ensures var e, prev := Some(nodes[p].id), PointerAt(nodes, p);
            Marked(Without(nodes, p), if p < bottom then bottom - 1 else bottom, if p < low then low - 1 else low,
                   if bottomPri == e then prev else bottomPri, if lowPri == e then prev else lowPri)
  {
    UniqueRemoved(nodes, p, 0);
    PointerRemoved(nodes, bottom, p);
    PointerRemoved(nodes, low, p);
  }

  lemma {:induction false} PointerInserted(nodes: seq<Node>, p: nat, n: Node, q: nat)
    requires p <= |nodes| && q <= |nodes|
    ensures q <= p ==> PointerAt(InsertedAt(nodes, p, n), q) == PointerAt(nodes, q)
    ensures q > p ==> PointerAt(InsertedAt(nodes, p, n), q + 1) == PointerAt(nodes, q)
    ensures PointerAt(InsertedAt(nodes, p, n), p + 1) == Some(n.id)
  {
    var more, at := InsertedAt(nodes, p, n), if q <= p then q else q + 1;
    InsertedIndex(nodes, p, n, p);
    PointerListed(more, p + 1);
    if q > 0 {
      PointerListed(nodes, q);
      InsertedIndex(nodes, p, n, at - 1);
      PointerListed(more, at);
    }
  }

  lemma {:induction false} UniqueInserted(nodes: seq<Node>, p: nat, n: Node, id: nat)
    requires Unique(nodes) && p <= |nodes| && !Listed(nodes, n.id)
    ensures Unique(InsertedAt(nodes, p, n))
    ensures Listed(InsertedAt(nodes, p, n), id) <==> Listed(nodes, id) || id == n.id
  {
    if p == 0 {
      assert ([n] + nodes)[1..] == nodes;
    } else {
      UniqueInserted(nodes[1..], p - 1, n, nodes[0].id);
      UniqueInserted(nodes[1..], p - 1, n, id);
      assert InsertedAt(nodes, p, n)[1..] == InsertedAt(nodes[1..], p - 1, n);
    }
  }

  /** A handle behind both pointers. */
  lemma MarkedInserted(nodes: seq<Node>, bottom: nat, low: nat, bottomPri: Option<nat>, lowPri: Option<nat>, p: nat, n: Node)
    requires Marked(nodes, bottom, low, bottomPri, lowPri) && bottom <= p && low <= p <= |nodes| && !Listed(nodes, n.id)
    ensures Marked(InsertedAt(nodes, p, n), bottom, low, bottomPri, lowPri)
    ensures PointerAt(InsertedAt(nodes, p, n), p + 1) == Some(n.id)
  {
    UniqueInserted(nodes, p, n, 0);
    PointerInserted(nodes, p, n, bottom);
    PointerInserted(nodes, p, n, low);
  }

  /** A handle behind the bottom pointer; with an empty low pool the low pointer moves along. */
  lemma MarkedBottom(nodes: seq<Node>, bottom: nat, low: nat, bottomPri: Option<nat>, lowPri: Option<nat>, n: Node)
    requires Marked(nodes, bottom, low, bottomPri, lowPri) && bottom <= low && !Listed(nodes, n.id)
    ensures Marked(InsertedAt(nodes, bottom, n), bottom + 1, low + 1, Some(n.id), if bottomPri == lowPri then Some(n.id) else lowPri)
  {
    UniqueInserted(nodes, bottom, n, 0);
    PointerInserted(nodes, bottom, n, low);
    PositionIs(nodes, bottom);
    PositionIs(nodes, low);
  }

  lemma {:induction false} SameMarks(a: seq<Node>, b: seq<Node>, id: nat, p: nat)
    requires SameNodes(b, a) && p <= |a|
    ensures |a| == |b| && PointerAt(b, p) == PointerAt(a, p) && (Listed(b, id) <==> Listed(a, id)) && (Unique(b) <==> Unique(a))
  {
    SameIndex(b, a);
    if a != [] {
      SameMarks(a[1..], b[1..], id, if p > 0 then p - 1 else 0);
      SameMarks(a[1..], b[1..], a[0].id, 0);
    }
  }

  /** A change of pool moves no handle. */
  lemma MarkedSame(a: seq<Node>, b: seq<Node>, bottom: nat, low: nat, bottomPri: Option<nat>, lowPri: Option<nat>)
    requires Marked(a, bottom, low, bottomPri, lowPri) && SameNodes(b, a)
    ensures Marked(b, bottom, low, bottomPri, lowPri)
  {
    SameMarks(a, b, 0, bottom);
    SameMarks(a, b, 0, low);
  }

  /** The boundary went from one place on to another only as far as it took: without the last handle it passed, the
      pool behind it would exceed its capacity. */
  predicate Least(nodes: seq<Node>, from: nat, at: nat, usage: int, capacity: nat) {
    from <= at <= |nodes| && (at > from ==> usage + nodes[at - 1].charge > capacity)
  }

  lemma LeastSame(a: seq<Node>, b: seq<Node>, from: nat, at: nat, usage: int, capacity: nat)
    requires Least(a, from, at, usage, capacity) && SameNodes(b, a)
    ensures Least(b, from, at, usage, capacity)
  {
    SameIndex(b, a);
  }

  /** One round of the first loop of MaintainPoolSize. */
  lemma HighStep(nodes: seq<Node>, bottom: nat, low: nat, lowUsage: int, highUsage: int, bottomPri: Option<nat>, lowPri: Option<nat>)
    requires Pooled(nodes, bottom, low, lowUsage, highUsage) && Marked(nodes, bottom, low, bottomPri, lowPri) && highUsage > 0
    ensures Position(nodes, lowPri) == low < |nodes|
    ensures var n, moved := nodes[low], Repooled(nodes, low, Low);
            && highUsage >= n.charge
            && Pooled(moved, bottom, low + 1, lowUsage + n.charge, highUsage - n.charge)
            && Marked(moved, bottom, low + 1, bottomPri, Some(n.id)) && SameNodes(moved, nodes) && moved[low].charge == n.charge
  {
    PooledBounds(nodes, bottom, low, lowUsage, highUsage);
    PositionIs(nodes, low);
    HighToLow(nodes, bottom, low, lowUsage, highUsage);
    RepooledIs(nodes, low, Low);
    RepooledSame(nodes, low, Low);
    PointerListed(nodes, low + 1);
    MarkedSame(nodes, Repooled(nodes, low, Low), bottom, low + 1, bottomPri, Some(nodes[low].id));
  }

  /** One round of the second loop. */
  lemma LowStep(nodes: seq<Node>, bottom: nat, end: nat, low: nat, lowUsage: int, highUsage: int, bottomPri: Option<nat>, lowPri: Option<nat>)
    requires Pooled(nodes, bottom, end, lowUsage, highUsage) && Marked(nodes, bottom, low, bottomPri, lowPri) && lowUsage > 0
    ensures Position(nodes, bottomPri) == bottom < end <= |nodes|
    ensures var n, moved := nodes[bottom], Repooled(nodes, bottom, Bottom);
            && lowUsage >= n.charge
            && Pooled(moved, bottom + 1, end, lowUsage - n.charge, highUsage)
            && Marked(moved, bottom + 1, low, Some(n.id), lowPri) && SameNodes(moved, nodes) && moved[bottom].charge == n.charge
  {
    PooledBounds(nodes, bottom, end, lowUsage, highUsage);
    PositionIs(nodes, bottom);
    LowToBottom(nodes, bottom, end, lowUsage, highUsage);
    RepooledIs(nodes, bottom, Bottom);
    RepooledSame(nodes, bottom, Bottom);
    PointerListed(nodes, bottom + 1);
    MarkedSame(nodes, Repooled(nodes, bottom, Bottom), bottom + 1, low, Some(nodes[bottom].id), lowPri);
  }

  class LruList {
    var list: seq<Node>
    var bottomPri: Option<nat>
    var lowPri: Option<nat>
    var usage: int
    var highUsage: int
    var lowUsage: int
    var highCapacity: nat
    var lowCapacity: nat
    var highOn: bool
    var lowOn: bool
    ghost var bottom: nat
    ghost var low: nat

    constructor (highCapacity: nat, lowCapacity: nat, highOn: bool, lowOn: bool)
      ensures Valid() && Limited() && list == [] && highUsage == 0
      ensures this.highCapacity == highCapacity && this.lowCapacity == lowCapacity && this.highOn == highOn && this.lowOn == lowOn
    {
      list, bottomPri, lowPri, usage, highUsage, lowUsage := [], None, None, 0, 0, 0;
      bottom, low := 0, 0;
      this.highCapacity, this.lowCapacity, this.highOn, this.lowOn := highCapacity, lowCapacity, highOn, lowOn;
    }

    /** The list is bottom, low and high pool in that order, each pointer is the last handle of its pool,
        and every counter is the charge of its pool. */
    ghost predicate Valid()
      reads this
    {
      Pools(low) && usage == Charge(list)
    }

    /** The same with the low pool ending at end, where the low pointer may still have to be moved to. */
    ghost predicate Pools(end: nat)
      reads this
    {
      Pooled(list, bottom, end, lowUsage, highUsage) && Marked(list, bottom, low, bottomPri, lowPri)
    }

    /** No pool exceeds its capacity. */
    predicate Limited()
      reads this
    {
      highUsage <= highCapacity && lowUsage <= lowCapacity
    }

    /** The first loop of MaintainPoolSize: the oldest handles of the high pool overflow to the low pool. */
    method ShrinkHigh()
      requires Pools(low)
      modifies this`list, this`low, this`lowPri, this`highUsage, this`lowUsage
      ensures Pools(low) && highUsage <= highCapacity && SameNodes(list, old(list)) && Least(list, old(low), low, highUsage, highCapacity)
      ensures old(highUsage) <= highCapacity ==> list == old(list) && highUsage == old(highUsage) && lowUsage == old(lowUsage)
      ensures highUsage + lowUsage == old(highUsage) + old(lowUsage)
    {
      SameSelf(list);
      while highUsage > highCapacity
        invariant Pools(low) && SameNodes(list, old(list)) && Least(list, old(low), low, highUsage, highCapacity)
        invariant old(highUsage) <= highCapacity ==> list == old(list) && highUsage == old(highUsage) && lowUsage == old(lowUsage)
        invariant highUsage + lowUsage == old(highUsage) + old(lowUsage)
        decreases |list| - low
      {
        ghost var before := list;
        OverflowHigh();
        SameIndex(list, before);
        SameTrans(list, before, old(list));
      }
    }

    /** The handle behind the low pointer leaves the high pool. */
    method OverflowHigh()
      requires Pools(low) && highUsage > 0
      modifies this`list, this`low, this`lowPri, this`highUsage, this`lowUsage
      ensures Pools(low) && SameNodes(list, old(list)) && low == old(low) + 1 <= |list|
      ensures highUsage == old(highUsage) - list[low - 1].charge && lowUsage == old(lowUsage) + list[low - 1].charge
    {
      HighStep(list, bottom, low, lowUsage, highUsage, bottomPri, lowPri);
      var next := Position(list, lowPri);
      var n := list[next];
      lowPri := Some(n.id);
      low := low + 1;
      list := Repooled(list, next, Low);
      highUsage := highUsage - n.charge;
      lowUsage := lowUsage + n.charge;
    }

    /** The second loop: the oldest handles of the low pool, which ends at end, overflow to the bottom pool. */
    method ShrinkLow(ghost end: nat)
      requires Pools(end)
      modifies this`list, this`bottom, this`bottomPri, this`lowUsage
      ensures Pools(end) && lowUsage <= lowCapacity && SameNodes(list, old(list)) && Least(list, old(bottom), bottom, lowUsage, lowCapacity)
      ensures old(lowUsage) <= lowCapacity ==> list == old(list) && lowUsage == old(lowUsage)
    {
      SameSelf(list);
      while lowUsage > lowCapacity
        invariant Pools(end) && SameNodes(list, old(list)) && Least(list, old(bottom), bottom, lowUsage, lowCapacity)
        invariant old(lowUsage) <= lowCapacity ==> list == old(list) && lowUsage == old(lowUsage)
        decreases end - bottom
      {
        ghost var before := list;
        OverflowLow(end);
        PooledBounds(list, bottom, end, lowUsage, highUsage);
        SameTrans(list, before, old(list));
      }
    }

    /** The handle behind the bottom pointer leaves the low pool. */
    method OverflowLow(ghost end: nat)
      requires Pools(end) && lowUsage > 0
      modifies this`list, this`bottom, this`bottomPri, this`lowUsage
      ensures Pools(end) && SameNodes(list, old(list)) && bottom == old(bottom) + 1 <= |list|
      ensures lowUsage == old(lowUsage) - list[bottom - 1].charge
    {
      LowStep(list, bottom, end, low, lowUsage, highUsage, bottomPri, lowPri);
      var next := Position(list, bottomPri);
      var n := list[next];
      bottomPri := Some(n.id);
      bottom := bottom + 1;
      list := Repooled(list, next, Bottom);
      lowUsage := lowUsage - n.charge;
    }

    /** MaintainPoolSize.  The low pool ends at end; its pointer may be behind, but only if the high pool is
        within its capacity. */
    method MaintainPoolSize(ghost end: nat)
      requires Pools(end) && (highUsage > highCapacity ==> end == low)
      modifies this`list, this`bottom, this`bottomPri, this`low, this`lowPri, this`highUsage, this`lowUsage
      ensures Limited() && SameNodes(list, old(list))
      ensures Least(list, old(low), low, highUsage, highCapacity) && Least(list, old(bottom), bottom, lowUsage, lowCapacity)
      ensures old(Limited()) ==> list == old(list) && lowUsage == old(lowUsage)
      ensures old(highUsage) > highCapacity ==> Pools(low)
      ensures old(highUsage) <= highCapacity ==> Pools(end) && low == old(low) && highUsage == old(highUsage)
    {
      if highUsage > highCapacity {
        ShrinkHigh();
        ghost var mid := list;
        ShrinkLow(low);
        SameTrans(list, mid, old(list));
        LeastSame(mid, list, old(low), low, highUsage, highCapacity);
      } else {
        ShrinkLow(end);
      }
    }

    /** The links of LRU_Remove: a pointer to the handle goes to the one before it. */
    method Unlink(p: nat)
      requires Marked(list, bottom, low, bottomPri, lowPri) && p < |list|
      modifies this`list, this`bottom, this`bottomPri, this`low, this`lowPri
      ensures Marked(list, bottom, low, bottomPri, lowPri) && list == Without(old(list), p)
      ensures bottom == (if p < old(bottom) then old(bottom) - 1 else old(bottom))
      ensures low == if p < old(low) then old(low) - 1 else old(low)
    {
      MarkedRemoved(list, bottom, low, bottomPri, lowPri, p);
      var e, prev := Some(list[p].id), PointerAt(list, p);
      lowPri := if lowPri == e then prev else lowPri;
      bottomPri := if bottomPri == e then prev else bottomPri;
      list := Without(list, p);
      bottom, low := if p < bottom then bottom - 1 else bottom, if p < low then low - 1 else low;
    }

    /** LRU_Remove of the handle at position p. */
    method Remove(p: nat)
      requires Valid() && p < |list|
      modifies this`list, this`bottom, this`bottomPri, this`low, this`lowPri, this`usage, this`highUsage, this`lowUsage
      ensures Valid() && list == Without(old(list), p)
      ensures highUsage <= old(highUsage) && lowUsage <= old(lowUsage)
    {
      var n := list[p];
      Removed(list, bottom, low, lowUsage, highUsage, p);
      ChargeWithout(list, p);
      Unlink(p);
      usage := usage - n.charge;
      if n.pool.High? {
        highUsage := highUsage - n.charge;
      } else if n.pool.Low? {
        lowUsage := lowUsage - n.charge;
      }
    }

    method InsertHigh(id: nat, charge: nat)
      requires Valid() && !Listed(list, id)
      modifies this`list, this`bottom, this`bottomPri, this`low, this`lowPri, this`usage, this`highUsage, this`lowUsage
      ensures Valid() && Limited() && SameNodes(list, InsertedAt(old(list), |old(list)|, Node(id, charge, Bottom)))
      ensures Least(list, old(low), low, highUsage, highCapacity) && Least(list, old(bottom), bottom, lowUsage, lowCapacity)
      ensures old(highUsage) + charge <= highCapacity ==> highUsage == old(highUsage) + charge
    {
      var n := Node(id, charge, High);
      var more := InsertedAt(list, |list|, n);
      AddedHigh(list, bottom, low, lowUsage, highUsage, n);
      MarkedInserted(list, bottom, low, bottomPri, lowPri, |list|, n);
      ChargeAt(list, |list|, n);
      list, highUsage, usage := more, highUsage + charge, usage + charge;
      MaintainPoolSize(low);
      SameCharge(list, more);
      AnyPool(old(list), |old(list)|, n, Node(id, charge, Bottom));
      SameTrans(list, more, InsertedAt(old(list), |old(list)|, Node(id, charge, Bottom)));
    }

    /** The low pointer moves only after the pools have been maintained; that the high pool needs no
        shrinking then is what makes this branch right. */
    method InsertLow(id: nat, charge: nat)
      requires Valid() && !Listed(list, id) && highUsage <= highCapacity
      modifies this`list, this`bottom, this`bottomPri, this`low, this`lowPri, this`usage, this`highUsage, this`lowUsage
      ensures Valid() && Limited() && SameNodes(list, InsertedAt(old(list), old(low), Node(id, charge, Bottom)))
      ensures low == old(low) + 1 && highUsage == old(highUsage) && Least(list, old(bottom), bottom, lowUsage, lowCapacity)
    {
      var n := Node(id, charge, Low);
      PositionIs(list, low);
      var at := Position(list, lowPri);
      var more := InsertedAt(list, at, n);
      PooledBounds(list, bottom, low, lowUsage, highUsage);
      AddedLow(list, bottom, low, lowUsage, highUsage, n);
      MarkedInserted(list, bottom, low, bottomPri, lowPri, low, n);
      ChargeAt(list, at, n);
      list, lowUsage, usage := more, lowUsage + charge, usage + charge;
      MaintainPoolSize(low + 1);
      SameMarks(more, list, 0, low + 1);
      SameCharge(list, more);
      AnyPool(old(list), low, n, Node(id, charge, Bottom));
      SameTrans(list, more, InsertedAt(old(list), low, Node(id, charge, Bottom)));
      low := low + 1;
      lowPri := Some(id);
    }

    method InsertBottom(id: nat, charge: nat)
      requires Valid() && !Listed(list, id)
      modifies this`list, this`bottom, this`bottomPri, this`low, this`lowPri, this`usage
      ensures Valid() && list == InsertedAt(old(list), old(bottom), Node(id, charge, Bottom))
      ensures bottom == old(bottom) + 1 && low == old(low) + 1
    {
      var n := Node(id, charge, Bottom);
      PositionIs(list, bottom);
      var at := Position(list, bottomPri);
      PooledBounds(list, bottom, low, lowUsage, highUsage);
      AddedBottom(list, bottom, low, lowUsage, highUsage, n);
      MarkedBottom(list, bottom, low, bottomPri, lowPri, n);
      ChargeAt(list, at, n);
      list, usage := InsertedAt(list, at, n), usage + charge;
      lowPri := if bottomPri == lowPri then Some(id) else lowPri;
      bottomPri := Some(id);
      bottom, low := bottom + 1, low + 1;
    }

    /** Whether LRU_Insert puts a handle at the head of the low pool. */
    predicate GoesLow(highPri: bool, lowPri: bool, hit: bool)
      reads this
    {
      !(highOn && (highPri || hit)) && lowOn && (highPri || lowPri || hit)
    }

    /** LRU_Insert. */
    method Insert(id: nat, charge: nat, highPri: bool, lowPri: bool, hit: bool)
      requires Valid() && !Listed(list, id) && (GoesLow(highPri, lowPri, hit) ==> highUsage <= highCapacity)
      modifies this`list, this`bottom, this`bottomPri, this`low, this`lowPri, this`usage, this`highUsage, this`lowUsage
      ensures Valid() && (old(highUsage) <= highCapacity ==> highUsage <= highCapacity) && (old(Limited()) ==> Limited())
      ensures SameNodes(list, old(Inserting(id, charge, highPri, lowPri, hit)))
      ensures if highOn && (highPri || hit) then
                Least(list, old(low), low, highUsage, highCapacity) && Least(list, old(bottom), bottom, lowUsage, lowCapacity)
              else if GoesLow(highPri, lowPri, hit) then
                low == old(low) + 1 && highUsage == old(highUsage) && Least(list, old(bottom), bottom, lowUsage, lowCapacity)
              else low == old(low) + 1 && bottom == old(bottom) + 1 && highUsage == old(highUsage) && lowUsage == old(lowUsage)
    {
      if highOn && (highPri || hit) {
        InsertHigh(id, charge);
      } else if lowOn && (highPri || lowPri || hit) {
        InsertLow(id, charge);
      } else {
        InsertBottom(id, charge);
        SameSelf(list);
      }
    }

    /** Where LRU_Insert puts a handle: at the head of the list, of the low pool or of the bottom pool. */
    ghost function PlaceOf(highPri: bool, lowPri: bool, hit: bool): (p: nat)
      reads this
      requires Valid()
      ensures p <= |list|
    {
      if highOn && (highPri || hit) then |list|
      else if lowOn && (highPri || lowPri || hit) then low
      else bottom
    }

    /** The list with a handle put there, whatever its pool. */
    ghost function Inserting(id: nat, charge: nat, highPri: bool, lowPri: bool, hit: bool): seq<Node>
      reads this
      requires Valid()
    {
      InsertedAt(list, PlaceOf(highPri, lowPri, hit), Node(id, charge, Bottom))
    }

    /** SetHighPriorityPoolRatio and SetLowPriorityPoolRatio. */
    method SetPools(highCapacity: nat, lowCapacity: nat, highOn: bool, lowOn: bool)
      requires Valid()
      modifies this
      ensures Valid() && Limited() && SameNodes(list, old(list))
      ensures Least(list, old(low), low, highUsage, highCapacity) && Least(list, old(bottom), bottom, lowUsage, lowCapacity)
      ensures this.highCapacity == highCapacity && this.lowCapacity == lowCapacity && this.highOn == highOn && this.lowOn == lowOn
    {
      this.highCapacity, this.lowCapacity, this.highOn, this.lowOn := highCapacity, lowCapacity, highOn, lowOn;
      MaintainPoolSize(low);
      SameCharge(list, old(list));
    }

    /** The pools' part of SetCapacity: new limits, and no maintenance. */
    method SetCapacities(highCapacity: nat, lowCapacity: nat)
      requires Valid()
      modifies this`highCapacity, this`lowCapacity
      ensures Valid() && this.highCapacity == highCapacity && this.lowCapacity == lowCapacity
    {
      this.highCapacity, this.lowCapacity := highCapacity, lowCapacity;
    }
  }

  // ---- Inserting below an overfull high pool ----

  /** List and counters, with each pointer as the number of handles up to the one it points at. */
  datatype Raw = Raw(nodes: seq<Node>, bottom: nat, low: nat, lowUsage: int, highUsage: int)

  /** The handle behind the low pointer goes to the low pool, whatever pool it is in. */
  function HighMoved(s: Raw): Raw
    requires s.low < |s.nodes|
  {
    var charge := s.nodes[s.low].charge;
    Raw(Repooled(s.nodes, s.low, Low), s.bottom, s.low + 1, s.lowUsage + charge, s.highUsage - charge)
  }

  /** The handle behind the bottom pointer goes to the bottom pool. */
  function LowMoved(s: Raw): Raw
    requires s.bottom < |s.nodes|
  {
    Raw(Repooled(s.nodes, s.bottom, Bottom), s.bottom + 1, s.low, s.lowUsage - s.nodes[s.bottom].charge, s.highUsage)
  }

  /** The first loop of MaintainPoolSize from any state; None where one of its assertions does not hold. */
  function RawHigh(s: Raw, capacity: nat): Option<Raw>
    decreases |s.nodes| - s.low
  {
    if s.highUsage <= capacity then Some(s)
    else if s.low >= |s.nodes| || s.highUsage < s.nodes[s.low].charge then None
    else RawHigh(HighMoved(s), capacity)
  }

  /** The second loop. */
  function RawLow(s: Raw, capacity: nat): Option<Raw>
    decreases |s.nodes| - s.bottom
  {
    if s.lowUsage <= capacity then Some(s)
    else if s.bottom >= |s.nodes| || s.lowUsage < s.nodes[s.bottom].charge then None
    else RawLow(LowMoved(s), capacity)
  }

  /** Both loops of MaintainPoolSize. */
  function RawMaintain(s: Raw, highCapacity: nat, lowCapacity: nat): Option<Raw> {
    match RawHigh(s, highCapacity)
    case None => None
    case Some(t) => RawLow(t, lowCapacity)
  }

  /** LRU_Insert at the head of the low pool: link the handle, charge it, run both loops, and only then point
      at it. */
  function RawInsertLow(s: Raw, n: Node, highCapacity: nat, lowCapacity: nat): Option<Raw>
    requires s.low <= |s.nodes|
  {
    var linked := s.(nodes := InsertedAt(s.nodes, s.low, n), lowUsage := s.lowUsage + n.charge);
    match RawMaintain(linked, highCapacity, lowCapacity)
    case None => None
    case Some(r) => Some(r.(low := s.low + 1))
  }

  predicate Right(s: Raw) {
    Pooled(s.nodes, s.bottom, s.low, s.lowUsage, s.highUsage)
  }

  /** What the loops keep: handles, charges, and that a handle outside the high pool stays outside. */
  predicate Kept(s: Raw, r: Raw, p: nat) {
    && SameNodes(r.nodes, s.nodes) && r.highUsage <= s.highUsage
    && p < |s.nodes| == |r.nodes| && (r.nodes[p].pool.High? ==> s.nodes[p].pool.High?)
  }

  lemma MovedKeeps(s: Raw, p: nat)
    requires p < |s.nodes|
    ensures s.low < |s.nodes| ==> Kept(s, HighMoved(s), p)
    ensures s.low == p ==> HighMoved(s).nodes[p].pool.Low?
    ensures s.bottom < |s.nodes| ==> Kept(s, LowMoved(s), p)
  {
    if s.low < |s.nodes| {
      RepooledIs(s.nodes, s.low, Low);
      RepooledSame(s.nodes, s.low, Low);
    }
    if s.bottom < |s.nodes| {
      RepooledIs(s.nodes, s.bottom, Bottom);
      RepooledSame(s.nodes, s.bottom, Bottom);
    }
  }

  lemma KeptTrans(s: Raw, t: Raw, r: Raw, p: nat)
    requires Kept(s, t, p) && Kept(t, r, p)
    ensures Kept(s, r, p)
  {
    SameTrans(r.nodes, t.nodes, s.nodes);
  }

  lemma {:induction false} RawHighKeeps(s: Raw, capacity: nat, p: nat)
    requires p < |s.nodes| && RawHigh(s, capacity).Some?
    ensures Kept(s, RawHigh(s, capacity).value, p)
    decreases |s.nodes| - s.low
  {
    if s.highUsage > capacity {
      MovedKeeps(s, p);
      RawHighKeeps(HighMoved(s), capacity, p);
      KeptTrans(s, HighMoved(s), RawHigh(HighMoved(s), capacity).value, p);
    } else {
      SameSelf(s.nodes);
    }
  }

  lemma {:induction false} RawLowKeeps(s: Raw, capacity: nat, p: nat)
    requires p < |s.nodes| && RawLow(s, capacity).Some?
    ensures Kept(s, RawLow(s, capacity).value, p)
    decreases |s.nodes| - s.bottom
  {
    if s.lowUsage > capacity {
      MovedKeeps(s, p);
      RawLowKeeps(LowMoved(s), capacity, p);
      KeptTrans(s, LowMoved(s), RawLow(LowMoved(s), capacity).value, p);
    } else {
      SameSelf(s.nodes);
    }
  }

  /** The second loop on a list whose low pool ends at end. */
  lemma {:induction false} RawLowRight(s: Raw, end: nat, capacity: nat)
    requires Right(s.(low := end))
    ensures RawLow(s, capacity).Some? && Right(RawLow(s, capacity).value.(low := end))
    decreases |s.nodes| - s.bottom
  {
    if s.lowUsage > capacity {
      PooledBounds(s.nodes, s.bottom, end, s.lowUsage, s.highUsage);
      LowToBottom(s.nodes, s.bottom, end, s.lowUsage, s.highUsage);
      RawLowRight(LowMoved(s), end, capacity);
    }
  }

  lemma {:induction false} PooledHigh(nodes: seq<Node>, bottom: nat, low: nat, lowUsage: int, highUsage: int)
    requires Pooled(nodes, bottom, low, lowUsage, highUsage)
    ensures low <= |nodes| && highUsage == Charge(nodes[low..]) && (low < |nodes| ==> nodes[low].pool.High?)
  {
    if nodes != [] {
      var n, rest := nodes[0], nodes[1..];
      if bottom > 0 {
        PooledHigh(rest, bottom - 1, low - 1, lowUsage, highUsage);
        assert nodes[low..] == rest[low - 1..];
      } else if low > 0 {
        PooledHigh(rest, 0, low - 1, lowUsage - n.charge, highUsage);
        assert nodes[low..] == rest[low - 1..];
      } else {
        PooledHigh(rest, 0, 0, lowUsage, highUsage - n.charge);
        assert nodes[0..] == nodes && rest[0..] == rest;
      }
    }
  }

  lemma {:induction false} SameTail(a: seq<Node>, b: seq<Node>, p: nat)
    requires SameNodes(a, b) && p <= |a|
    ensures p <= |b| && SameNodes(a[p..], b[p..])
  {
    if p == 0 {
      assert a[0..] == a && b[0..] == b;
    } else {
      SameTail(a[1..], b[1..], p - 1);
      assert a[p..] == a[1..][p - 1..] && b[p..] == b[1..][p - 1..];
    }
  }

  /** Inserting at the head of the low pool runs both loops while the low pointer is still behind the new
      handle.  Pools and counters are right afterwards if and only if the high pool was within its capacity
      before, which a change of capacity does not see to. */
  lemma LowInsertExact(s: Raw, n: Node, highCapacity: nat, lowCapacity: nat)
    requires Right(s) && n.pool.Low?
    ensures s.low <= |s.nodes|
    ensures var r := RawInsertLow(s, n, highCapacity, lowCapacity);
            (r.Some? && Right(r.value)) <==> s.highUsage <= highCapacity
  {
    AddedLow(s.nodes, s.bottom, s.low, s.lowUsage, s.highUsage, n);
    var linked := s.(nodes := InsertedAt(s.nodes, s.low, n), lowUsage := s.lowUsage + n.charge);
    if s.highUsage <= highCapacity {
      RawLowRight(linked, s.low + 1, lowCapacity);
    } else {
      InsertedIndex(s.nodes, s.low, n, s.low);
      OverfullBreaks(linked, n, highCapacity, lowCapacity);
    }
  }

  lemma OverfullBreaks(s: Raw, n: Node, highCapacity: nat, lowCapacity: nat)
    requires s.low < |s.nodes| && s.nodes[s.low] == n && n.pool.Low? && s.highUsage > highCapacity && Right(s.(low := s.low + 1))
    ensures var r := RawMaintain(s, highCapacity, lowCapacity); r.Some? ==> !Right(r.value.(low := s.low + 1))
  {
    if RawHigh(s, highCapacity).Some? {
      var t := RawHigh(s, highCapacity).value;
      if RawLow(t, lowCapacity).Some? {
        FirstMoves(s, n, highCapacity);
        RawLowKeeps(t, lowCapacity, s.low);
        OverfullFails(s, n, highCapacity, t, RawLow(t, lowCapacity).value, lowCapacity);
      }
    }
  }

  /** The first handle the first loop moves is the new one, which was in the low pool and charged already. */
  lemma FirstMoves(s: Raw, n: Node, capacity: nat)
    requires s.low < |s.nodes| && s.nodes[s.low] == n && n.pool.Low? && s.highUsage > capacity && RawHigh(s, capacity).Some?
    ensures HighMoved(s).nodes == s.nodes && HighMoved(s).highUsage == s.highUsage - n.charge
    ensures RawHigh(s, capacity) == RawHigh(HighMoved(s), capacity) && Kept(HighMoved(s), RawHigh(s, capacity).value, s.low)
  {
    RepooledIs(s.nodes, s.low, Low);
    RawHighKeeps(HighMoved(s), capacity, s.low);
  }

  /** Either its charge goes missing from the high pool's counter, or a handle behind it leaves the high pool
      as well. */
  lemma OverfullFails(s: Raw, n: Node, highCapacity: nat, t: Raw, r: Raw, lowCapacity: nat)
    requires s.low < |s.nodes| && s.highUsage > highCapacity && Right(s.(low := s.low + 1))
    requires HighMoved(s).nodes == s.nodes && HighMoved(s).highUsage == s.highUsage - n.charge
    requires RawHigh(HighMoved(s), highCapacity) == Some(t) && Kept(HighMoved(s), t, s.low)
    requires RawLow(t, lowCapacity) == Some(r) && Kept(t, r, s.low)
    ensures !Right(r.(low := s.low + 1))
  {
    var end := s.low + 1;
    if Right(r.(low := end)) {
      KeptTrans(HighMoved(s), t, r, s.low);
      SameTail(r.nodes, s.nodes, end);
      SameCharge(r.nodes[end..], s.nodes[end..]);
      PooledHigh(s.nodes, s.bottom, end, s.lowUsage, s.highUsage);
      PooledHigh(r.nodes, r.bottom, end, r.lowUsage, r.highUsage);
      SecondMoves(HighMoved(s), t, r, highCapacity, lowCapacity);
    }
  }

  /** A handle of no charge leaves the high pool over its capacity, so the loop moves the one behind it. */
  lemma SecondMoves(s: Raw, t: Raw, r: Raw, highCapacity: nat, lowCapacity: nat)
    requires RawHigh(s, highCapacity) == Some(t) && RawLow(t, lowCapacity) == Some(r) && s.highUsage > highCapacity
    ensures s.low < |s.nodes| == |r.nodes| && !r.nodes[s.low].pool.High?
  {
    MovedKeeps(s, s.low);
    RawHighKeeps(HighMoved(s), highCapacity, s.low);
    RawLowKeeps(t, lowCapacity, s.low);
  }

  /** A smaller capacity leaves the high pool overfull, and the next handle of low priority breaks the pools. */
  method OverfullExample() returns (c: LruList)
    ensures c.Valid() && c.highUsage > c.highCapacity && c.GoesLow(false, true, false) && c.low <= |c.list|
    ensures var r := RawInsertLow(Raw(c.list, c.bottom, c.low, c.lowUsage, c.highUsage), Node(2, 4, Low), c.highCapacity, c.lowCapacity);
            r.None? || !Right(r.value)
  {
    c := new LruList(10, 10, true, true);
    c.InsertHigh(1, 5);
    c.SetCapacities(3, 3);
    LowInsertExact(Raw(c.list, c.bottom, c.low, c.lowUsage, c.highUsage), Node(2, 4, Low), 3, 3);
  }
}
