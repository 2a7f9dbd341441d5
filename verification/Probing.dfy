/**
 Double-hashing probes in a table of 2^bits slots (`FindSlot`, `Rollback`): the i-th probe of a key is
 base + i * increment modulo the table size, with an odd increment.
 */
module Probing {

  function Pow2(bits: nat): nat {
    if bits == 0 then 1 else 2 * Pow2(bits - 1)
  }

  lemma {:induction false} Pow2Positive(bits: nat)
    ensures Pow2(bits) >= 1
  {
    if bits > 0 {
      Pow2Positive(bits - 1);
    }
  }

  /** hashed_key[0] and hashed_key[1]. */
  datatype Key = Key(increment: nat, base: nat)

  /** hashed_key[0] with its lowest bit set. */
  function Odd(k: Key): nat {
    if k.increment % 2 == 1 then k.increment else k.increment + 1
  }

  function Probe(k: Key, bits: nat, i: nat): nat {
    Pow2Positive(bits);
    (k.base + i * Odd(k)) % Pow2(bits)
  }

  lemma OddProduct(x: int, y: int)
    ensures x % 2 == 1 && y % 2 == 1 ==> (x * y) % 2 == 1
  {
    if x % 2 == 1 && y % 2 == 1 {
      var a, b := x / 2, y / 2;
      assert x * y == (2 * a + 1) * (2 * b + 1) == 2 * (2 * a * b + a + b) + 1;
    }
  }

  /** An odd factor cancels modulo a power of two. */
  lemma {:induction false} OddCancels(bits: nat, d: int, q: int, odd: int)
    requires odd % 2 == 1 && d * odd == q * Pow2(bits)
    ensures exists r: int :: d == r * Pow2(bits)
  {
    if bits == 0 {
      assert d == d * Pow2(0);
    } else {
      assert q * Pow2(bits) == 2 * (q * Pow2(bits - 1));
      OddProduct(d, odd);
      var e := d / 2;
      assert d == 2 * e;
      assert d * odd == 2 * (e * odd);
      assert e * odd == q * Pow2(bits - 1);
      OddCancels(bits - 1, e, q, odd);
      var r: int :| e == r * Pow2(bits - 1);
      assert d == r * Pow2(bits);
    }
  }

  /** The first Pow2(bits) probes of a key are different slots. */
  lemma ProbesDiffer(k: Key, bits: nat, i: nat, j: nat)
    requires i < j < Pow2(bits)
    ensures Probe(k, bits, i) != Probe(k, bits, j)
  {
    Pow2Positive(bits);
    var n, odd := Pow2(bits), Odd(k);
    var x, y := k.base + i * odd, k.base + j * odd;
    if x % n == y % n {
      SameRemainder(x, y, n);
      assert y - x == (j - i) * odd;
      OddCancels(bits, j - i, y / n - x / n, odd);
      var r: int :| j - i == r * n;
      NotMultiple(j - i, r, n);
    }
  }

  lemma SameRemainder(x: nat, y: nat, n: nat)
    requires n >= 1 && x % n == y % n
    ensures y - x == (y / n - x / n) * n
  {
    assert x == x / n * n + x % n && y == y / n * n + y % n;
  }

  lemma NotMultiple(d: int, r: int, n: nat)
    requires 0 < d < n
    ensures d != r * n
  {
    if r >= 1 {
      assert r * n >= n;
    } else {
      assert r * n <= 0;
    }
  }

  /** The slots of the first m probes. */
  ghost function Probed(k: Key, bits: nat, m: nat): set<nat> {
    set i | 0 <= i < m :: Probe(k, bits, i)
  }

  lemma {:induction false} ProbedSize(k: Key, bits: nat, m: nat)
    requires m <= Pow2(bits)
    ensures |Probed(k, bits, m)| == m
  {
    if m > 0 {
      ProbedSize(k, bits, m - 1);
      var s := Probe(k, bits, m - 1);
      forall i | 0 <= i < m - 1 ensures Probe(k, bits, i) != s {
        ProbesDiffer(k, bits, i, m - 1);
      }
      assert Probed(k, bits, m) == Probed(k, bits, m - 1) + {s};
    }
  }

  ghost function Below(n: nat): set<nat> {
    if n == 0 then {} else Below(n - 1) + {n - 1}
  }

  lemma {:induction false} BelowSize(n: nat)
    ensures |Below(n)| == n && forall x: nat :: x in Below(n) <==> x < n
  {
    if n > 0 {
      BelowSize(n - 1);
    }
  }

  lemma {:induction false} Fills(a: set<nat>, b: set<nat>)
    requires a <= b && |a| == |b|
    ensures a == b
  {
    if a != {} {
      var x :| x in a;
      Fills(a - {x}, b - {x});
    } else {
      assert b == {};
    }
  }

  /** Pow2(bits) probes reach every slot. */
  lemma ProbesReach(k: Key, bits: nat, s: nat)
    requires s < Pow2(bits)
    ensures exists i: nat :: i < Pow2(bits) && Probe(k, bits, i) == s
  {
    var n := Pow2(bits);
    ProbedSize(k, bits, n);
    BelowSize(n);
    Fills(Probed(k, bits, n), Below(n));
    assert s in Probed(k, bits, n);
  }

  /** The probe at which k reaches slot s. */
  ghost function Dist(k: Key, bits: nat, s: nat): (i: nat)
    requires s < Pow2(bits)
    ensures i < Pow2(bits) && Probe(k, bits, i) == s
  {
    ProbesReach(k, bits, s);
    var i: nat :| i < Pow2(bits) && Probe(k, bits, i) == s;
    i
  }

  lemma DistIs(k: Key, bits: nat, i: nat)
    requires i < Pow2(bits)
    ensures Probe(k, bits, i) < Pow2(bits) && Dist(k, bits, Probe(k, bits, i)) == i
  {
    Pow2Positive(bits);
    var d := Dist(k, bits, Probe(k, bits, i));
    if d < i {
      ProbesDiffer(k, bits, d, i);
    } else if i < d {
      ProbesDiffer(k, bits, i, d);
    }
  }

  /** One step of the probing loops. */
  lemma NextSlot(k: Key, bits: nat, i: nat)
    ensures Pow2(bits) >= 1 && (Probe(k, bits, i) + Odd(k)) % Pow2(bits) == Probe(k, bits, i + 1)
  {
    Pow2Positive(bits);
    var x := k.base + i * Odd(k);
    assert k.base + (i + 1) * Odd(k) == x + Odd(k);
    AddRemainder(x, Odd(k), Pow2(bits));
  }

  lemma AddRemainder(x: nat, y: nat, n: nat)
    requires n >= 1
    ensures (x % n + y) % n == (x + y) % n
  {
    var q, z := x / n, x % n + y;
    assert x == q * n + x % n;
    assert z == z / n * n + z % n;
    assert x + y == (q + z / n) * n + z % n;
    RemainderIs(x + y, q + z / n, z % n, n);
  }

  lemma RemainderIs(x: nat, q: int, r: nat, n: nat)
    requires x == q * n + r && r < n
    ensures x % n == r
  {
    var q', r' := x / n, x % n;
    assert x == q' * n + r';
    assert r' - r == (q - q') * n && r - r' == (q' - q) * n;
    if r < r' {
      NotMultiple(r' - r, q - q', n);
    } else if r' < r {
      NotMultiple(r - r', q' - q, n);
    }
  }
}
