/** Unsigned words seen bit by bit: `&`, `|` and the masks built from powers of two. */
module Bits {
  import opened Divisions

  function Pow2(k: nat): (p: nat)
    ensures p > 0 && (k > 0 ==> p % 2 == 0)
  {
    if k == 0 then 1 else 2 * Pow2(k - 1)
  }

  /** The bitwise conjunction of two unsigned words. */
  function And(x: nat, y: nat): (r: nat)
    ensures r <= x && r <= y
  {
    if x == 0 || y == 0 then 0
    else (if x % 2 == 1 && y % 2 == 1 then 1 else 0) + 2 * And(x / 2, y / 2)
  }

  /** The bitwise disjunction of two unsigned words. */
  function Or(x: nat, y: nat): nat
    decreases x + y
  {
    if x == 0 && y == 0 then 0
    else (if x % 2 == 1 || y % 2 == 1 then 1 else 0) + 2 * Or(x / 2, y / 2)
  }

  /** The left shift by `k` places, with no bit lost. */
  function Shl(x: nat, k: nat): nat {
    x * Pow2(k)
  }

  ghost predicate IsPow2(v: nat) {
    exists k: nat :: v == Pow2(k)
  }

  lemma ModTwice(x: nat, m: nat)
    requires 0 < m
    ensures x % (2 * m) == x % 2 + 2 * ((x / 2) % m)
    ensures x / (2 * m) == (x / 2) / m
  {
    var q, r := (x / 2) / m, (x / 2) % m;
    assert x / 2 == q * m + r;
    assert x == q * (2 * m) + (x % 2 + 2 * r);
    DivModUnique(x, q, x % 2 + 2 * r, 2 * m);
  }

  lemma AndOddMask(x: nat, h: nat)
    requires 0 < h
    ensures And(x, 2 * h - 1) == x % 2 + 2 * And(x / 2, h - 1)
  {
  }

  lemma AndEvenMask(x: nat, h: nat)
    ensures And(x, 2 * h) == 2 * And(x / 2, h)
  {
  }

  /** Masking with 2^k - 1 is reducing modulo 2^k. */
  lemma {:induction false} AndLowMask(x: nat, k: nat)
    ensures And(x, Pow2(k) - 1) == x % Pow2(k)
    decreases k
  {
    if k > 0 {
      var h := Pow2(k - 1);
      AndOddMask(x, h);
      AndLowMask(x / 2, k - 1);
      ModTwice(x, h);
    }
  }

  lemma {:induction false} Pow2Grows(k: nat, n: nat)
    requires k <= n
    ensures Pow2(k) <= Pow2(n)
    decreases n
  {
    if k < n { Pow2Grows(k, n - 1); }
  }

  lemma AndFullMask(x: nat, n: nat)
    requires x < Pow2(n)
    ensures And(x, Pow2(n) - 1) == x
  {
    AndLowMask(x, n);
    DivModUnique(x, 0, x, Pow2(n));
  }

  lemma HalveSum(x: nat, q: nat, h: nat, r: nat)
    requires x == q * (2 * h) + r && r < 2 * h
    ensures x / 2 == q * h + r / 2 && q * (2 * h) == 2 * (q * h)
  {
    assert q * (2 * h) == 2 * (q * h);
  }

  /** Masking with the complement of 2^k - 1 in an n-bit word clears the remainder modulo 2^k. */
  lemma {:induction false} AndHighMask(x: nat, k: nat, n: nat, q: nat, r: nat)
    requires k <= n && x < Pow2(n) && r < Pow2(k) && x == q * Pow2(k) + r
    ensures Pow2(k) <= Pow2(n)
    ensures And(x, Pow2(n) - Pow2(k)) == q * Pow2(k)
    decreases k
  {
    Pow2Grows(k, n);
    if k == 0 {
      AndFullMask(x, n);
    } else {
      var h, g := Pow2(k - 1), Pow2(n - 1);
      HalveSum(x, q, h, r);
      Pow2Grows(k - 1, n - 1);
      AndHighMask(x / 2, k - 1, n - 1, q, r / 2);
      AndEvenMask(x, g - h);
    }
  }

  lemma {:induction false} AndSelf(x: nat)
    ensures And(x, x) == x
  {
    if x > 0 { AndSelf(x / 2); }
  }

  /** The test v & (v - 1) == 0 accepts a non-zero v exactly when v is a power of two. */
  lemma {:induction false} PowerTest(v: nat)
    requires v > 0
    ensures And(v, v - 1) == 0 <==> IsPow2(v)
  {
    if v == 1 {
      assert Pow2(0) == 1;
    } else if v % 2 == 1 {
      AndSelf(v / 2);
      assert forall k: nat :: v != Pow2(k);
    } else {
      PowerTest(v / 2);
      if k: nat :| v / 2 == Pow2(k) {
        assert v == Pow2(k + 1);
      }
      if k: nat :| v == Pow2(k) {
        assert v / 2 == Pow2(k - 1);
      }
    }
  }

  /** A mask index agrees with the remainder for every position exactly when the capacity passes the
      power-of-two test. */
  lemma MaskIndexIsModulo(cap: nat)
    requires cap > 0
    ensures (forall x: nat :: And(x, cap - 1) == x % cap) <==> And(cap, cap - 1) == 0
  {
    if And(cap, cap - 1) == 0 {
      PowerTest(cap);
      var k: nat :| cap == Pow2(k);
      forall x: nat ensures And(x, cap - 1) == x % cap {
        AndLowMask(x, k);
      }
    } else {
      assert cap % cap == 0;
    }
  }

  /** `|` of words whose bits do not overlap is addition. */
  lemma {:induction false} OrDisjoint(x: nat, y: nat, k: nat)
    requires x < Pow2(k)
    ensures Or(x, y * Pow2(k)) == x + y * Pow2(k)
    decreases k
  {
    var high := y * Pow2(k);
    if k == 0 {
      OrZero(high);
    } else {
      assert high == 2 * (y * Pow2(k - 1));
      OrDisjoint(x / 2, y, k - 1);
    }
  }

  lemma {:induction false} OrZero(x: nat)
    ensures Or(0, x) == x
  {
    if x > 0 { OrZero(x / 2); }
  }

  lemma {:induction false} OrCommutes(x: nat, y: nat)
    ensures Or(x, y) == Or(y, x)
    decreases x + y
  {
    if x > 0 || y > 0 { OrCommutes(x / 2, y / 2); }
  }

  lemma {:induction false} PowAdd(a: nat, b: nat)
    ensures Pow2(a + b) == Pow2(a) * Pow2(b)
    decreases b
  {
    if b > 0 {
      PowAdd(a, b - 1);
    }
  }
}
