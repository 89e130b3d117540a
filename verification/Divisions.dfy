/** The few facts about division that the other modules lean on. */
module Divisions {
  lemma {:induction false} ProductBound(d: int, c: int)
    requires 0 < c
    ensures d > 0 ==> d * c >= c
    ensures d < 0 ==> d * c <= -c
    decreases if d < 0 then -d else d
  {
    if d > 1 {
      ProductBound(d - 1, c);
    } else if d < -1 {
      ProductBound(d + 1, c);
    }
  }

  /** Quotient and remainder are determined by the equation they solve. */
  lemma DivModUnique(x: int, q: int, m: int, c: int)
    requires 0 < c && 0 <= m < c && x == q * c + m
    ensures x / c == q && x % c == m
  {
    var d := x / c - q;
    assert d * c == m - x % c;
    ProductBound(d, c);
  }

  /** Numbers closer together than `c` have different remainders. */
  lemma NearModsDiffer(x: nat, d: nat, c: nat)
    requires 0 < d < c
    ensures (x + d) % c != x % c
  {
    if x % c + d < c {
      DivModUnique(x + d, x / c, x % c + d, c);
    } else {
      assert x + d == (x / c + 1) * c + (x % c + d - c);
      DivModUnique(x + d, x / c + 1, x % c + d - c, c);
    }
  }
}
