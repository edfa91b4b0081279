/** Remainders and powers of two, for the circular positions of the hash tables and the block index. */
module Modular {
  lemma DivisionUnique(c: nat, q: int, r: nat, p: int, w: nat)
    requires r < c && w < c && c * q + r == c * p + w
    ensures r == w
  {
    assert c * (q - p) == c * q - c * p == w - r;
    if q > p {
      AtLeastOnce(c, q - p);
    } else if p > q {
      assert c * (p - q) == -(c * (q - p));
      AtLeastOnce(c, p - q);
    }
  }

  lemma AtLeastOnce(c: nat, k: int)
    requires k > 0
    ensures c * k >= c
  {
  }

  function Pow2(n: nat): (r: nat)
    ensures r > 0
  {
    if n == 0 then 1 else 2 * Pow2(n - 1)
  }

  lemma {:induction false} Pow2Add(a: nat, b: nat)
    ensures Pow2(a + b) == Pow2(a) * Pow2(b)
  {
    if a > 0 {
      Pow2Add(a - 1, b);
    }
  }
}
