/** Ceiling division, as used for chunk and batch counts. */
module Arith {

  /** `ceil(n / d)` for a natural `n` and a positive `d`. */
  function CeilDiv(n: nat, d: nat): (q: nat)
    requires d > 0
    ensures (q - 1) * d < n <= q * d || (n == 0 && q == 0)
  {
    (n + d - 1) / d
  }

  /** Multiplication by a natural number is monotonic. */
  lemma MulMonotone(a: int, b: int, d: nat)
    requires a <= b
    ensures a * d <= b * d
  {
    assert b * d - a * d == (b - a) * d;
  }

  /** `CeilDiv(n, d)` is the only `q` with `(q - 1) * d < n <= q * d` (for a positive `n`). */
  lemma CeilDivUnique(n: nat, d: nat, q: nat)
    requires d > 0
    requires n <= q * d && (q == 0 || (q - 1) * d < n)
    ensures q == CeilDiv(n, d)
  {
    var c := CeilDiv(n, d);
    if q < c {
      MulMonotone(q, c - 1, d);
    } else if q > c {
      MulMonotone(c, q - 1, d);
    }
  }
}
