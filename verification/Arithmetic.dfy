/** Powers of two, and facts about natural multiplication and division that the solver does not find by itself. */
module Arithmetic {

  const TWO24: nat := 0x100_0000
  const TWO31: int := 0x8000_0000
  const TWO32: nat := 0x1_0000_0000
  const TWO63: nat := 0x8000_0000_0000_0000
  const TWO64: nat := 0x1_0000_0000_0000_0000

  function Pow2(n: nat): (p: nat)
    ensures p >= 1
  {
    if n == 0 then 1 else 2 * Pow2(n - 1)
  }

  function Min(a: int, b: int): int {
    if a < b then a else b
  }

  lemma MulMonotone(a: nat, b: nat, n: nat)
    requires a <= b
    ensures a * n <= b * n
  {
    assert b * n == a * n + (b - a) * n;
  }

  /** Quotient and remainder are determined by `q * n + r` with `r` below `n`. */
  lemma Div(n: nat, q: nat, r: nat)
    requires n > 0 && r < n
    ensures (q * n + r) / n == q && (q * n + r) % n == r
  {
    var x := q * n + r;
    UniqueDivision(n, x / n, x % n, q, r) by {
      assert x == x / n * n + x % n;
    }
  }

  lemma UniqueDivision(n: nat, q: nat, r: nat, q': nat, r': nat)
    requires n > 0 && r < n && r' < n && q * n + r == q' * n + r'
    ensures q == q' && r == r'
  {
    if q < q' {
      assert (q + 1) * n == q * n + n;
      MulMonotone(q + 1, q', n);
    } else if q' < q {
      assert (q' + 1) * n == q' * n + n;
      MulMonotone(q' + 1, q, n);
    }
  }

  /** Multiples of the divisor do not change the remainder. */
  lemma ModAdd(n: nat, q: nat, s: nat)
    requires n > 0
    ensures (q * n + s) % n == s % n
  {
    var k, r := s / n, s % n;
    assert s == k * n + r;
    assert q * n + s == (q + k) * n + r;
    Div(n, q + k, r);
  }

  lemma Distribute(q: nat, n: nat, r: nat, b: nat)
    ensures (q * n + r) * b == (q * b) * n + r * b
  {
    assert (q * n) * b == (q * b) * n;
  }
}
