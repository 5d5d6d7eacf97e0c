/** Facts about multiplication and Euclidean division that the solver does not find alone. */
module Arith {

  /** A positive multiple of `n` is at least `n`. */
  lemma MulAtLeast(n: nat, d: int)
    requires d >= 1
    ensures n * d >= n
  {
    assert n * d == n * (d - 1) + n;
  }

  /** The only multiple of `n` strictly between `-n` and `n` is 0. */
  lemma SmallMultiple(n: nat, d: int)
    requires -(n as int) < n * d < n
    ensures d == 0
  {
    if d >= 1 {
      MulAtLeast(n, d);
    } else if d <= -1 {
      assert n * (-d) == -(n * d);
      MulAtLeast(n, -d);
    }
  }

  /** The quotient is the one `q` that leaves a remainder in `[0, n)`. */
  lemma DivUnique(x: int, n: nat, q: int, r: int)
    requires n > 0 && 0 <= r < n && x == n * q + r
    ensures x / n == q
  {
    var q0 := x / n;
    assert x == n * q0 + x % n;
    assert n * (q - q0) == n * q - n * q0;
    SmallMultiple(n, q - q0);
  }

  /** The quotient of two naturals is a natural. */
  lemma DivNat(x: nat, n: nat)
    requires n > 0
    ensures x / n >= 0
  {
    var q := x / n;
    assert x == n * q + x % n;
    if q < 0 {
      MulAtLeast(n, -q);
    }
  }
}
