/** JavaScript's `%`, which the wrap-around index arithmetic is built on. */
module Cyclic {

  /**
   * `a % n` as JavaScript computes it: the remainder takes the sign of `a`,
   * so it agrees with Dafny's `%` only for a non-negative dividend. The
   * sign rule and `a - r` being a multiple of `n` determine the value.
   */
  function Rem(a: int, n: int): (r: int)
    requires n > 0
    ensures a >= 0 ==> 0 <= r < n && r == a % n
    ensures a < 0 ==> -n < r <= 0
    ensures (a - r) % n == 0
  {
    if a >= 0 then
      DropRemainder(a, n);
      a % n
    else
      DropRemainder(-a, n);
      NegatedMultiple(-a - (-a) % n, n);
      -((-a) % n)
  }

  /** Taking the remainder off leaves a multiple of `n`. */
  lemma DropRemainder(b: int, n: int)
    requires n > 0
    ensures (b - b % n) % n == 0
  {
    assert b - b % n == (b / n) * n;
    MultipleHasNoRemainder(b / n, n);
  }

  /** The negation of a multiple of `n` is one too. */
  lemma NegatedMultiple(m: int, n: int)
    requires n > 0 && m % n == 0
    ensures (-m) % n == 0
  {
    assert m == (m / n) * n;
    assert -m == (-(m / n)) * n;
    MultipleHasNoRemainder(-(m / n), n);
  }

  /** A multiple of `n` leaves no remainder. */
  lemma MultipleHasNoRemainder(q: int, n: int)
    requires n > 0
    ensures (q * n) % n == 0
  {
    var k := q - (q * n) / n;
    assert k * n == (q * n) % n;
    assert 0 <= k * n < n;
    assert k == 0;
  }
}
