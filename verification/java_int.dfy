/** Java's 32-bit `int`: its range, and the two's-complement wrap-around
    that `int` arithmetic applies to an out-of-range result. */
module JavaInt {
  const IntMin: int := -0x8000_0000
  const IntMax: int := 0x7fff_ffff
  const Modulus: int := 0x1_0000_0000

  predicate IsInt(n: int) {
    IntMin <= n <= IntMax
  }

  /** The `int` that 32-bit arithmetic leaves in place of the exact result
      n: the one value of the range congruent to n modulo 2^32. */
  function Wrap(n: int): (w: int)
    ensures IsInt(w)
    ensures (n - w) % Modulus == 0
    ensures IsInt(n) ==> w == n
  {
    var m := n % Modulus;
    if m > IntMax then m - Modulus else m
  }

  /** `n++` on an `int`: one more, except that the largest `int` steps
      round to the smallest. */
  function Increment(n: int): (r: int)
    requires IsInt(n)
    ensures IsInt(r) && r == Wrap(n + 1)
    ensures n < IntMax ==> r == n + 1
    ensures n == IntMax ==> r == IntMin
  {
    if n == IntMax then IntMin else n + 1
  }

  /** Wrapping ignores whole multiples of 2^32. */
  lemma {:induction false} WrapShift(n: int, k: int)
    ensures Wrap(n + k * Modulus) == Wrap(n)
    decreases if k < 0 then -k else k
  {
    if k > 0 {
      WrapShift(n, k - 1);
      assert n + k * Modulus == (n + (k - 1) * Modulus) + Modulus;
    } else if k < 0 {
      WrapShift(n, k + 1);
      assert n + k * Modulus == (n + (k + 1) * Modulus) - Modulus;
    }
  }

  /** Wrapping an intermediate result changes nothing once the final
      result is wrapped: `a * x + d` computed in `int` arithmetic. */
  lemma WrapAffine(a: int, x: int, d: int)
    ensures Wrap(a * Wrap(x) + d) == Wrap(a * x + d)
  {
    var k := (x - Wrap(x)) / Modulus;
    assert x - Wrap(x) == k * Modulus;
    assert a * x + d == a * Wrap(x) + d + (a * k) * Modulus;
    WrapShift(a * Wrap(x) + d, a * k);
  }
}
