/** Small facts about wrapping counters, division and powers of two. */
module Arithmetic {

  /** `x` reduced once by `n`: what `x % n` is for `x` below `2 * n`. */
  function Wrap(x: nat, n: nat): (r: nat)
    requires x < 2 * n
    ensures r < n
  {
    if x < n then x else x - n
  }

  lemma ModIsWrap(x: nat, n: nat)
    requires x < 2 * n
    ensures x % n == Wrap(x, n)
  {
    if x >= n {
      assert x == n + (x - n);
      DivModUnique(x, n, 1, x - n);
    } else {
      DivModUnique(x, n, 0, x);
    }
  }

  lemma DivModUnique(x: int, n: int, q: int, r: int)
    requires n > 0 && 0 <= r < n && x == q * n + r
    ensures x / n == q && x % n == r
  {
    var p := x / n - q;
    assert p * n == (x / n) * n - q * n;
    if p >= 1 {
      MulMonotone(1, p, n);
    } else if p <= -1 {
      MulMonotone(p, -1, n);
    }
  }

  lemma MulMonotone(a: int, b: int, t: int)
    requires a <= b && t >= 0
    ensures a * t <= b * t
  {
  }

  function Pow2(n: nat): (r: nat)
    ensures r >= 1
  {
    if n == 0 then 1 else 2 * Pow2(n - 1)
  }

  lemma {:induction false} Pow2Add(a: nat, b: nat)
    ensures Pow2(a + b) == Pow2(a) * Pow2(b)
  {
    if a > 0 {
      Pow2Add(a - 1, b);
      assert 2 * (Pow2(a - 1) * Pow2(b)) == (2 * Pow2(a - 1)) * Pow2(b);
    }
  }

  lemma Pow2Values()
    ensures Pow2(2) == 4 && Pow2(32) == 0x1_0000_0000
  {
    assert Pow2(4) == 16;
    var x := Pow2(8);
    var y := Pow2(16);
    Pow2Add(4, 4);
    assert x == 256;
    Pow2Add(8, 8);
    assert y == 0x1_0000;
    Pow2Add(16, 16);
  }

  /** A block of `t` addresses aligned to its own size lies inside a space of `p * t` addresses. */
  lemma AlignedBlock(x: nat, p: nat, t: nat)
    requires t > 0 && x < p * t
    ensures 0 <= x - x % t && x - x % t + t <= p * t
  {
    var q := x / t;
    assert x == q * t + x % t;
    if q >= p {
      MulMonotone(p, q, t);
    }
    MulMonotone(q + 1, p, t);
    assert (q + 1) * t == q * t + t;
  }
}
