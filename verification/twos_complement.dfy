/** Signed fixed-width integers as the integer evaluators see them: a
    two's-complement range [Min(bits), Max(bits)] and Rust's truncating
    division and remainder. `bits` = 8 gives `i8`, 32 gives `i32`. */
module TwosComplement {

  /** Width of a signed integer type in bits. */
  type Bits = b: nat | 2 <= b witness 8

  function Pow2(n: nat): (r: nat)
    ensures r >= 1
    ensures n >= 1 ==> r >= 2
  {
    if n == 0 then 1 else 2 * Pow2(n - 1)
  }

  /** `T::min_value()`. */
  function Min(bits: Bits): int
  {
    -(Pow2(bits - 1) as int)
  }

  /** `T::max_value()`. */
  function Max(bits: Bits): int
  {
    Pow2(bits - 1) - 1
  }

  predicate InRange(bits: Bits, x: int)
  {
    Min(bits) <= x <= Max(bits)
  }

  predicate AllInRange(bits: Bits, xs: seq<int>)
  {
    forall i :: 0 <= i < |xs| ==> InRange(bits, xs[i])
  }

  function Abs(x: int): nat
  {
    if x < 0 then -x else x
  }

  /** Euclidean division of naturals, the building block of `Quot`. */
  lemma NatDivision(n: nat, d: nat)
    requires d > 0
    ensures n == d * (n / d) + n % d && 0 <= n % d < d
    ensures 0 <= n / d <= n
    ensures d >= 2 ==> 2 * (n / d) <= n
  {
    var k := n / d;
    assert d * k <= n;
    assert k <= d * k by { MulAtLeast(k, d, 1); }
    if d >= 2 {
      assert 2 * k <= d * k by { MulAtLeast(k, d, 2); }
    }
  }

  lemma MulAtLeast(k: nat, d: nat, c: nat)
    requires d >= c
    ensures c * k <= d * k
  {
  }

  /** Dividing magnitudes and restoring the sign leaves the remainder of
      the magnitudes, with the dividend's sign. */
  lemma SignedRemainder(a: int, b: int, k: int, m: int)
    requires b != 0 && 0 <= k && 0 <= m && Abs(a) == Abs(b) * k + m
    ensures a - b * (if (a >= 0) == (b > 0) then k else -k) == (if a >= 0 then m else -m)
  {
    if a >= 0 && b > 0 {
    } else if a >= 0 {
      assert b * -k == Abs(b) * k;
    } else if b > 0 {
      assert b * -k == -(Abs(b) * k);
    } else {
      assert b * k == -(Abs(b) * k);
    }
  }

  /** `a / b` on a Rust signed integer: the quotient rounded toward zero
      (Dafny's own `/` is Euclidean). */
  function Quot(a: int, b: int): (q: int)
    requires b != 0
    ensures Abs(q) <= Abs(a)
    ensures Abs(b) >= 2 ==> 2 * Abs(q) <= Abs(a)
    ensures Abs(a - b * q) < Abs(b)
    ensures a - b * q == 0 || (a - b * q < 0 <==> a < 0)
  {
    NatDivision(Abs(a), Abs(b));
    SignedRemainder(a, b, Abs(a) / Abs(b), Abs(a) % Abs(b));
    if (a >= 0) == (b > 0) then Abs(a) / Abs(b) else -(Abs(a) / Abs(b))
  }

  /** `a % b` on a Rust signed integer: the remainder that goes with
      `Quot`, carrying the sign of the dividend. */
  function Rem(a: int, b: int): (r: int)
    requires b != 0
    ensures a == b * Quot(a, b) + r
    ensures Abs(r) < Abs(b)
    ensures r == 0 || (r < 0 <==> a < 0)
  {
    a - b * Quot(a, b)
  }

  /** `a` raised to the power `e`, exactly. */
  function Power(a: int, e: nat): int
  {
    if e == 0 then 1 else a * Power(a, e - 1)
  }

  /** `checked_div` fails exactly for a zero divisor and for `MIN / -1`;
      every other quotient of two values of the type is again one. */
  lemma QuotInRange(bits: Bits, a: int, b: int)
    requires InRange(bits, a) && InRange(bits, b)
    requires b != 0 && !(a == Min(bits) && b == -1)
    ensures InRange(bits, Quot(a, b))
  {
    var q := Quot(a, b);
    if b == -1 {
      assert q == -a;
    } else if b == 1 {
      assert q == a;
    }
  }

  /** `MIN % -1` is the one remainder whose quotient overflows. */
  lemma RemInRange(bits: Bits, a: int, b: int)
    requires InRange(bits, a) && InRange(bits, b) && b != 0
    ensures InRange(bits, Rem(a, b))
  {
  }

  /** Zero and one are values of every type of at least two bits. */
  lemma ZeroOneInRange(bits: Bits)
    ensures InRange(bits, 0) && InRange(bits, 1)
  {
  }

  /** Keeping a prefix of in-range values and appending in-range values
      gives in-range values. */
  lemma AllInRangeReplace(bits: Bits, xs: seq<int>, k: nat, ys: seq<int>)
    requires k <= |xs|
    requires AllInRange(bits, xs) && AllInRange(bits, ys)
    ensures AllInRange(bits, xs[..|xs| - k] + ys)
  {
  }

  /** The bounds of `i8` and `i32`. */
  lemma NamedWidths()
    ensures Min(8) == -0x80 && Max(8) == 0x7F
    ensures Min(32) == -0x8000_0000 && Max(32) == 0x7FFF_FFFF
  {
    assert Pow2(7) == 0x80;
    assert Pow2(15) == 0x8000;
    assert Pow2(23) == 0x80_0000;
    assert Pow2(31) == 0x8000_0000;
  }
}
