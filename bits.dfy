/** Byte values and the bitwise operations of the driver's integer arithmetic.
    Python integers are unbounded and non-negative throughout the driver, so
    they are modelled as `nat`; `x << 1` is `2 * x`, `x >> 8` is `x / 256`,
    `x & 0xFF` is `x % 256`, and `^` is the recursive `Xor` below. */
module Bits {

  /** One byte on the bus. */
  type Byte = x: int | 0 <= x < 256

  function Pow2(n: nat): (r: nat)
    ensures r >= 1
  {
    if n == 0 then 1 else 2 * Pow2(n - 1)
  }

  /** Python's `a ^ b` on non-negative integers, one bit at a time from the
      least significant end. */
  function Xor(a: nat, b: nat): nat
    decreases a + b
  {
    if a == 0 && b == 0 then 0
    else 2 * Xor(a / 2, b / 2) + (if a % 2 == b % 2 then 0 else 1)
  }

  /** `(x & 0x80) != 0`: bit 7 of `x` is set. */
  predicate Bit7(x: nat) {
    x % 256 >= 128
  }

  lemma XorUnfold(a: nat, b: nat)
    ensures Xor(a, b) == 2 * Xor(a / 2, b / 2) + (if a % 2 == b % 2 then 0 else 1)
  {
  }

  lemma {:induction false} MulAtLeast(d: nat, k: nat)
    requires k >= 1
    ensures d * k >= d
  {
    if k > 1 {
      MulAtLeast(d, k - 1);
      assert d * k == d * (k - 1) + d;
    }
  }

  lemma DivModUnique(x: int, d: int, q: int, s: int)
    requires d > 0 && 0 <= s < d && x == d * q + s
    ensures x / d == q && x % d == s
  {
    var q', s' := x / d, x % d;
    assert d * q + s == d * q' + s';
    if q < q' {
      assert d * (q' - q) == s - s';
      MulAtLeast(d, q' - q);
    } else if q > q' {
      assert d * (q - q') == s' - s;
      MulAtLeast(d, q - q');
    }
  }

  /** Halving commutes with reducing modulo an even modulus. */
  lemma HalfMod(a: nat, p: nat)
    requires p >= 1
    ensures (a % (2 * p)) / 2 == (a / 2) % p
    ensures (a % (2 * p)) % 2 == a % 2
  {
    var q, r := a / (2 * p), a % (2 * p);
    assert a == 2 * p * q + r;
    DivModUnique(a, 2, p * q + r / 2, r % 2);
    DivModUnique(a / 2, p, q, r / 2);
  }

  lemma DoubleMod(x: nat, e: nat, p: nat)
    requires p >= 1 && e < 2
    ensures (2 * x + e) % (2 * p) == 2 * (x % p) + e
  {
    var q, s := x / p, x % p;
    assert x == p * q + s;
    DivModUnique(2 * x + e, 2 * p, q, 2 * s + e);
  }

  /** The low `n` bits of `a ^ b` depend only on the low `n` bits of `a` and `b`:
      masking before or after an exclusive or gives the same value. */
  lemma {:induction false} XorLow(a: nat, b: nat, n: nat)
    ensures Xor(a, b) % Pow2(n) == Xor(a % Pow2(n), b % Pow2(n))
  {
    if n == 0 {
      assert a % 1 == 0 && b % 1 == 0;
      assert Xor(0, 0) == 0;
    } else {
      var p := Pow2(n - 1);
      var e := if a % 2 == b % 2 then 0 else 1;
      XorUnfold(a, b);
      XorLow(a / 2, b / 2, n - 1);
      DoubleMod(Xor(a / 2, b / 2), e, p);
      HalfMod(a, p);
      HalfMod(b, p);
      XorUnfold(a % (2 * p), b % (2 * p));
    }
  }

  lemma XorZero(a: nat)
    ensures Xor(a, 0) == a
  {
    if a != 0 {
      XorZero(a / 2);
    }
  }

  /** For operands below 2^(n+1), bit n of `a ^ b` is set exactly when it is
      set in one operand but not the other. */
  lemma {:induction false} XorTop(a: nat, b: nat, n: nat)
    requires a < Pow2(n + 1) && b < Pow2(n + 1)
    ensures Xor(a, b) < Pow2(n + 1)
    ensures (Xor(a, b) >= Pow2(n)) == ((a >= Pow2(n)) != (b >= Pow2(n)))
  {
    XorUnfold(a, b);
    if n == 0 {
      assert a / 2 == 0 && b / 2 == 0;
    } else {
      XorTop(a / 2, b / 2, n - 1);
    }
  }

  lemma XorBitStep(y: nat, c: nat, h: nat, d: nat, v: nat)
    requires y / 2 == h && c / 2 == d && Xor(h, d) == v
    ensures Xor(y, c) == 2 * v + (if y % 2 == c % 2 then 0 else 1)
  {
    XorUnfold(y, c);
  }
}
