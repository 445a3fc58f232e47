/** Integer helpers shared by the decoder and the mixer: powers of two, the
    16-bit signed range, saturation and the C conversion to `int16_t`. */
module Numeric {

  const Int16Min: int := -32768
  const Int16Max: int := 32767

  predicate IsInt16(x: int) {
    Int16Min <= x <= Int16Max
  }

  predicate AllInt16(s: seq<int>) {
    forall i :: 0 <= i < |s| ==> IsInt16(s[i])
  }

  function Pow2(n: nat): (r: nat)
    ensures r >= 1
  {
    if n == 0 then 1 else 2 * Pow2(n - 1)
  }

  lemma {:induction false} Pow2Add(a: nat, b: nat)
    ensures Pow2(a + b) == Pow2(a) * Pow2(b)
  {
    if a > 0 {
      Pow2Add(a - 1, b);
      assert Pow2(a + b) == 2 * Pow2(a - 1 + b);
    }
  }

  function Dist(a: int, b: int): nat {
    if a <= b then b - a else a - b
  }

  /** `r` is the point of `[lo, hi]` nearest to `x`. */
  ghost predicate Nearest(lo: int, hi: int, x: int, r: int) {
    && lo <= r <= hi
    && forall y :: lo <= y <= hi ==> Dist(r, x) <= Dist(y, x)
  }

  /** Saturation of `x` into `[lo, hi]`. */
  function Clamp(lo: int, hi: int, x: int): (r: int)
    requires lo <= hi
    ensures Nearest(lo, hi, x, r)
    ensures lo <= x <= hi ==> r == x
  {
    if x > hi then hi else if x < lo then lo else x
  }

  /** The C conversion of an in-range-or-not integer to `int16_t` (two's complement wrap). */
  function Wrap16(x: int): (r: int)
    ensures IsInt16(r)
    ensures (r - x) % 65536 == 0
    ensures IsInt16(x) ==> r == x
  {
    (x + 32768) % 65536 - 32768
  }

  /** A block of `n` zero samples, as produced by a zero-initialised buffer. */
  function Zeros(n: nat): (r: seq<int>)
    ensures |r| == n
    ensures forall i :: 0 <= i < n ==> r[i] == 0
  {
    seq(n, _ => 0)
  }

  const Int32Min: int := -0x8000_0000
  const Int32Max: int := 0x7FFF_FFFF
  const U32Modulus: int := 0x1_0000_0000

  predicate IsInt32(x: int) {
    Int32Min <= x <= Int32Max
  }

  lemma Pow2Of16()
    ensures Pow2(16) == 0x1_0000
  {
    assert Pow2(4) == 16;
    Pow2Add(4, 4);
    Pow2Add(8, 8);
  }

  lemma Pow2Of32()
    ensures Pow2(32) == U32Modulus
  {
    Pow2Of16();
    Pow2Add(16, 16);
  }

  /** The C conversion of an `int` to `unsigned int`. */
  function ToU32(x: int): (r: int)
    ensures 0 <= r < U32Modulus
    ensures (r - x) % U32Modulus == 0
  {
    x % U32Modulus
  }

  /** The (gcc) conversion of an `unsigned int` back to `int`: two's complement wrap. */
  function Wrap32(x: int): (r: int)
    ensures IsInt32(r)
    ensures (r - x) % U32Modulus == 0
    ensures IsInt32(x) ==> r == x
  {
    (x + 0x8000_0000) % U32Modulus - 0x8000_0000
  }

  /** Bitwise `|` on non-negative integers, one binary digit at a time. */
  function BitOr(a: nat, b: nat): nat
    decreases a + b
  {
    if a == 0 then b
    else if b == 0 then a
    else 2 * BitOr(a / 2, b / 2) + (if a % 2 == 1 || b % 2 == 1 then 1 else 0)
  }

  lemma {:induction false} BitOrSelf(a: nat)
    ensures BitOr(a, a) == a
    decreases a
  {
    if a > 0 {
      BitOrSelf(a / 2);
    }
  }

  lemma Pow2Split(m: nat, c: nat, a: nat)
    requires m > 0 && a < Pow2(m)
    ensures (Pow2(m) * c + a) / 2 == Pow2(m - 1) * c + a / 2
    ensures (Pow2(m) * c + a) % 2 == a % 2
    ensures a / 2 < Pow2(m - 1)
  {
    assert Pow2(m) * c + a == 2 * (Pow2(m - 1) * c) + a;
  }

  lemma Pow2Double(m: nat, r: int)
    requires m > 0
    ensures Pow2(m) * r == 2 * (Pow2(m - 1) * r)
  {
    var p := Pow2(m - 1);
    assert Pow2(m) == 2 * p;
    assert (2 * p) * r == 2 * (p * r);
  }

  /** The defining recursion of `BitOr`, with the zero cases folded in. */
  lemma BitOrUnfold(x: nat, y: nat)
    ensures BitOr(x, y) == 2 * BitOr(x / 2, y / 2) + (if x % 2 == 1 || y % 2 == 1 then 1 else 0)
  {
    if x == 0 {
      assert BitOr(x / 2, y / 2) == y / 2;
    } else if y == 0 {
      assert BitOr(x / 2, y / 2) == x / 2;
    }
  }

  lemma BitOrHighStep(m: nat, c: nat, a: nat, d: nat)
    requires m > 0 && a < Pow2(m)
    requires BitOr(Pow2(m - 1) * c + a / 2, Pow2(m - 1) * d) == Pow2(m - 1) * BitOr(c, d) + a / 2
    ensures BitOr(Pow2(m) * c + a, Pow2(m) * d) == Pow2(m) * BitOr(c, d) + a
  {
    MulNat(Pow2(m), c);
    MulNat(Pow2(m), d);
    var x, y := Pow2(m) * c + a, Pow2(m) * d;
    Pow2Split(m, c, a);
    Pow2Split(m, d, 0);
    Pow2Double(m, BitOr(c, d));
    BitOrUnfold(x, y);
    BitOrCombine(BitOr(x, y), BitOr(x / 2, y / 2), Pow2(m - 1) * BitOr(c, d), Pow2(m) * BitOr(c, d), a);
  }

  lemma MulNat(p: nat, c: nat)
    ensures p * c >= 0
  {
  }

  lemma BitOrCombine(b: int, h: int, qr: int, pr: int, a: nat)
    requires b == 2 * h + a % 2 && h == qr + a / 2 && pr == 2 * qr
    ensures b == pr + a
  {
  }

  /** OR-ing `d` shifted left by `m` into a value leaves its low `m` bits alone
      and ORs `d` into the bits above them. */
  lemma {:induction false} BitOrHigh(m: nat, c: nat, a: nat, d: nat)
    requires a < Pow2(m)
    ensures BitOr(Pow2(m) * c + a, Pow2(m) * d) == Pow2(m) * BitOr(c, d) + a
    decreases m
  {
    if m == 0 {
      assert a == 0;
    } else {
      Pow2Split(m, c, a);
      BitOrHigh(m - 1, c, a / 2, d);
      BitOrHighStep(m, c, a, d);
    }
  }

  /** Small steps of non-linear arithmetic, stated once so that larger proofs
      can stay linear. */
  lemma MulLe(a: int, b: int, c: int)
    requires a <= c && b >= 0
    ensures a * b <= c * b
  {
  }

  lemma MulDist(a: int, b: int, c: int)
    ensures a * (b + c) == a * b + a * c
    ensures a * (b - c) == a * b - a * c
    ensures a * b == b * a
  {
  }

  lemma MulBound(a: int, b: int, m: int)
    requires -m <= a <= m && -m <= b <= m
    ensures -(m * m) <= a * b <= m * m
  {
    var x := if a < 0 then -a else a;
    var y := if b < 0 then -b else b;
    MulLe(x, y, m);
    MulLe(y, m, m);
    assert a * b == x * y || a * b == -(x * y);
  }

  lemma DivBounds(x: int, d: int)
    requires d > 0
    ensures d * (x / d) <= x < d * (x / d) + d
  {
  }

  lemma DivUnique(x: int, d: int, q: int)
    requires d > 0 && d * q <= x < d * q + d
    ensures x / d == q
  {
    DivBounds(x, d);
    var q' := x / d;
    if q' < q {
      MulLe(q' + 1, d, q);
    } else if q' > q {
      MulLe(q + 1, d, q');
    }
  }

  /** Dividing a non-negative number by a positive one does not make it larger. */
  lemma DivLe(x: int, d: int)
    requires x >= 0 && d > 0
    ensures 0 <= x / d <= x
  {
    DivBounds(x, d);
    var q := x / d;
    if q < 0 {
      MulLe(q + 1, d, 0);
    }
    if q > x {
      MulLe(1, q, d);
    }
  }

  /** A negative quotient stays within `h` of zero when the dividend stays within `d * h`. */
  lemma NegDivRange(x: int, d: int, h: int)
    requires d > 0 && h >= 0 && -(d * h) <= x < 0
    ensures -h <= x / d < 0
  {
    DivBounds(x, d);
    var q := x / d;
    if q >= 0 {
      MulLe(0, d, q);
    }
    if q < -h {
      MulLe(q + 1, d, -h);
    }
  }

  lemma ToU32Negative(x: int)
    requires -U32Modulus <= x < 0
    ensures ToU32(x) == x + U32Modulus
  {
  }

  lemma ToU32Small(x: int)
    requires 0 <= x < U32Modulus
    ensures ToU32(x) == x
  {
  }

  lemma Wrap32High(v: int)
    requires 0x8000_0000 <= v < U32Modulus
    ensures Wrap32(v) == v - U32Modulus
  {
  }
}
