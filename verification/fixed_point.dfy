/**
 * The Q0.31 rounding primitives of the int8 kernels, as exact integer
 * arithmetic. C's `/` truncates toward zero; the shifts and masks work on the
 * 32-bit pattern of a possibly negative value.
 *
 * The functions follow the code, nudge, mask and threshold included. The
 * lemmas say what they compute: the doubling high multiplication a floor, the
 * division by a power of two and the average's division the nearest integer
 * with ties away from zero, and their composition a value within a stated
 * error of the exact product and monotone in its input.
 */
module FixedPoint {
  import opened Rows

  const INT32_MIN := -0x8000_0000
  const INT32_MAX := 0x7FFF_FFFF
  const UINT32 := 0x1_0000_0000
  const TWO_30 := 0x4000_0000
  const TWO_31 := 0x8000_0000

  predicate Int32(x: int) { INT32_MIN <= x <= INT32_MAX }

  function Pow2(e: nat): (p: nat)
    ensures p >= 1
  {
    if e == 0 then 1 else 2 * Pow2(e - 1)
  }

  lemma {:induction false} Pow2Add(a: nat, b: nat)
    ensures Pow2(a + b) == Pow2(a) * Pow2(b)
  {
    if a > 0 {
      Pow2Add(a - 1, b);
      MulAssoc(2, Pow2(a - 1), Pow2(b));
    }
  }

  lemma {:induction false} Pow2Grows(a: nat, b: nat)
    requires a <= b
    ensures Pow2(a) <= Pow2(b)
  {
    if a < b { Pow2Grows(a, b - 1); }
  }

  /** C's integer division. */
  function TruncDiv(n: int, d: int): int
    requires d >= 1
  {
    if n >= 0 then n / d else -(-n / d)
  }

  /** The 32 bits of a two's-complement value, as an unsigned one. */
  function Bits(x: int): nat { x % UINT32 }

  /** The 32-bit complement. */
  function Not(u: nat): nat
    requires u < UINT32
  {
    UINT32 - 1 - u
  }

  function SatRoundDblHighMul(a: int, b: int): int {
    if a == INT32_MIN && b == INT32_MIN then INT32_MAX
    else
      var ab := a * b;
      TruncDiv(ab + (if ab >= 0 then TWO_30 else 1 - TWO_30), TWO_31)
  }

  /** It is the nearest multiple of 2^-31 of the product, ties upward, except for the one pair that saturates. */
  lemma HighMulExact(a: int, b: int)
    requires Int32(a) && Int32(b)
    ensures Int32(SatRoundDblHighMul(a, b))
    ensures SatRoundDblHighMul(a, b) == (a * b + TWO_30) / TWO_31 <==> !(a == INT32_MIN && b == INT32_MIN)
  {
    var ab := a * b;
    ProductRange(a, b);
    if ab < 0 {
      var n := ab + 1 - TWO_30;
      assert -n / TWO_31 == -((ab + TWO_30) / TWO_31) by { CeilingOfNegative(ab + TWO_30, TWO_31); }
    }
  }

  lemma ProductRange(a: int, b: int)
    requires Int32(a) && Int32(b)
    ensures -TWO_31 * INT32_MAX <= a * b <= TWO_31 * TWO_31
    ensures a * b == TWO_31 * TWO_31 <==> a == INT32_MIN && b == INT32_MIN
    ensures !(a == INT32_MIN && b == INT32_MIN) ==> a * b <= TWO_31 * INT32_MAX
  {
    if a >= 0 { MulOrder(INT32_MIN, b, a); MulOrder(b, INT32_MAX, a); MulOrder(0, a, TWO_31); MulOrder(a, INT32_MAX, TWO_31); }
    else { MulOrder(INT32_MIN, b, -a); MulOrder(b, INT32_MAX, -a); MulOrder(-a, TWO_31, TWO_31); MulOrder(-a, TWO_31, INT32_MAX);
           if a > INT32_MIN { MulOrder(-a, INT32_MAX, TWO_31); } else if b > INT32_MIN { assert a * b == TWO_31 * -b; MulOrder(-b, INT32_MAX, TWO_31); } }
  }

  /** Rounding a quotient up is rounding its negation down. */
  lemma CeilingOfNegative(m: int, d: int)
    requires d >= 1
    ensures (d - 1 - m) / d == -(m / d)
  {
    var q := m / d;
    assert q * d <= m < q * d + d;
    var e := (d - 1 - m) / d;
    assert e * d <= d - 1 - m < e * d + d;
    MulNegate(q, d);
    if e < -q { MulOrder(e + 1, -q, d); MulSub(e, -1, d); }
    if e > -q { MulOrder(-q + 1, e, d); MulSub(-q, -1, d); }
  }

  function RoundDivByPot(x: int, exponent: int): int {
    if exponent <= 0 then x
    else if exponent > 31 then (if exponent == 32 && x == INT32_MIN then -1 else 0)
    else
      var d := Pow2(exponent);
      var mask := d - 1;
      // `bits & mask` keeps the low bits of the pattern, `>> exponent` drops them.
      var remainder := Bits(x) % d;
      var threshold := mask / 2 + (if x < 0 then 1 else 0);
      var quotient := if x >= 0 then Bits(x) / d else -1 - Not(Bits(x)) / d;
      quotient + (if remainder > threshold then 1 else 0)
  }

  /** The integer nearest to n / d, a tie going away from zero. */
  function Nearest(n: int, d: int): int
    requires d >= 1
  {
    if n >= 0 then (2 * n + d) / (2 * d) else -((-2 * n + d) / (2 * d))
  }

  /** Nearest is what its name says: it is the one q within half of n / d, the tie on the far side of zero. */
  lemma NearestMeans(n: int, d: int, q: int)
    requires d >= 1
    ensures q == Nearest(n, d) <==>
      if n >= 0 then -d <= 2 * (n - q * d) < d else -d < 2 * (n - q * d) <= d
  {
    MulNegate(q, d);
    if n >= 0 { HalfUp(n, d, q); } else { HalfUp(-n, d, -q); }
  }

  /** Adding half and rounding down. */
  lemma HalfUp(m: nat, d: int, k: int)
    requires d >= 1
    ensures k == (2 * m + d) / (2 * d) <==> -d <= 2 * (m - k * d) < d
  {
    var r := (2 * m + d) / (2 * d);
    assert r * (2 * d) <= 2 * m + d < r * (2 * d) + 2 * d;
    MulAssoc(r, 2, d);
    assert r * (2 * d) == 2 * (r * d);
    if k < r { MulOrder(k + 1, r, d); MulSub(k, -1, d); }
    if k > r { MulOrder(r + 1, k, d); MulSub(r, -1, d); }
  }

  /** Dividing by a power of two rounds to the nearest, ties away from zero, for every exponent. */
  lemma DivByPotExact(x: int, exponent: nat)
    requires Int32(x)
    ensures RoundDivByPot(x, exponent) == Nearest(x, Pow2(exponent))
    ensures Int32(RoundDivByPot(x, exponent))
  {
    if exponent == 0 {
      assert Pow2(0) == 1;
    } else if exponent > 31 {
      Pow32();
      if exponent == 32 { } else { Pow2Grows(33, exponent); }
      LargeDivisor(x, Pow2(exponent));
    } else {
      Pow2Grows(exponent, 31);
      Pow32();
      PotStep(x, Pow2(exponent), Pow2(exponent - 1), Pow2(32 - exponent), exponent);
    }
  }

  lemma Pow32()
    ensures Pow2(31) == TWO_31 && Pow2(32) == UINT32 && Pow2(33) == 2 * UINT32
  {
    assert Pow2(8) == 256;
    Pow2Add(8, 8);
    Pow2Add(16, 15);
    assert Pow2(15) == 32768 by { Pow2Add(8, 7); assert Pow2(7) == 128; }
    assert Pow2(16) == 65536;
    assert Pow2(31) == Pow2(16) * Pow2(15);
  }

  lemma LargeDivisor(x: int, d: int)
    requires Int32(x) && (d == UINT32 || d >= 2 * UINT32)
    ensures Nearest(x, d) == if d == UINT32 && x == INT32_MIN then -1 else 0
  {
    NearestMeans(x, d, 0);
    if d == UINT32 && x == INT32_MIN { NearestMeans(x, d, -1); }
  }

  lemma PotStep(x: int, d: nat, half: nat, rest: nat, exponent: nat)
    requires Int32(x) && 1 <= exponent <= 31 && d == Pow2(exponent) == 2 * half && half >= 1 && d <= TWO_31
    requires rest == Pow2(32 - exponent)
    ensures RoundDivByPot(x, exponent) == Nearest(x, d)
    ensures Int32(RoundDivByPot(x, exponent))
  {
    Pow2Add(exponent, 32 - exponent);
    Pow32();
    BitsOfNegative(x, d, rest);
    var up := if x % d > half - 1 + (if x < 0 then 1 else 0) then 1 else 0;
    FloorNearest(x, d, half, up);
    QuotientBound(x, d);
  }

  /** The floor, and one more past half, or past half and a tie when x is negative, is the nearest. */
  lemma FloorNearest(x: int, d: nat, half: nat, up: int)
    requires half >= 1 && d == 2 * half && up == if x % d > half - 1 + (if x < 0 then 1 else 0) then 1 else 0
    ensures x / d + up == Nearest(x, d)
  {
    var q := x / d;
    assert x == q * d + x % d;
    MulSub(q, -up, d);
    NearestMeans(x, d, q + up);
  }

  lemma QuotientBound(x: int, d: nat)
    requires Int32(x) && d >= 2
    ensures INT32_MIN <= x / d < INT32_MAX
  {
    var q := x / d;
    assert q * d <= x < q * d + d;
    MulSub(q, -1, d);
    AtLeastDoubles(q, d);
    AtLeastDoubles(q + 1, d);
  }

  lemma AtLeastDoubles(q: int, d: nat)
    requires d >= 2
    ensures q >= 0 ==> q * d >= 2 * q
    ensures q <= 0 ==> q * d <= 2 * q
  {
    MulNegate(q, d);
    if q >= 0 { MulOrder(2, d, q); } else { MulOrder(2, d, -q); }
  }

  /** Low bits and high bits of the pattern of x are its remainder and its floor quotient. */
  lemma BitsOfNegative(x: int, d: nat, rest: nat)
    requires Int32(x) && d >= 1 && d * rest == UINT32
    ensures Bits(x) % d == x % d
    ensures x >= 0 ==> Bits(x) / d == x / d
    ensures x < 0 ==> -1 - Not(Bits(x)) / d == x / d
  {
    var q := x / d;
    assert x == q * d + x % d;
    if x < 0 {
      assert Bits(x) == x + UINT32;
      assert x + UINT32 == (q + rest) * d + x % d by { MulSub(q, 0 - rest, d); MulNegate(rest, d); }
      Unique(x + UINT32, q + rest, x % d, d);
      assert Not(Bits(x)) == -1 - x;
      assert -1 - x == (-1 - q) * d + (d - 1 - x % d) by { MulSub(-1, q, d); }
      Unique(-1 - x, -1 - q, d - 1 - x % d, d);
    }
  }

  lemma Unique(n: int, q: int, r: int, d: nat)
    requires d >= 1 && n == q * d + r && 0 <= r < d
    ensures n / d == q && n % d == r
  {
    var e := n / d;
    assert n == e * d + n % d;
    MulSub(e, -1, d);
    MulSub(q, -1, d);
    if e < q { MulOrder(e + 1, q, d); }
    if e > q { MulOrder(q + 1, e, d); }
  }

  function MultiplyByQuantizedMultiplier(x: int, multiplier: int, shift: int): int {
    var left := if shift > 0 then shift else 0;
    var right := if shift > 0 then 0 else -shift;
    RoundDivByPot(SatRoundDblHighMul(x * Pow2(left), multiplier), right)
  }

  function Left(shift: int): nat { if shift > 0 then shift else 0 }

  function Right(shift: int): nat { if shift > 0 then 0 else -shift }

  /** The left shift does not overflow. */
  predicate InRange(x: int, multiplier: int, shift: int) {
    Int32(x) && Int32(x * Pow2(Left(shift))) && Int32(multiplier)
  }

  function Abs(x: int): nat { if x < 0 then -x else x }

  /**
   * The result is within 1/2 + 2^-(right+1) of x * multiplier * 2^(shift-31):
   * scaled by 2^(right+31), within 2^(right+30) + 2^30 of the exact product,
   * the product that saturates included.
   */
  lemma RequantizeError(x: int, multiplier: int, shift: int)
    requires InRange(x, multiplier, shift)
    ensures var q := MultiplyByQuantizedMultiplier(x, multiplier, shift);
      var r := Pow2(Right(shift));
      Int32(q) && Abs(q * (r * TWO_31) - x * Pow2(Left(shift)) * multiplier) <= r * TWO_30 + TWO_30
  {
    var y := x * Pow2(Left(shift));
    var s := SatRoundDblHighMul(y, multiplier);
    var r := Pow2(Right(shift));
    HighMulExact(y, multiplier);
    DivByPotExact(s, Right(shift));
    var q := RoundDivByPot(s, Right(shift));
    if y == INT32_MIN && multiplier == INT32_MIN {
      SaturatedError(Right(shift), q);
      assert y * multiplier == TWO_31 * TWO_31;
      return;
    }
    NearestMeans(s, r, q);
    assert Abs(2 * (s - q * r)) <= r;
    assert s * TWO_31 <= y * multiplier + TWO_30 < s * TWO_31 + TWO_31;
    assert q * (r * TWO_31) == (q * r) * TWO_31 by { MulAssoc(q, r, TWO_31); }
  }

  /** INT32_MAX for 2^31: the division makes up for the missing one, or it is the whole error. */
  lemma SaturatedError(right: nat, q: int)
    requires q == Nearest(INT32_MAX, Pow2(right))
    ensures Abs(q * (Pow2(right) * TWO_31) - TWO_31 * TWO_31) <= Pow2(right) * TWO_30 + TWO_30
  {
    var r := Pow2(right);
    Pow32();
    if right == 0 {
      NearestMeans(INT32_MAX, 1, q);
    } else if right <= 31 {
      var k := Pow2(31 - right);
      Pow2Add(31 - right, right);
      NearestMeans(INT32_MAX, r, k);
      MulAssoc(k, r, TWO_31);
    } else {
      Pow2Grows(32, right);
      NearestMeans(INT32_MAX, r, 0);
    }
  }

  /** A larger input gives no smaller result under a multiplier that is not negative. */
  lemma RequantizeMonotone(x: int, y: int, multiplier: int, shift: int)
    requires x <= y && 0 <= multiplier && InRange(x, multiplier, shift) && InRange(y, multiplier, shift)
    ensures MultiplyByQuantizedMultiplier(x, multiplier, shift) <= MultiplyByQuantizedMultiplier(y, multiplier, shift)
  {
    var l := Pow2(Left(shift));
    MulOrder(x, y, l);
    MulOrder(x * l, y * l, multiplier);
    HighMulExact(x * l, multiplier);
    HighMulExact(y * l, multiplier);
    var s, t := SatRoundDblHighMul(x * l, multiplier), SatRoundDblHighMul(y * l, multiplier);
    assert s <= t;
    DivByPotExact(s, Right(shift));
    DivByPotExact(t, Right(shift));
    NearestMonotone(s, t, Pow2(Right(shift)));
  }

  lemma NearestMonotone(m: int, n: int, d: int)
    requires d >= 1 && m <= n
    ensures Nearest(m, d) <= Nearest(n, d)
  {
    var p, q := Nearest(m, d), Nearest(n, d);
    NearestMeans(m, d, p);
    NearestMeans(n, d, q);
    if p > q { MulOrder(q + 1, p, d); MulSub(q, -1, d); }
  }

  /** The average pool's rounding. */
  function RoundDivideAwayFromZero(value: int, divisor: int): int
    requires divisor >= 1
  {
    TruncDiv(if value > 0 then value + divisor / 2 else value - divisor / 2, divisor)
  }

  /** It is the nearest too, ties away from zero. */
  lemma AverageExact(value: int, divisor: int)
    requires divisor >= 1
    ensures RoundDivideAwayFromZero(value, divisor) == Nearest(value, divisor)
  {
    var m := if value > 0 then value else -value;
    var half := divisor / 2;
    var q := (m + half) / divisor;
    FloorIs(m + half, divisor);
    MulNegate(q, divisor);
    NearestMeans(value, divisor, if value > 0 then q else -q);
    AwayFromZero(value, divisor, q);
  }

  lemma AwayFromZero(value: int, divisor: int, q: int)
    requires divisor >= 1 && q == ((if value > 0 then value else -value) + divisor / 2) / divisor
    ensures RoundDivideAwayFromZero(value, divisor) == if value > 0 then q else -q
  {
    if value <= 0 { assert value - divisor / 2 == -(-value + divisor / 2); }
  }
}
