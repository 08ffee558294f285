/** The fixed-point conversions of the FPGA interface, on 64-bit words. */
module FixedPoint {
  import opened Arithmetic

  const TwoTo63 := 0x8000_0000_0000_0000
  const TwoTo64 := 0x1_0000_0000_0000_0000

  /** An unsigned 64-bit word. */
  type Word64 = n: nat | n < TwoTo64

  function Pow2(n: nat): (p: int)
    ensures p > 0
  {
    if n == 0 then 1 else 2 * Pow2(n - 1)
  }

  lemma {:induction false} Pow2Monotone(m: nat, n: nat)
    requires m <= n
    ensures Pow2(m) <= Pow2(n)
    decreases n - m
  {
    if m < n { Pow2Monotone(m + 1, n); }
  }

  function And(a: nat, b: nat): nat {
    if a == 0 || b == 0 then 0 else 2 * And(a / 2, b / 2) + (if a % 2 == 1 && b % 2 == 1 then 1 else 0)
  }

  function Xor(a: nat, b: nat): nat {
    if a == 0 && b == 0 then 0 else 2 * Xor(a / 2, b / 2) + (if a % 2 != b % 2 then 1 else 0)
  }

  function Mask(w: nat): nat { Pow2(w) - 1 }

  /** The low `w` bits, and what is above them. */
  function Low(n: nat, w: nat): (r: nat)
    ensures r < Pow2(w) && r <= n
  {
    if w == 0 then 0 else n % 2 + 2 * Low(n / 2, w - 1)
  }

  function High(n: nat, w: nat): nat {
    if w == 0 then n else High(n / 2, w - 1)
  }

  lemma {:induction false} Split(n: nat, w: nat)
    ensures n == High(n, w) * Pow2(w) + Low(n, w)
  {
    if w > 0 {
      var half, h, p := n / 2, High(n / 2, w - 1), Pow2(w - 1);
      assert half == h * p + Low(half, w - 1) by { Split(half, w - 1); }
      assert High(n, w) * Pow2(w) == 2 * (h * p) by { MulDouble(h, p); }
    }
  }

  lemma MulDouble(a: int, b: int)
    ensures a * (2 * b) == 2 * (a * b)
  {
  }

  lemma LowSmall(n: nat, w: nat)
    requires n < Pow2(w)
    ensures Low(n, w) == n && High(n, w) == 0
  {
    Split(n, w);
    if High(n, w) > 0 { MulMonotone(1, High(n, w), Pow2(w)); }
  }

  lemma MaskHalf(w: nat)
    requires w > 0
    ensures Mask(w) / 2 == Mask(w - 1) && Mask(w) % 2 == 1
  {
  }

  lemma {:induction false} AndMask(n: nat, w: nat)
    ensures And(n, Mask(w)) == Low(n, w)
  {
    if w > 0 {
      MaskHalf(w);
      if n == 0 { LowSmall(0, w); } else { AndMask(n / 2, w - 1); }
    }
  }

  lemma {:induction false} XorMask(n: nat, w: nat)
    ensures Xor(n, Mask(w)) == n - Low(n, w) + Mask(w) - Low(n, w)
  {
    if w == 0 {
      XorZero(n);
    } else {
      MaskHalf(w);
      XorMask(n / 2, w - 1);
    }
  }

  lemma {:induction false} XorZero(n: nat)
    ensures Xor(n, 0) == n
  {
    if n > 0 { XorZero(n / 2); }
  }

  /** The sign bit of a word of `w` bits. */
  lemma {:induction false} AndSignBit(n: nat, w: nat)
    requires w > 0 && n < Pow2(w)
    ensures And(n, Pow2(w - 1)) != 0 <==> n >= Pow2(w - 1)
  {
    if w > 1 && n > 0 {
      AndSignBit(n / 2, w - 1);
    }
  }

  /** Reading a word as a signed number, and back. */
  function AsSigned(n: Word64): int { if n >= TwoTo63 then n - TwoTo64 else n }

  function AsWord(n: int): Word64
    requires -TwoTo63 <= n < TwoTo64
  {
    if n < 0 then n + TwoTo64 else n
  }

  function Increment(n: Word64): Word64 { if n + 1 == TwoTo64 then 0 else n + 1 }

  function Negate(n: Word64): Word64 { if n == 0 then 0 else TwoTo64 - n }

  // ----- the conversions --------------------------------------------------------------------------------------

  datatype FxpType = FxpType(signed: bool, wordLength: nat, integerWordLength: int)

  predicate TypeOk(t: FxpType) { 1 <= t.wordLength <= 63 }

  function RealPow2(n: int): (r: real)
    ensures r > 0.0
    decreases if n < 0 then -n else n
  {
    if n == 0 then 1.0 else if n > 0 then 2.0 * RealPow2(n - 1) else RealPow2(n + 1) / 2.0
  }

  /** The smallest increment of the type. */
  function Delta(t: FxpType): (r: real)
    ensures r > 0.0
  {
    RealPow2(t.integerWordLength - t.wordLength)
  }

  lemma {:induction false} Pow2Sum(m: nat, n: nat)
    ensures Pow2(m + n) == Pow2(m) * Pow2(n)
  {
    if m > 0 {
      Pow2Sum(m - 1, n);
      DoubleMul(Pow2(m - 1), Pow2(n));
    }
  }

  lemma DoubleMul(a: int, b: int)
    ensures (2 * a) * b == 2 * (a * b)
  {
  }

  lemma Pow2Of64()
    ensures Pow2(64) == TwoTo64 && Pow2(63) == TwoTo63
  {
    hide Pow2;
    Pow2Of4();
    Pow2Sum(4, 4);
    Pow2Sum(8, 8);
    Pow2Sum(16, 16);
    Pow2Sum(32, 32);
    Pow2Sum(1, 63);
  }

  lemma Pow2Of4()
    ensures Pow2(1) == 2 && Pow2(4) == 16
  {
    assert Pow2(2) == 4 && Pow2(3) == 8;
  }

  lemma RoomAbove(h: nat, p: nat, q: nat)
    requires p > 0 && h * p < q * p
    ensures h * p + p <= q * p
  {
    MulCancel(h, q, p);
    MulMonotone(h + 1, q, p);
    assert (h + 1) * p == h * p + p;
  }

  /** Flipping low bits does not leave the 64-bit range. */
  lemma Xored(n: Word64, w: nat)
    requires 1 <= w <= 63
    ensures Xor(n, Mask(w)) < TwoTo64 && Pow2(w) <= TwoTo63
  {
    hide Pow2, Low, High, Xor;
    XorMask(n, w);
    Split(n, w);
    assert Pow2(64 - w) * Pow2(w) == TwoTo64 by { Pow2Sum(64 - w, w); Pow2Of64(); }
    RoomAbove(High(n, w), Pow2(w), Pow2(64 - w));
    Pow2Monotone(w, 63);
    Pow2Of64();
  }

  /** From a code to a number. */
  function FromFxp(t: FxpType, data: Word64): real
    requires TypeOk(t)
  {
    var mask := Mask(t.wordLength);
    var d := And(data, mask);
    if t.signed && And(d, Pow2(t.wordLength - 1)) != 0 then
      var flipped := Xor(d, mask);
      Delta(t) * ((flipped + 1) * -1) as real
    else Delta(t) * d as real
  }

  /** The numbers whose quotient by the increment the casts can take. */
  predicate Castable(t: FxpType, x: real) {
    -(TwoTo63 as real) <= x / Delta(t) < TwoTo64 as real
  }

  /** From a number to a code, saturating. Integer overflow wraps around. */
  function ToFxp(t: FxpType, x: real): nat
    requires TypeOk(t) && Castable(t, x)
  {
    var mask := Mask(t.wordLength);
    var n := Trunc(x / Delta(t));
    if x < 0.0 then
      if t.signed then
        Xored(AsWord(n), t.wordLength);
        var r := Negate(Increment(Xor(AsWord(n), mask)));
        if And(r, mask) == r then r else And(TwoTo64 - Pow2(t.wordLength - 1), mask)
      else 0
    else if And(n, mask) == n then n
    else Pow2(t.wordLength - (if t.signed then 1 else 0)) - 1
  }

  // ----- what they compute ------------------------------------------------------------------------------------

  /** The number of increments a code stands for. */
  function Value(t: FxpType, code: nat): int
    requires TypeOk(t)
  {
    if t.signed && code >= Pow2(t.wordLength - 1) then code - Pow2(t.wordLength) else code
  }

  lemma MulStep(a: int, b: int, p: nat)
    requires a < b
    ensures a * p + p <= b * p
  {
    MulMonotone(a + 1, b, p);
    assert (a + 1) * p == a * p + p;
  }

  lemma LowUnique(n: nat, w: nat, h: nat, l: nat)
    requires n == h * Pow2(w) + l && l < Pow2(w)
    ensures Low(n, w) == l
  {
    hide Low, High, Pow2;
    Split(n, w);
    var p, h' := Pow2(w), High(n, w);
    if h' < h { MulStep(h', h, p); }
    if h < h' { MulStep(h, h', p); }
  }

  /** Decoding gives the increment times the two's complement value of the low bits. */
  lemma FromFxpMeans(t: FxpType, data: Word64)
    requires TypeOk(t)
    ensures FromFxp(t, data) == Delta(t) * Value(t, Low(data, t.wordLength)) as real
  {
    hide And, Xor, Low, Pow2, Delta;
    var w := t.wordLength;
    AndMask(data, w);
    var d := Low(data, w);
    AndSignBit(d, w);
    XorMask(d, w);
    LowSmall(d, w);
  }

  /** The most negative code. */
  lemma MinimumCode(w: nat)
    requires 1 <= w <= 63
    ensures Pow2(w - 1) <= TwoTo63 && And(TwoTo64 - Pow2(w - 1), Mask(w)) == Pow2(w - 1)
  {
    hide Low, And;
    Pow2Monotone(w - 1, 63);
    Pow2Of64();
    var q, p := Pow2(64 - w), Pow2(w);
    assert q * p == TwoTo64 by { Pow2Sum(64 - w, w); }
    assert (q - 1) * p == q * p - p;
    LowUnique(TwoTo64 - Pow2(w - 1), w, q - 1, Pow2(w - 1));
    AndMask(TwoTo64 - Pow2(w - 1), w);
  }

  /** Negating the number whose low bits were flipped: for a number of a type's own size, its two's complement. */
  lemma Complement(n: int, w: nat)
    requires 1 <= w <= 63 && -TwoTo63 <= n <= 0
    ensures Xor(AsWord(n), Mask(w)) < TwoTo64
    ensures var r := Negate(Increment(Xor(AsWord(n), Mask(w))));
            && (And(r, Mask(w)) == r <==> -Pow2(w) <= n <= -1)
            && (-Pow2(w) <= n <= -1 ==> r == n + Pow2(w))
  {
    hide And, Xor, Low, Pow2, High;
    var p, q := Pow2(w), Pow2(64 - w);
    Xored(AsWord(n), w);
    XorMask(AsWord(n), w);
    var r := Negate(Increment(Xor(AsWord(n), Mask(w))));
    AndMask(r, w);
    if n == 0 {
      LowSmall(0, w);
    } else {
      var h, l := High(AsWord(n), w), Low(AsWord(n), w);
      assert AsWord(n) == h * p + l by { Split(AsWord(n), w); }
      assert q * p == TwoTo64 by { Pow2Sum(64 - w, w); Pow2Of64(); }
      assert r == -n + 2 * l - p;
      ComplementParts(q, h, p, l, n);
      if r < p { LowSmall(r, w); }
    }
  }

  lemma ComplementParts(q: nat, h: nat, p: int, l: nat, n: int)
    requires n < 0 && l < p && p > 0 && q * p + n == h * p + l
    ensures -n + 2 * l - p < p <==> -p <= n
    ensures -p <= n ==> -n + 2 * l - p == n + p
  {
    MulCancelAtMost(h, q, p);
    var k := q - h;
    assert k * p == q * p - h * p;
    if k >= 2 {
      MulMonotone(2, k, p);
    }
  }

  /** Encoding, in closed form. */
  lemma ToFxpMeans(t: FxpType, x: real)
    requires TypeOk(t) && Castable(t, x)
    ensures var n, w := Trunc(x / Delta(t)), t.wordLength;
            ToFxp(t, x) ==
              if x < 0.0 then
                if !t.signed then 0 else if -Pow2(w) <= n <= -1 then n + Pow2(w) else Pow2(w - 1)
              else if n < Pow2(w) then n else Pow2(w - if t.signed then 1 else 0) - 1
  {
    hide And, Xor, Low, Pow2, Delta;
    var n, w := Trunc(x / Delta(t)), t.wordLength;
    QuotientSign(x, Delta(t));
    if x < 0.0 {
      if t.signed {
        Complement(n, w);
        MinimumCode(w);
      }
    } else {
      AndMask(n, w);
      if n < Pow2(w) { LowSmall(n, w); }
    }
  }

  lemma QuotientSign(x: real, d: real)
    requires d > 0.0
    ensures x < 0.0 <==> x / d < 0.0
  {
    assert x == (x / d) * d;
    ProductSign(x / d, d);
  }

  lemma ProductSign(y: real, d: real)
    requires d > 0.0
    ensures y * d < 0.0 <==> y < 0.0
  {
    if y < 0.0 {
      assert y * d < 0.0;
    } else {
      assert y * d >= 0.0;
    }
  }

  lemma Quotient(d: real, k: int)
    requires d > 0.0
    ensures (d * k as real) / d == k as real
  {
  }

  lemma ValueBounds(t: FxpType, code: nat)
    requires TypeOk(t) && code < Pow2(t.wordLength)
    ensures -TwoTo63 <= Value(t, code) < TwoTo63
    ensures Value(t, code) >= 0 ==> Value(t, code) == code
    ensures Value(t, code) < 0 ==>
              t.signed && Value(t, code) == code - Pow2(t.wordLength) && Value(t, code) >= -Pow2(t.wordLength - 1)
  {
    Pow2Monotone(t.wordLength, 63);
    Pow2Of64();
  }

  /** Round trip: whatever word is decoded, encoding the number gives back the bits that were read. */
  lemma FxpRoundTrip(t: FxpType, data: Word64)
    requires TypeOk(t)
    ensures Castable(t, FromFxp(t, data))
    ensures ToFxp(t, FromFxp(t, data)) == Low(data, t.wordLength)
    ensures data < Pow2(t.wordLength) ==> ToFxp(t, FromFxp(t, data)) == data
  {
    hide FromFxp, ToFxp, Low, Pow2, Delta, Value;
    var code := Low(data, t.wordLength);
    var v := Value(t, code);
    FromFxpMeans(t, data);
    Quotient(Delta(t), v);
    ValueBounds(t, code);
    assert FromFxp(t, data) / Delta(t) == v as real;
    assert Trunc(v as real) == v;
    QuotientSign(FromFxp(t, data), Delta(t));
    ToFxpMeans(t, FromFxp(t, data));
    if data < Pow2(t.wordLength) { LowSmall(data, t.wordLength); }
  }

  /** The least and the greatest number of increments of a type. */
  function Least(t: FxpType): int
    requires TypeOk(t)
  {
    if t.signed then -Pow2(t.wordLength - 1) else 0
  }

  function Greatest(t: FxpType): int
    requires TypeOk(t)
  {
    Pow2(t.wordLength - if t.signed then 1 else 0) - 1
  }

  /** What an encoding saturating at the ends of the type would yield: the truncated quotient, clamped. */
  function Saturated(t: FxpType, x: real): int
    requires TypeOk(t)
  {
    Coerce(Least(t), Greatest(t), Trunc(x / Delta(t)))
  }

  /** The numbers on which the guard of the saturating branch misleads a signed type: negative ones that truncate
      to zero, and those outside the type by less than a factor of two. */
  predicate Misencoded(t: FxpType, x: real)
    requires TypeOk(t)
  {
    var n := Trunc(x / Delta(t));
    t.signed && ((x < 0.0 && n == 0) || (-Pow2(t.wordLength) <= n < Least(t)) || (Greatest(t) < n < Pow2(t.wordLength)))
  }

  /** Encoding saturates exactly on all other numbers. */
  lemma SaturatesExactly(t: FxpType, x: real)
    requires TypeOk(t) && Castable(t, x)
    ensures ToFxp(t, x) < Pow2(t.wordLength)
    ensures Value(t, ToFxp(t, x)) == Saturated(t, x) <==> !Misencoded(t, x)
  {
    hide ToFxp, Delta, Trunc;
    ToFxpMeans(t, x);
    QuotientSign(x, Delta(t));
    assert Pow2(t.wordLength) == 2 * Pow2(t.wordLength - 1);
  }

  /** Every number strictly between the negative increment and zero, and every number that truncates to one more
      than the greatest, becomes the most negative number of the type. */
  lemma Misencodings(t: FxpType, x: real)
    requires TypeOk(t) && t.signed && Castable(t, x)
    requires var n := Trunc(x / Delta(t)); (x < 0.0 && n == 0) || n == Greatest(t) + 1
    ensures Value(t, ToFxp(t, x)) == Least(t)
  {
    hide ToFxp, Delta, Pow2;
    QuotientSign(x, Delta(t));
    ToFxpMeans(t, x);
    assert Pow2(t.wordLength) == 2 * Pow2(t.wordLength - 1) by { Pow2Sum(1, t.wordLength - 1); Pow2Of4(); }
  }

  /** In 24-bit integers, minus one half is taken for the most negative number. */
  lemma HalfBelowZero()
    ensures var t := FxpType(true, 24, 24);
            Castable(t, -0.5) && Value(t, ToFxp(t, -0.5)) == -8388608
  {
    hide ToFxp, Pow2;
    var t := FxpType(true, 24, 24);
    assert Delta(t) == 1.0;
    Misencodings(t, -0.5);
    assert Pow2(23) == 8388608 by {
      Pow2Of4();
      Pow2Sum(4, 4);
      Pow2Sum(8, 8);
      Pow2Sum(4, 3);
      Pow2Sum(1, 3);
      Pow2Sum(16, 7);
    }
  }

  // ----- the increment ----------------------------------------------------------------------------------------

  lemma {:induction false} RealPow2Is(n: nat)
    ensures RealPow2(n) == Pow2(n) as real && RealPow2(0 - n) * Pow2(n) as real == 1.0
  {
    if n > 0 {
      RealPow2Is(n - 1);
      HalfOf(RealPow2(1 - n), Pow2(n - 1));
    }
  }

  lemma HalfOf(x: real, p: int)
    requires x * p as real == 1.0
    ensures (x / 2.0) * (2 * p) as real == 1.0
  {
    assert (2 * p) as real == 2.0 * p as real;
    assert (x / 2.0) * (2.0 * p as real) == x * p as real;
  }

  /** The increment of a type: two to the integer word length less the word length, so that a number with all integer
      bits and no fraction stands for itself. */
  lemma DeltaExactly(t: FxpType)
    ensures t.integerWordLength >= t.wordLength ==>
              Delta(t) == Pow2(t.integerWordLength - t.wordLength) as real
    ensures t.integerWordLength < t.wordLength ==>
              Delta(t) * Pow2(t.wordLength - t.integerWordLength) as real == 1.0
  {
    hide RealPow2;
    var n := t.integerWordLength - t.wordLength;
    RealPow2Is(if n >= 0 then n else -n);
  }
}
