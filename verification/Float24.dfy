/** HVIF's 24-bit floats: a sign, six bits of exponent and the upper 17 bits of a binary32's
    fraction. */
module Float24 {
  import opened Wrappers
  import opened Rounding
  import opened Binary32

  const CODES: int := 0x100_0000         // 2^24
  const SIGN: int := 0x80_0000           // 2^23
  const HIDDEN: int := 0x2_0000          // 2^17, one in the kept bits
  const DROPPED: int := 0x40             // 2^6, the fraction bits a code has no room for

  const PART := 131072.0                 // 2^17

  predicate InRange(exponent: int) {
    -32 <= exponent - BIAS < 32
  }

  function Code(b: Bits): int {
    if InRange(b.exponent) then
      (if b.negative then SIGN else 0) + (b.exponent - BIAS + 32) * HIDDEN + b.fraction / DROPPED
    else 0
  }

  function EncodeFloat24(value: real): Result<int, ()> {
    var bits :- Pack(value);
    Success(Code(bits))
  }

  /** The pattern a code stands for; code 0 is the number 0.0 instead. */
  function Expand(code: int): Bits {
    Bits(code / SIGN == 1, code % SIGN / HIDDEN - 32 + BIAS, code % HIDDEN * DROPPED)
  }

  function DecodeFloat24(code: int): real {
    if code == 0 then 0.0 else Value(Expand(code))
  }

  /** What is left of a number after one trip through the file. */
  function QuantizeFloat(value: real): Result<real, ()> {
    var code :- EncodeFloat24(value);
    Success(DecodeFloat24(code))
  }

  lemma {:induction false} CodeInRange(value: real)
    ensures EncodeFloat24(value).Success? ==> 0 <= EncodeFloat24(value).value < CODES
  {
    if Pack(value).Success? {
      PackedFields(value);
      var b := Pack(value).value;
      assert 0 <= b.fraction / DROPPED < HIDDEN;
    }
  }

  /** Every code is what its own number is written as: decoding loses nothing that encoding
      has not lost already. */
  lemma {:induction false} Float24CodeIsCanonical(code: int)
    requires 0 <= code < CODES
    ensures EncodeFloat24(DecodeFloat24(code)) == Success(code)
  {
    if code == 0 {
      ZeroPacks();
    } else {
      var b := Expand(code);
      assert code == code / SIGN * SIGN + code % SIGN / HIDDEN * HIDDEN + code % HIDDEN;
      PackIsExactNormal(b);
    }
  }

  lemma {:induction false} ZeroPacks()
    ensures Pack(0.0) == Success(Bits(false, 0, 0))
  {
    ZeroExponent(TOP);
  }

  lemma {:induction false} ZeroExponent(top: int)
    requires top >= -127
    ensures Exponent(0.0, top) == -127
    decreases top + 127
  {
    if top > -127 {
      ZeroExponent(top - 1);
    }
  }

  lemma {:induction false} QuantizeFloatIdempotent(value: real)
    ensures QuantizeFloat(value).Success? ==>
      QuantizeFloat(QuantizeFloat(value).value) == QuantizeFloat(value)
  {
    if EncodeFloat24(value).Success? {
      CodeInRange(value);
      Float24CodeIsCanonical(EncodeFloat24(value).value);
    }
  }

  // -- how much is lost

  /** A code is in range exactly when the number is from 2^-32 up to 2^32. */
  lemma {:induction false} RangeOfSize(b: Bits)
    requires b.Normal()
    ensures InRange(b.exponent) <==> Pow2(-32) <= Size(b) < Pow2(32)
  {
    var e := b.exponent - BIAS;
    SizeBounds(b);
    if e >= 32 {
      Pow2IsMonotone(32, e);
    } else if e >= -32 {
      Pow2IsMonotone(e + 1, 32);
      Pow2IsMonotone(-32, e);
    } else {
      Pow2IsMonotone(e + 1, -32);
    }
  }

  /** The numbers that share a code with 0.0. */
  lemma {:induction false} SizeOfLeastCode(b: Bits)
    requires b.Normal() && b.exponent - BIAS == -32
    ensures Size(b) < Pow2(-32) + Pow2(-49) <==> b.fraction < DROPPED
  {
    var step := Pow2(-55);
    Steps(-55);
    Steps6(-55);
    TimesAdds(FRACTION, DROPPED, step);
    TimesIsMonotone(FRACTION + b.fraction, FRACTION + DROPPED, step);
    TimesIsMonotone(FRACTION + DROPPED, FRACTION + b.fraction, step);
  }

  lemma {:induction false} Steps6(e: int)
    ensures Pow2(e + 6) == Times(DROPPED, Pow2(e))
  {
    Pow2Step(e);
    Pow2Step(e + 1);
    Pow2Step(e + 2);
    Pow2Step(e + 3);
    Pow2Step(e + 4);
    Pow2Step(e + 5);
  }

  lemma {:induction false} KeptBits(b: Bits)
    requires b.Normal() && InRange(b.exponent)
    ensures Code(b) == 0 <==> !b.negative && b.exponent - BIAS == -32 && b.fraction < DROPPED
    ensures Expand(Code(b)) == b.(fraction := b.fraction / DROPPED * DROPPED)
  {
  }

  /** Clearing the low bits of a fraction makes the number smaller, by less than one part in 2^17. */
  lemma {:induction false} ClearedBits(b: Bits)
    requires b.Normal()
    ensures var kept := b.(fraction := b.fraction / DROPPED * DROPPED);
      kept.Normal() && 0.0 < Size(kept) <= Size(b) && PART * (Size(b) - Size(kept)) < Size(b)
  {
    var kept := b.fraction / DROPPED * DROPPED;
    var step := Pow2(b.exponent - BIAS - 23);
    TimesAdds(FRACTION + kept, b.fraction - kept, step);
    TimesIsMonotone(0, FRACTION + kept, step);
    TimesIsMonotone(0, b.fraction - kept, step);
    TimesIsMonotone(b.fraction - kept, DROPPED, step);
    TimesIsMonotone(FRACTION, FRACTION + b.fraction, step);
    assert PART * Times(DROPPED, step) == Times(FRACTION, step);
  }

  /** What a binary32 loses: everything outside 2^-32 .. 2^32, and inside that range less than one
      part in 2^17, always towards zero. The one exception is the positive numbers less than one
      part in 2^17 above 2^-32, whose code is the 0 that means 0.0. */
  lemma {:induction false} Float24Truncates(b: Bits)
    requires b.Finite()
    ensures var y, d := Size(b), DecodeFloat24(Code(b));
      && (d == 0.0 <==>
            !(Pow2(-32) <= y < Pow2(32)) || (!b.negative && y < Pow2(-32) + Pow2(-49)))
      && (d != 0.0 ==>
            && (d < 0.0 <==> b.negative)
            && Magnitude(d) <= y
            && PART * (y - Magnitude(d)) < y)
    ensures QuantizeFloat(Value(b)) == Success(DecodeFloat24(Code(b)))
  {
    PackIsExact(b);
    if b.exponent == 0 {
      SubnormalSize(b);
      Pow2IsMonotone(-126, -32);
    } else {
      RangeOfSize(b);
      if InRange(b.exponent) {
        KeptBits(b);
        ClearedBits(b);
        if b.exponent - BIAS == -32 {
          SizeOfLeastCode(b);
        } else {
          AboveLeastCode(b);
        }
      }
    }
  }

  lemma {:induction false} AboveLeastCode(b: Bits)
    requires b.Normal() && b.exponent - BIAS > -32
    ensures Size(b) >= Pow2(-32) + Pow2(-49)
  {
    SizeBounds(b);
    Pow2IsMonotone(-31, b.exponent - BIAS);
    Pow2IsMonotone(-49, -32);
    Pow2Step(-32);
  }

  // -- any number

  lemma {:induction false} SizeAtLeast(value: real, k: int)
    requires Pack(value).Success? && -126 <= k && Pow2(k) <= Magnitude(value)
    ensures Size(Pack(value).value) >= Pow2(k)
  {
    var m := Magnitude(value);
    var e := Exponent(m, TOP);
    ExponentOfPacked(m);
    if e < k {
      Pow2IsMonotone(e + 1, k);
    }
    PackedSize(value);
    SignificandBounds(m, e);
    Steps(e - 23);
    TimesIsMonotone(FRACTION, InSteps(m, Pow2(e - 23)), Pow2(e - 23));
    Pow2IsMonotone(k, e);
  }

  lemma {:induction false} SizeAtMost(value: real, k: int)
    requires Pack(value).Success? && -126 <= k && Magnitude(value) < Pow2(k)
    ensures Size(Pack(value).value) <= Pow2(k)
  {
    var m := Magnitude(value);
    var e := Exponent(m, TOP);
    ExponentOfPacked(m);
    PackedSize(value);
    if e == -127 {
      SubnormalSteps(m);
      Steps(-149);
      TimesIsMonotone(InSteps(m, LeastStep()), FRACTION, LeastStep());
      Pow2IsMonotone(-126, k);
    } else {
      if e >= k {
        Pow2IsMonotone(k, e);
      }
      SignificandBounds(m, e);
      Steps(e - 23);
      TimesIsMonotone(InSteps(m, Pow2(e - 23)), 2 * FRACTION, Pow2(e - 23));
      Pow2IsMonotone(e + 1, k);
    }
  }

  /** Rounding to binary32 reaches an even number of steps of a binade from half a step below it
      on, and nothing less does. */
  lemma {:induction false} Reaches(value: real, e: int, n: int)
    requires Pack(value).Success? && -126 <= e < TOP && FRACTION < n <= 2 * FRACTION && n % 2 == 0
    ensures Size(Pack(value).value) >= Times(n, Pow2(e - 23)) <==>
      Magnitude(value) >= Times(n, Pow2(e - 23)) - Pow2(e - 23) / 2.0
  {
    var m, step := Magnitude(value), Pow2(e - 23);
    Steps(e - 23);
    TimesIsMonotone(n, 2 * FRACTION, step);
    TimesAdds(FRACTION, 1, step);
    TimesIsMonotone(FRACTION + 1, n, step);
    if m >= Pow2(e + 1) {
      SizeAtLeast(value, e + 1);
    } else if m < Pow2(e) {
      SizeAtMost(value, e);
    } else {
      RoundsUpTo(value, e, n);
    }
  }

  /** Where rounding to binary32 takes a number across the bounds of the codes. */
  lemma {:induction false} AcrossBounds(value: real)
    requires Pack(value).Success?
    ensures var y, s := Magnitude(value), Size(Pack(value).value);
      && (s >= Pow2(32) <==> y >= Pow2(32) - Pow2(7))
      && (s >= Pow2(-32) <==> y >= Pow2(-32) - Pow2(-57))
      && (s >= Pow2(-32) + Pow2(-49) <==> y >= Pow2(-32) + Pow2(-49) - Pow2(-56))
  {
    AcrossTop(value);
    AcrossBottom(value);
    AcrossLeastCode(value);
  }

  lemma {:induction false} AcrossTop(value: real)
    requires Pack(value).Success?
    ensures Size(Pack(value).value) >= Pow2(32) <==> Magnitude(value) >= Pow2(32) - Pow2(7)
  {
    Steps(8);
    Pow2Step(7);
    Reaches(value, 31, 2 * FRACTION);
  }

  lemma {:induction false} AcrossBottom(value: real)
    requires Pack(value).Success?
    ensures Size(Pack(value).value) >= Pow2(-32) <==> Magnitude(value) >= Pow2(-32) - Pow2(-57)
  {
    Steps(-56);
    Pow2Step(-57);
    Reaches(value, -33, 2 * FRACTION);
  }

  lemma {:induction false} AcrossLeastCode(value: real)
    requires Pack(value).Success?
    ensures Size(Pack(value).value) >= Pow2(-32) + Pow2(-49) <==>
      Magnitude(value) >= Pow2(-32) + Pow2(-49) - Pow2(-56)
  {
    LeastCodeIs();
    Pow2Step(-56);
    Reaches(value, -32, FRACTION + DROPPED);
  }

  lemma {:induction false} LeastCodeIs()
    ensures Times(FRACTION + DROPPED, Pow2(-55)) == Pow2(-32) + Pow2(-49)
  {
    Steps(-55);
    Steps6(-55);
    TimesAdds(FRACTION, DROPPED, Pow2(-55));
  }

  /** A number outside the bounds becomes 0: too small, too large, or positive and so little above
      the least that its code is the 0 that means 0.0. */
  predicate Vanishes(value: real) {
    var y := Magnitude(value);
    || y >= Pow2(32) - Pow2(7)
    || (value > 0.0 && y < Pow2(-32) + Pow2(-49) - Pow2(-56))
    || (value <= 0.0 && y < Pow2(-32) - Pow2(-57))
  }

  lemma {:induction false} VanishesExactly(value: real)
    requires Pack(value).Success?
    ensures QuantizeFloat(value).Success? && (QuantizeFloat(value).value == 0.0 <==> Vanishes(value))
  {
    PackIsNearest(value);
    Float24Truncates(Pack(value).value);
    AcrossBounds(value);
    LeastBounds();
  }

  lemma {:induction false} LeastBounds()
    ensures Pow2(-32) - Pow2(-57) < Pow2(-32) + Pow2(-49) - Pow2(-56)
    ensures 0.0 < Pow2(-32) - Pow2(-57)
  {
    Pow2IsMonotone(-56, -49);
    Pow2Step(-57);
    Pow2IsMonotone(-56, -32);
  }

  const HALF_UNIT := 16777216.0         // 2^24

  /** The rounding up is by half a unit in the last place at most. */
  lemma {:induction false} RoundsUpLittle(value: real)
    requires Pack(value).Success? && Pow2(-126) <= Magnitude(value)
    ensures HALF_UNIT * (Size(Pack(value).value) - Magnitude(value)) <= Magnitude(value)
  {
    var m := Magnitude(value);
    var e := Exponent(m, TOP);
    PackIsNearest(value);
    NormalExponent(m, TOP);
    ExponentOfPacked(m);
    Steps(e - 23);
  }

  /** The exponent is the number's own, unless rounding has carried into the next. */
  lemma {:induction false} PackedExponent(value: real)
    requires Pack(value).Success? && Pow2(-126) <= Magnitude(value)
    ensures var b, e := Pack(value).value, Exponent(Magnitude(value), TOP);
      b.exponent - BIAS == e || (b.exponent - BIAS == e + 1 && b.fraction == 0)
  {
    var m := Magnitude(value);
    NormalExponent(m, TOP);
    ExponentOfPacked(m);
    SignificandBounds(m, Exponent(m, TOP));
  }

  lemma {:induction false} ClearedSteps(b: Bits)
    requires b.Normal()
    ensures Size(b) - Size(Cleared(b)) == Times(b.fraction % DROPPED, Pow2(b.exponent - BIAS - 23))
  {
    var kept := b.fraction / DROPPED * DROPPED;
    TimesAdds(FRACTION + kept, b.fraction % DROPPED, Pow2(b.exponent - BIAS - 23));
    assert b.fraction == kept + b.fraction % DROPPED;
  }

  /** What is lost of a number that does not vanish, its rounding to binary32 counted in. */
  lemma {:induction false} LosesLittle(value: real)
    requires Pack(value).Success? && Pow2(-126) <= Magnitude(value)
    requires InRange(Pack(value).value.exponent)
    ensures PART * (Magnitude(value) - Size(Cleared(Pack(value).value))) < Magnitude(value)
  {
    var y, b := Magnitude(value), Pack(value).value;
    var e := Exponent(y, TOP);
    PackIsNearest(value);
    PackedExponent(value);
    NormalExponent(y, TOP);
    ExponentOfPacked(y);
    ClearedSteps(b);
    Steps(e - 23);
    var kept := Size(Cleared(b));
    if b.exponent - BIAS == e {
      LosesSteps(y, Size(b), kept, Pow2(e - 23), b.fraction % DROPPED);
    } else {
      SizeBounds(b);
    }
  }

  lemma {:induction false} LosesSteps(y: real, size: real, kept: real, step: real, n: int)
    requires step > 0.0 && y >= Times(FRACTION, step) && y - size <= step / 2.0
    requires size - kept == Times(n, step) && 0 <= n < DROPPED
    ensures PART * (y - kept) < y
  {
    TimesIsMonotone(n, DROPPED - 1, step);
    assert y - kept <= 63.5 * step;
  }

  /** Whatever number is written: 0 comes back exactly for those that vanish; any other keeps its
      sign, grows by no more than half a unit of binary32, and loses less than one part in 2^17. */
  lemma {:induction false} Float24OfAnyNumber(value: real)
    ensures QuantizeFloat(value).Success? <==> Pack(value).Success?
    ensures Pack(value).Success? ==>
      var y, q := Magnitude(value), QuantizeFloat(value).value;
      && (q == 0.0 <==> Vanishes(value))
      && (q != 0.0 ==>
            && (q < 0.0 <==> value < 0.0)
            && HALF_UNIT * (Magnitude(q) - y) <= y
            && PART * (y - Magnitude(q)) < y)
  {
    if Pack(value).Success? {
      VanishesExactly(value);
      if !Vanishes(value) {
        DoesNotVanish(value);
      }
    }
  }

  lemma {:induction false} DoesNotVanish(value: real)
    requires Pack(value).Success? && !Vanishes(value)
    ensures var y, q := Magnitude(value), QuantizeFloat(value).value;
      && (q < 0.0 <==> value < 0.0)
      && HALF_UNIT * (Magnitude(q) - y) <= y
      && PART * (y - Magnitude(q)) < y
  {
    KeptOf(value);
    RoundsUpLittle(value);
    LosesLittle(value);
  }

  /** A binary32 with its low six bits cleared. */
  function Cleared(b: Bits): Bits {
    b.(fraction := b.fraction / DROPPED * DROPPED)
  }

  /** What comes back of a number that does not vanish. */
  lemma {:induction false} KeptOf(value: real)
    requires Pack(value).Success? && !Vanishes(value)
    ensures var b, q := Pack(value).value, QuantizeFloat(value).value;
      && b.Normal() && InRange(b.exponent) && Pow2(-126) <= Magnitude(value)
      && (q < 0.0 <==> value < 0.0)
      && Magnitude(q) == Size(Cleared(b)) <= Size(b)
  {
    var b := Pack(value).value;
    VanishesExactly(value);
    PackIsNearest(value);
    LeastBounds();
    Pow2IsMonotone(-126, -33);
    Pow2Step(-33);
    Pow2IsMonotone(-57, -33);
    InRangeWhenKept(b);
    KeptBits(b);
    ClearedBits(b);
  }

  /** Not always towards zero: it grows exactly when binary32 rounds it up to a number whose low six
      bits are clear. */
  lemma {:induction false} GrowsExactly(value: real)
    requires Pack(value).Success? && !Vanishes(value)
    ensures var y, b := Magnitude(value), Pack(value).value;
      Magnitude(QuantizeFloat(value).value) > y <==> Size(b) > y && b.fraction % DROPPED == 0
  {
    var y, b := Magnitude(value), Pack(value).value;
    KeptOf(value);
    PackIsNearest(value);
    ClearedSteps(b);
    PackedExponent(value);
    NormalExponent(y, TOP);
    OneStepLess(b.fraction % DROPPED, Pow2(b.exponent - BIAS - 23));
  }

  lemma {:induction false} OneStepLess(n: int, step: real)
    requires n >= 0 && step > 0.0
    ensures n == 0 ==> Times(n, step) == 0.0
    ensures n > 0 ==> Times(n, step) >= step
  {
    if n > 0 {
      TimesIsMonotone(1, n, step);
    }
  }

  /** As 1.99999999 does: it comes back as 2. */
  lemma {:induction false} SomeGrow()
    ensures Pack(1.99999999) == Success(Bits(false, 1 + BIAS, 0))
    ensures QuantizeFloat(1.99999999) == Success(2.0)
  {
    Pow2Step(0);
    ExponentIs(1.99999999, TOP, 0);
    Steps(-23);
    StepsFrom(1.99999999, 2 * FRACTION, Pow2(-23));
    SignificandBounds(1.99999999, 0);
    PackIsCarried(1.99999999, 1.99999999, 0);
    Steps(-22);
  }

  lemma {:induction false} InRangeWhenKept(b: Bits)
    requires b.Finite() && DecodeFloat24(Code(b)) != 0.0
    ensures b.Normal() && InRange(b.exponent)
  {
  }

  /** A significand is rounded up to an even one from half a step below it on. */
  lemma {:induction false} RoundsUpTo(value: real, e: int, n: int)
    requires Pack(value).Success? && -126 <= e <= TOP && Pow2(e) <= Magnitude(value) < Pow2(e + 1)
    requires n % 2 == 0
    ensures Size(Pack(value).value) >= Times(n, Pow2(e - 23)) <==>
      Magnitude(value) >= Times(n, Pow2(e - 23)) - Pow2(e - 23) / 2.0
  {
    var m, step := Magnitude(value), Pow2(e - 23);
    ExponentIs(m, TOP, e);
    PackedSize(value);
    StepsFrom(m, n, step);
    TimesIsMonotone(n, InSteps(m, step), step);
    TimesIsMonotone(InSteps(m, step), n, step);
  }

  lemma {:induction false} StepsFrom(m: real, n: int, step: real)
    requires step > 0.0 && n % 2 == 0
    ensures InSteps(m, step) >= n <==> m >= Times(n, step) - step / 2.0
  {
    var ratio, half := m / step, n as real - 0.5;
    assert ratio * step == m;
    Product(half, n, step);
    if ratio >= half {
      TimesOrder(half, ratio, step);
      RoundIsUnique(half, n);
      RoundIsMonotone(half, ratio);
    } else {
      TimesOrder(ratio, half, step);
    }
  }

  lemma {:induction false} Product(half: real, n: int, step: real)
    requires half == n as real - 0.5
    ensures half * step == Times(n, step) - step / 2.0
  {
  }

  lemma {:induction false} TimesOrder(x: real, y: real, step: real)
    requires step > 0.0 && x <= y
    ensures x * step <= y * step && (x < y ==> x * step < y * step)
  {
    ProductNotNegative(y - x, step);
    assert (y - x) * step == y * step - x * step;
    if x < y {
      PositiveProduct(y - x, step);
    }
  }

  lemma {:induction false} PositiveProduct(x: real, y: real)
    requires x > 0.0 && y > 0.0
    ensures x * y > 0.0
  {
  }
}
