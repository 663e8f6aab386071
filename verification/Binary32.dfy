/** IEEE 754 binary32 as struct.pack('<f', value) makes it from a real number: sign, biased
    exponent and 23-bit fraction, rounded half to even. Infinities and NaN have no real value
    and are not part of this model; a finite value that rounds to infinity is an overflow. */
module Binary32 {
  import opened Wrappers
  import opened Rounding

  const FRACTION: int := 0x80_0000       // 2^23
  const BIAS := 127
  const TOP := 128                       // 2^128 and above has no binary32

  datatype Bits = Bits(negative: bool, exponent: int, fraction: int) {
    ghost predicate Normal() {
      1 <= exponent <= 254 && 0 <= fraction < FRACTION
    }

    /** A finite number: normal, subnormal or zero. */
    ghost predicate Finite() {
      0 <= exponent <= 254 && 0 <= fraction < FRACTION
    }
  }

  function Pow2(k: int): (p: real)
    ensures p > 0.0
    decreases if k < 0 then -k else k
  {
    if k == 0 then 1.0 else if k > 0 then 2.0 * Pow2(k - 1) else Pow2(k + 1) / 2.0
  }

  function Magnitude(value: real): real {
    if value < 0.0 then -value else value
  }

  /** The largest e from `top` down with 2^e <= m, or -127 when m is below the normal numbers. */
  function Exponent(m: real, top: int): (e: int)
    requires top >= -127
    ensures -127 <= e <= top
    decreases top + 127
  {
    if top == -127 || Pow2(top) <= m then top else Exponent(m, top - 1)
  }

  /** The spacing of the subnormal numbers. */
  function LeastStep(): (step: real)
    ensures step > 0.0
  {
    Pow2(-149)
  }

  /** m in whole steps. */
  function InSteps(m: real, step: real): int
    requires step > 0.0
  {
    RoundHalfEven(m / step)
  }

  function Pack(value: real): Result<Bits, ()> {
    var m := Magnitude(value);
    var e := Exponent(m, TOP);
    if e == TOP then Failure(())
    else if e == -127 then
      // a subnormal number, or zero, or what rounds up to the first normal one
      var n := InSteps(m, LeastStep());
      if n >= FRACTION then Success(Bits(value < 0.0, 1, 0)) else Success(Bits(value < 0.0, 0, n))
    else
      Carried(value < 0.0, e, InSteps(m, Pow2(e - 23)))
  }

  /** A significand that was rounded up to 2^24 is one of the next exponent. */
  function Carried(negative: bool, e: int, n: int): Result<Bits, ()> {
    if n < 2 * FRACTION then Success(Bits(negative, e + BIAS, n - FRACTION))
    else if e == TOP - 1 then Failure(())
    else Success(Bits(negative, e + BIAS + 1, 0))
  }

  function Times(n: int, step: real): real {
    n as real * step
  }

  /** The size of the number a finite pattern stands for. */
  function Size(b: Bits): real {
    if b.exponent == 0 then Times(b.fraction, LeastStep())
      else Times(FRACTION + b.fraction, Pow2(b.exponent - BIAS - 23))
  }

  function Value(b: Bits): real {
    if b.negative then -Size(b) else Size(b)
  }

  // -- powers of two

  lemma {:induction false} Pow2Step(k: int)
    ensures Pow2(k + 1) == 2.0 * Pow2(k)
  {
  }

  lemma {:induction false} TimesAdds(m: int, n: int, step: real)
    ensures Times(m + n, step) == Times(m, step) + Times(n, step)
  {
  }

  /** The multiples of a step, in order. */
  lemma {:induction false} TimesIsMonotone(m: int, n: int, step: real)
    requires step > 0.0
    ensures m < n ==> Times(m, step) < Times(n, step)
    ensures m <= n ==> Times(m, step) <= Times(n, step)
  {
    TimesAdds(m, n - m, step);
    assert m < n ==> Times(n - m, step) > 0.0;
  }

  lemma {:induction false} WholeSteps(n: int, step: real)
    requires step > 0.0
    ensures InSteps(Times(n, step), step) == n
  {
    assert Times(n, step) / step == n as real;
    RoundIsUnique(n as real, n);
  }

  lemma {:induction false} NearestStep(m: real, step: real)
    requires step > 0.0
    ensures -step / 2.0 <= m - Times(InSteps(m, step), step) <= step / 2.0
  {
    var ratio := m / step;
    assert ratio * step == m;
    Nearest(ratio, InSteps(m, step), step);
  }

  lemma {:induction false} Nearest(ratio: real, n: int, step: real)
    requires step > 0.0 && -0.5 <= ratio - n as real <= 0.5
    ensures -step / 2.0 <= ratio * step - Times(n, step) <= step / 2.0
  {
    var part := ratio - n as real;
    assert ratio * step - Times(n, step) == part * step;
    ProductNotNegative(0.5 - part, step);
    ProductNotNegative(part + 0.5, step);
    assert (0.5 - part) * step == step / 2.0 - part * step;
    assert (part + 0.5) * step == part * step + step / 2.0;
  }

  lemma {:induction false} ProductNotNegative(x: real, y: real)
    requires x >= 0.0 && y >= 0.0
    ensures x * y >= 0.0
  {
  }

  lemma {:induction false} RatioIsMonotone(x: real, y: real, step: real)
    requires step > 0.0 && x <= y
    ensures x / step <= y / step
  {
    assert y / step - x / step == (y - x) / step;
  }

  /** A number between two multiples of a step is rounded between them. */
  lemma {:induction false} StepsBetween(m: real, step: real, low: int, high: int)
    requires step > 0.0 && Times(low, step) <= m <= Times(high, step)
    ensures low <= InSteps(m, step) <= high
  {
    WholeSteps(low, step);
    WholeSteps(high, step);
    RatioIsMonotone(Times(low, step), m, step);
    RatioIsMonotone(m, Times(high, step), step);
    RoundIsMonotone(Times(low, step) / step, m / step);
    RoundIsMonotone(m / step, Times(high, step) / step);
  }

  lemma {:induction false} Pow2IsMonotone(a: int, b: int)
    requires a <= b
    ensures Pow2(a) <= Pow2(b)
    decreases b - a
  {
    if a < b {
      Pow2IsMonotone(a, b - 1);
      Pow2Step(b - 1);
    }
  }

  lemma {:induction false} Steps8(e: int)
    ensures Pow2(e + 8) == 256.0 * Pow2(e)
  {
    Pow2Step(e);
    Pow2Step(e + 1);
    Pow2Step(e + 2);
    Pow2Step(e + 3);
    Pow2Step(e + 4);
    Pow2Step(e + 5);
    Pow2Step(e + 6);
    Pow2Step(e + 7);
  }

  /** 2^(e+23) is 2^23 steps of size 2^e. */
  lemma {:induction false} Steps(e: int)
    ensures Pow2(e + 23) == Times(FRACTION, Pow2(e))
    ensures Pow2(e + 24) == Times(2 * FRACTION, Pow2(e))
  {
    Steps8(e);
    Steps8(e + 8);
    Steps8(e + 16);
    Pow2Step(e + 23);
  }

  // -- packing

  lemma {:induction false} ExponentIs(m: real, top: int, e: int)
    requires -126 <= e <= top
    requires Pow2(e) <= m < Pow2(e + 1)
    ensures Exponent(m, top) == e
    decreases top + 127
  {
    if top > e {
      Pow2IsMonotone(e + 1, top);
      ExponentIs(m, top - 1, e);
    }
  }

  lemma {:induction false} ExponentBounds(m: real, top: int)
    requires -127 <= top && m < Pow2(top + 1)
    ensures var e := Exponent(m, top); (e > -127 ==> Pow2(e) <= m) && m < Pow2(e + 1)
    decreases top + 127
  {
    if top > -127 && m < Pow2(top) {
      ExponentBounds(m, top - 1);
    }
  }

  lemma {:induction false} SizeBounds(b: Bits)
    requires b.Normal()
    ensures Pow2(b.exponent - BIAS) <= Size(b) < Pow2(b.exponent - BIAS + 1)
  {
    var step := Pow2(b.exponent - BIAS - 23);
    Steps(b.exponent - BIAS - 23);
    TimesIsMonotone(FRACTION, FRACTION + b.fraction, step);
    TimesIsMonotone(FRACTION + b.fraction, 2 * FRACTION, step);
  }

  lemma {:induction false} SubnormalSize(b: Bits)
    requires b.Finite() && b.exponent == 0
    ensures 0.0 <= Size(b) < Pow2(-126)
    ensures b.fraction > 0 ==> Size(b) > 0.0
  {
    Steps(-149);
    TimesIsMonotone(0, b.fraction, LeastStep());
    TimesIsMonotone(b.fraction, FRACTION, LeastStep());
  }

  lemma {:induction false} SubnormalExponent(m: real, top: int)
    requires top >= -127 && m < Pow2(-126)
    ensures Exponent(m, top) == -127
    decreases top + 127
  {
    if top > -127 {
      Pow2IsMonotone(-126, top);
      SubnormalExponent(m, top - 1);
    }
  }

  /** Packing a number that is a binary32 already changes nothing; only there is no -0 to pack. */
  lemma {:induction false} PackIsExact(b: Bits)
    requires b.Finite()
    ensures Pack(Value(b)) == Success(if Size(b) == 0.0 then Bits(false, 0, 0) else b)
  {
    if b.exponent == 0 {
      SubnormalSize(b);
      SubnormalExponent(Size(b), TOP);
      WholeSteps(b.fraction, LeastStep());
      assert Magnitude(Value(b)) == Size(b);
    } else {
      PackIsExactNormal(b);
    }
  }

  lemma {:induction false} PackIsExactNormal(b: Bits)
    requires b.Normal()
    ensures Pack(Value(b)) == Success(b) && Size(b) > 0.0
  {
    var m, e := Size(b), b.exponent - BIAS;
    SizeBounds(b);
    ExponentIs(m, TOP, e);
    SizeInSteps(b);
    ValueSplits(Value(b), b.negative, m);
    PackIsCarried(Value(b), m, e);
  }

  lemma {:induction false} SizeInSteps(b: Bits)
    requires b.Normal()
    ensures InSteps(Size(b), Pow2(b.exponent - BIAS - 23)) == FRACTION + b.fraction
  {
    WholeSteps(FRACTION + b.fraction, Pow2(b.exponent - BIAS - 23));
  }

  lemma {:induction false} ValueSplits(value: real, negative: bool, m: real)
    requires m > 0.0 && value == if negative then -m else m
    ensures Magnitude(value) == m && (value < 0.0 <==> negative)
  {
  }

  lemma {:induction false} PackIsCarried(value: real, m: real, e: int)
    requires m == Magnitude(value) && -127 < e < TOP && Exponent(m, TOP) == e
    ensures Pack(value) == Carried(value < 0.0, e, InSteps(m, Pow2(e - 23)))
  {
  }

  /** A normal number's significand, before a carry out of it. */
  lemma {:induction false} SignificandBounds(m: real, e: int)
    requires Pow2(e) <= m < Pow2(e + 1)
    ensures FRACTION <= InSteps(m, Pow2(e - 23)) <= 2 * FRACTION
  {
    Steps(e - 23);
    StepsBetween(m, Pow2(e - 23), FRACTION, 2 * FRACTION);
  }

  lemma {:induction false} ExponentOfPacked(m: real)
    requires m >= 0.0 && Exponent(m, TOP) != TOP
    ensures var e := Exponent(m, TOP); m < Pow2(e + 1) && (e > -127 ==> Pow2(e) <= m)
  {
    assert Exponent(m, TOP) == Exponent(m, TOP - 1) && m < Pow2(TOP);
    ExponentBounds(m, TOP - 1);
  }

  lemma {:induction false} PackedFields(value: real)
    requires Pack(value).Success?
    ensures var b := Pack(value).value; 0 <= b.exponent <= 254 && 0 <= b.fraction < FRACTION
  {
    var m := Magnitude(value);
    var e := Exponent(m, TOP);
    ExponentOfPacked(m);
    if e > -127 {
      SignificandBounds(m, e);
    } else {
      NearestStep(m, LeastStep());
      SubnormalIsNotNegative(m);
    }
  }

  lemma {:induction false} SubnormalIsNotNegative(m: real)
    requires m >= 0.0
    ensures InSteps(m, LeastStep()) >= 0
  {
    WholeSteps(0, LeastStep());
    assert m / LeastStep() >= 0.0;
  }

  lemma {:induction false} NormalExponent(m: real, top: int)
    requires top >= -126 && Pow2(-126) <= m
    ensures Exponent(m, top) >= -126
    decreases top + 127
  {
    if top > -126 {
      NormalExponent(m, top - 1);
    }
  }

  /** The spacing of the binary32 numbers around a number. */
  function Spacing(m: real): (step: real)
    ensures step > 0.0
  {
    var e := Exponent(m, TOP);
    if e == -127 then LeastStep() else Pow2(e - 23)
  }

  /** Rounding to binary32 is to the nearest, for every number that has one: half of the spacing
      at most, and of two as near the even one. */
  lemma {:induction false} PackIsNearest(value: real)
    requires Pack(value).Success?
    ensures var m, b := Magnitude(value), Pack(value).value;
      && b.Finite()
      && (b.negative <==> value < 0.0)
      && -Spacing(m) / 2.0 <= m - Size(b) <= Spacing(m) / 2.0
      && (m - Size(b) == Spacing(m) / 2.0 || Size(b) - m == Spacing(m) / 2.0 ==> b.fraction % 2 == 0)
  {
    var m := Magnitude(value);
    var n := InSteps(m, Spacing(m));
    PackedFields(value);
    PackedSize(value);
    NearestStep(m, Spacing(m));
    if m - Times(n, Spacing(m)) == Spacing(m) / 2.0 || Times(n, Spacing(m)) - m == Spacing(m) / 2.0 {
      EvenStep(m, Spacing(m));
    }
  }

  /** What is packed is the number of steps it was rounded to. */
  lemma {:induction false} PackedSize(value: real)
    requires Pack(value).Success?
    ensures var m, b := Magnitude(value), Pack(value).value;
      Size(b) == Times(InSteps(m, Spacing(m)), Spacing(m)) && b.fraction % 2 == InSteps(m, Spacing(m)) % 2
  {
    var m := Magnitude(value);
    var e := Exponent(m, TOP);
    ExponentOfPacked(m);
    if e == -127 {
      SubnormalSteps(m);
      Steps(-149);
    } else {
      SignificandBounds(m, e);
      CarriedSize(value < 0.0, e, InSteps(m, Pow2(e - 23)));
    }
  }

  lemma {:induction false} SubnormalSteps(m: real)
    requires 0.0 <= m < Pow2(-126)
    ensures 0 <= InSteps(m, LeastStep()) <= FRACTION
  {
    Steps(-149);
    StepsBetween(m, LeastStep(), 0, FRACTION);
  }

  /** A number half way between two steps goes to the even one. */
  lemma {:induction false} EvenStep(m: real, step: real)
    requires step > 0.0
    requires var n := InSteps(m, step); m - Times(n, step) == step / 2.0 || Times(n, step) - m == step / 2.0
    ensures InSteps(m, step) % 2 == 0
  {
    var ratio, n := m / step, InSteps(m, step);
    assert ratio * step == m;
    HalfWay(ratio, n, step);
  }

  lemma {:induction false} HalfWay(ratio: real, n: int, step: real)
    requires step > 0.0
    requires ratio * step - Times(n, step) == step / 2.0 || Times(n, step) - ratio * step == step / 2.0
    ensures ratio - n as real == 0.5 || ratio - n as real == -0.5
  {
    var part := ratio - n as real;
    assert part * step == ratio * step - Times(n, step);
    assert part == part * step / step;
  }

  lemma {:induction false} CarriedSize(negative: bool, e: int, n: int)
    requires -126 <= e && FRACTION <= n <= 2 * FRACTION && Carried(negative, e, n).Success?
    ensures Size(Carried(negative, e, n).value) == Times(n, Pow2(e - 23))
    ensures Carried(negative, e, n).value.fraction % 2 == n % 2
  {
    if n == 2 * FRACTION {
      Steps(e - 23);
      Steps(e - 22);
    }
  }
}
