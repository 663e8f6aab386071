/** Which icons encode accepts: what a caller could check beforehand. */
module HvifAccepts {
  import opened Wrappers
  import opened Rounding
  import opened Binary32
  import opened Float24
  import opened HvifModel
  import opened HvifFormat
  import opened HvifNorm
  import opened HvifTheorems

  predicate IsByte(n: int) {
    0 <= n < 256
  }

  // -- floats

  /** The least magnitude that rounds to 2^128: half a last step below it. */
  function TooLarge(): real {
    Pow2(128) - Pow2(103)
  }

  lemma {:induction false} RatioAtLeast(m: real, x: real, step: real)
    requires step > 0.0
    ensures m / step >= x <==> m >= x * step
  {
    assert m == m / step * step;
    if m / step >= x {
      ProductIsMonotone(x, m / step, step);
    }
    if m / step < x {
      ProductIsStrict(m / step, x, step);
    }
  }

  lemma {:induction false} ProductIsMonotone(x: real, y: real, step: real)
    requires x <= y && step > 0.0
    ensures x * step <= y * step
  {
  }

  lemma {:induction false} ProductIsStrict(x: real, y: real, step: real)
    requires x < y && step > 0.0
    ensures x * step < y * step
  {
  }

  lemma {:induction false} RoundsToTop(x: real)
    requires x <= 16777216.0
    ensures RoundHalfEven(x) == 16777216 <==> x >= 16777215.5
  {
    if x < 16777215.5 {
      RoundIsMonotone(x, 16777215.5);
    }
  }

  lemma {:induction false} TooLargeIs()
    ensures Pow2(127) < TooLarge() < Pow2(128) == 16777216.0 * Pow2(104)
    ensures TooLarge() == 16777215.5 * Pow2(104)
  {
    Pow2Step(127);
    Pow2Step(126);
    Pow2Step(103);
    Steps(104);
    Pow2IsMonotone(103, 126);
  }

  /** In the last binade the rounding carries out of it from half a step below 2^128 on. */
  lemma {:induction false} LastBinade(m: real)
    requires Pow2(127) <= m < Pow2(128)
    ensures FRACTION <= InSteps(m, Pow2(104)) <= 2 * FRACTION
    ensures InSteps(m, Pow2(104)) == 2 * FRACTION <==> m >= TooLarge()
  {
    SignificandBounds(m, 127);
    TopRatio(m);
    RoundsToTop(m / Pow2(104));
  }

  lemma {:induction false} TopRatio(m: real)
    requires m < Pow2(128)
    ensures m / Pow2(104) < 16777216.0 && (m / Pow2(104) >= 16777215.5 <==> m >= TooLarge())
  {
    TooLargeIs();
    RatioBetween(m, Pow2(104), TooLarge(), Pow2(128));
  }

  lemma {:induction false} RatioBetween(m: real, step: real, limit: real, top: real)
    requires step > 0.0 && limit == 16777215.5 * step && top == 16777216.0 * step && m < top
    ensures m / step < 16777216.0 && (m / step >= 16777215.5 <==> m >= limit)
  {
    RatioAtLeast(m, 16777215.5, step);
    RatioAtLeast(m, 16777216.0, step);
  }

  lemma {:induction false} PacksBelowLastBinade(value: real)
    requires Magnitude(value) < Pow2(127)
    ensures Pack(value).Success?
  {
    var m := Magnitude(value);
    Pow2Step(127);
    ExponentOfPacked(m);
    var e := Exponent(m, TOP);
    if -127 < e {
      SignificandBounds(m, e);
      PackIsCarried(value, m, e);
      CarriedBelowTop(value < 0.0, e, InSteps(m, Pow2(e - 23)));
    }
  }

  lemma {:induction false} CarriedBelowTop(negative: bool, e: int, n: int)
    requires n <= 2 * FRACTION && e < TOP - 1
    ensures Carried(negative, e, n).Success?
  {
  }

  lemma {:induction false} PacksInLastBinade(value: real)
    requires Pow2(127) <= Magnitude(value) < Pow2(128)
    ensures Pack(value).Success? <==> Magnitude(value) < TooLarge()
  {
    var m := Magnitude(value);
    ExponentIs(m, TOP, 127);
    LastBinade(m);
  }

  /** A number has a binary32 exactly when it is below that. */
  lemma {:induction false} PacksBelow(value: real)
    ensures Pack(value).Success? <==> Magnitude(value) < TooLarge()
  {
    TooLargeIs();
    if Magnitude(value) < Pow2(127) {
      PacksBelowLastBinade(value);
    } else if Magnitude(value) < Pow2(128) {
      PacksInLastBinade(value);
    }
  }

  /** What an entry of a matrix, or of a perspective, comes back as. */
  lemma {:induction false} NormNumberOf(value: real)
    requires Magnitude(value) < TooLarge()
    ensures var y, q := Magnitude(value), NormNumber(value);
      && (q == 0.0 <==> Vanishes(value))
      && (q != 0.0 ==>
            && (q < 0.0 <==> value < 0.0)
            && HALF_UNIT * (Magnitude(q) - y) <= y
            && PART * (y - Magnitude(q)) < y)
  {
    PacksBelow(value);
    Float24OfAnyNumber(value);
  }

  /** Even below 2^32: this rounds up to it, and vanishes. */
  lemma {:induction false} SomeLargeVanish()
    ensures 4294967295.0 < Pow2(32) && NormNumber(4294967295.0) == 0.0
  {
    Steps8(0);
    Steps8(8);
    Steps8(16);
    Steps8(24);
    Pow2Step(31);
    TooLargeIs();
    Pow2IsMonotone(32, 127);
    PacksBelow(4294967295.0);
    VanishesExactly(4294967295.0);
  }

  predicate Fits(matrix: seq<real>) {
    forall i | 0 <= i < |matrix| :: Magnitude(matrix[i]) < TooLarge()
  }

  // -- colours and styles

  /** Alpha is only written when a colour of the table is not opaque. */
  predicate ColorFits(c: Rgba, alpha: bool) {
    IsByte(c.r) && IsByte(c.g) && IsByte(c.b) && (alpha ==> IsByte(c.a))
  }

  predicate StyleFits(style: Style) {
    match style
    case Solid(c) => ColorFits(c, c.a < 255)
    case Gradient(kind, matrix, stops) =>
      && |stops| <= 255 && IsByte(kind)
      && (NearIdentity(matrix, 6) || Fits(matrix))
      && forall i | 0 <= i < |stops| :: IsByte(stops[i].offset) && ColorFits(stops[i].color, AnyAlpha(stops))
  }

  // -- shapes

  predicate TransformerFits(t: Transformer) {
    match t
    case AffineTransformer(_) => false
    case Contour(width, join, miter) => IsByte(width + 128) && IsByte(join) && IsByte(miter)
    case Perspective(matrix) => Fits(matrix)
    case Stroke(width, join, cap, miter) => IsByte(width + 128) && IsByte(join) && 0 <= cap < 16 && IsByte(miter)
  }

  predicate ShapeFits(shape: Shape) {
    && |shape.paths| <= 255 && |shape.transformers| <= 255
    && IsByte(shape.style) && (forall i | 0 <= i < |shape.paths| :: IsByte(shape.paths[i]))
    && (FormOf(shape.matrix) == Full ==> Fits(shape.matrix.value))
    && (HasLod(shape.lod) ==> IsByte(shape.lod.value.least) && IsByte(shape.lod.value.most))
    && forall i | 0 <= i < |shape.transformers| :: TransformerFits(shape.transformers[i])
  }

  predicate Acceptable(icon: Icon) {
    && |icon.styles| <= 255 && |icon.paths| <= 255 && |icon.shapes| <= 255
    && (forall i | 0 <= i < |icon.styles| :: StyleFits(icon.styles[i]))
    && (forall i | 0 <= i < |icon.paths| :: |icon.paths[i].points| <= 255)
    && forall i | 0 <= i < |icon.shapes| :: ShapeFits(icon.shapes[i])
  }

  // -- proof

  lemma {:induction false} AllWritten<T>(put: T -> Written, xs: seq<T>)
    ensures PutMany(put, xs).Success? <==> forall i | 0 <= i < |xs| :: put(xs[i]).Success?
  {
    if xs != [] {
      AllWritten(put, xs[1..]);
      assert xs == [xs[0]] + xs[1..];
    }
  }

  lemma {:induction false} FloatsWritten(matrix: seq<real>)
    ensures PutMany(PutFloat24, matrix).Success? <==> Fits(matrix)
  {
    AllWritten(PutFloat24, matrix);
    forall i | 0 <= i < |matrix|
      ensures PutFloat24(matrix[i]).Success? <==> Magnitude(matrix[i]) < TooLarge()
    {
      PacksBelow(matrix[i]);
    }
  }

  lemma {:induction false} BytesWritten(bytes: seq<int>)
    ensures PutMany(PutByte, bytes).Success? <==> forall i | 0 <= i < |bytes| :: IsByte(bytes[i])
  {
    AllWritten(PutByte, bytes);
  }

  lemma {:induction false} ColorWritten(c: Rgba, alpha: bool, gray: bool)
    requires gray ==> c.Gray()
    ensures PutColor(c, alpha, gray).Success? <==> ColorFits(c, alpha)
  {
    var rest := [c.g, c.b];
    BytesWritten(rest);
    assert (forall i | 0 <= i < |rest| :: IsByte(rest[i])) <==> IsByte(rest[0]) && IsByte(rest[1]);
  }

  lemma {:induction false} StopsWritten(stops: seq<Stop>)
    ensures PutMany(PutStop(AnyAlpha(stops), AllGray(stops)), stops).Success? <==>
      forall i | 0 <= i < |stops| :: IsByte(stops[i].offset) && ColorFits(stops[i].color, AnyAlpha(stops))
  {
    var put := PutStop(AnyAlpha(stops), AllGray(stops));
    AllWritten(put, stops);
    forall i | 0 <= i < |stops|
      ensures put(stops[i]).Success? <==> IsByte(stops[i].offset) && ColorFits(stops[i].color, AnyAlpha(stops))
    {
      ColorWritten(stops[i].color, AnyAlpha(stops), AllGray(stops));
    }
  }

  lemma {:induction false} StyleWritten(style: Style)
    ensures PutStyle(style).Success? <==> StyleFits(style)
  {
    match style
    case Solid(c) => ColorWritten(c, c.a < 255, c.Gray());
    case Gradient(kind, matrix, stops) =>
      FloatsWritten(matrix);
      StopsWritten(stops);
  }

  lemma {:induction false} OrBelow(a: int, b: int, k: nat)
    requires a >= 0 && b >= 0
    ensures Or(a, b) < Whole(k) <==> a < Whole(k) && b < Whole(k)
    decreases k
  {
    if k > 0 && a > 0 && b > 0 {
      OrBelow(a / 2, b / 2, k - 1);
    }
  }

  function Whole(k: nat): (p: int)
    ensures p >= 1
  {
    if k == 0 then 1 else 2 * Whole(k - 1)
  }

  lemma {:induction false} StrokeWritten(join: int, cap: int)
    ensures IsByte(StrokeOptions(join, cap)) <==> IsByte(join) && 0 <= cap < 16
  {
    if join >= 0 && cap >= 0 {
      OrBelow(join, 16 * cap, 8);
      assert Whole(4) == 16 && Whole(8) == 256;
    }
  }

  lemma {:induction false} ThreeBytes(a: int, b: int, c: int)
    ensures PutMany(PutByte, [a, b, c]).Success? <==> IsByte(a) && IsByte(b) && IsByte(c)
  {
    var bytes := [a, b, c];
    BytesWritten(bytes);
    assert (forall i | 0 <= i < 3 :: IsByte(bytes[i])) <==> IsByte(bytes[0]) && IsByte(bytes[1]) && IsByte(bytes[2]);
  }

  lemma {:induction false} TransformerWritten(t: Transformer)
    ensures PutTransformer(t).Success? <==> TransformerFits(t)
  {
    match t
    case AffineTransformer(_) =>
    case Contour(width, join, miter) => ThreeBytes(width + 128, join, miter);
    case Perspective(matrix) => FloatsWritten(matrix);
    case Stroke(width, join, cap, miter) =>
      ThreeBytes(width + 128, StrokeOptions(join, cap), miter);
      StrokeWritten(join, cap);
  }

  lemma {:induction false} LodWritten(lod: Option<Lod>)
    ensures PutLod(lod).Success? <==> (HasLod(lod) ==> IsByte(lod.value.least) && IsByte(lod.value.most))
  {
    if HasLod(lod) {
      var bytes := [lod.value.least, lod.value.most];
      BytesWritten(bytes);
      assert (forall i | 0 <= i < 2 :: IsByte(bytes[i])) <==> IsByte(bytes[0]) && IsByte(bytes[1]);
    }
  }

  lemma {:induction false} TransformersWritten(ts: seq<Transformer>)
    requires |ts| <= 255
    ensures PutTransformers(ts).Success? <==> forall i | 0 <= i < |ts| :: TransformerFits(ts[i])
  {
    AllWritten(PutTransformer, ts);
    forall i | 0 <= i < |ts|
      ensures PutTransformer(ts[i]).Success? <==> TransformerFits(ts[i])
    {
      TransformerWritten(ts[i]);
    }
  }

  lemma {:induction false} MatrixWritten(matrix: Option<Matrix>)
    ensures PutMatrix(matrix).Success? <==> (FormOf(matrix) == Full ==> Fits(matrix.value))
  {
    if FormOf(matrix) == Full {
      FloatsWritten(matrix.value);
    }
  }

  lemma {:induction false} ShapeWritten(shape: Shape)
    ensures PutShape(shape).Success? <==> ShapeFits(shape)
  {
    if |shape.paths| <= 255 && |shape.transformers| <= 255 {
      BytesWritten(shape.paths);
      MatrixWritten(shape.matrix);
      LodWritten(shape.lod);
      TransformersWritten(shape.transformers);
    }
  }

  lemma {:induction false} StylesWritten(styles: seq<Style>)
    ensures PutMany(PutStyle, styles).Success? <==> forall i | 0 <= i < |styles| :: StyleFits(styles[i])
  {
    AllWritten(PutStyle, styles);
    forall i | 0 <= i < |styles|
      ensures PutStyle(styles[i]).Success? <==> StyleFits(styles[i])
    {
      StyleWritten(styles[i]);
    }
  }

  lemma {:induction false} ShapesWritten(shapes: seq<Shape>)
    ensures PutMany(PutShape, shapes).Success? <==> forall i | 0 <= i < |shapes| :: ShapeFits(shapes[i])
  {
    AllWritten(PutShape, shapes);
    forall i | 0 <= i < |shapes|
      ensures PutShape(shapes[i]).Success? <==> ShapeFits(shapes[i])
    {
      ShapeWritten(shapes[i]);
    }
  }

  /** encode accepts an icon exactly when its tables are short enough and its numbers fit. */
  lemma {:induction false} EncodeAccepts(icon: Icon)
    ensures Encode(icon).Success? <==> Acceptable(icon)
  {
    StylesWritten(icon.styles);
    AllWritten(PutPath, icon.paths);
    ShapesWritten(icon.shapes);
  }

  /** So for these, with styles that are there, the whole trip is normalisation. */
  lemma {:induction false} AcceptableRoundTrip(icon: Icon, trailing: Bytes)
    requires Acceptable(icon) && StylesInRange(icon.shapes, |icon.styles|)
    ensures Encode(icon).Success? && Decode(Encode(icon).value + trailing) == Success(Norm(icon))
  {
    EncodeAccepts(icon);
    RoundTrip(icon, trailing);
  }
}
