/** Shapes and their transformers: what decode reads of what encode wrote. */
module HvifShapes {
  import opened Wrappers
  import opened HvifNumbers
  import opened HvifModel
  import opened HvifFormat
  import opened HvifNorm
  import opened HvifRoundTrip

  // -- lists in which nothing was skipped

  lemma {:induction false} PresentAll<T>(xs: seq<Option<T>>, ys: seq<T>)
    requires |xs| == |ys| && forall i | 0 <= i < |xs| :: xs[i] == Some(ys[i])
    ensures Present(xs) == ys
  {
    if xs != [] {
      PresentAll(xs[..|xs| - 1], ys[..|ys| - 1]);
      assert ys == ys[..|ys| - 1] + [ys[|ys| - 1]];
    }
  }

  // -- transformers

  lemma {:induction false} OrDoubled(a: int, c: int)
    requires a >= 0 && c >= 0
    ensures Or(a, 2 * c) == 2 * Or(a / 2, c) + a % 2
  {
  }

  lemma {:induction false} OrQuadrupled(a: int, c: int)
    requires a >= 0 && c >= 0
    ensures Or(a, 4 * c) == 2 * (2 * Or(a / 2 / 2, c) + a / 2 % 2) + a % 2
  {
    OrDoubled(a, 2 * c);
    OrDoubled(a / 2, c);
  }

  lemma {:induction false} OrShifted(a: int, c: int)
    requires a >= 0 && c >= 0
    ensures Or(a, 16 * c) == 16 * Or(a / 16, c) + a % 16
  {
    var h := a / 2 / 2;
    OrQuadrupled(a, 4 * c);
    OrQuadrupled(h, c);
    var high := Or(h / 2 / 2, c);
    FourBits(a % 2, a / 2 % 2, h % 2, h / 2 % 2, high);
    Recompose(a);
  }

  lemma {:induction false} Recompose(a: int)
    ensures var h := a / 2 / 2;
      && a / 16 == h / 2 / 2
      && a % 16 == 8 * (h / 2 % 2) + 4 * (h % 2) + 2 * (a / 2 % 2) + a % 2
  {
    var h := a / 2 / 2;
    FourBits(a % 2, a / 2 % 2, h % 2, h / 2 % 2, h / 2 / 2);
  }

  /** The low four bits of join | cap << 4 are join's, and the rest are cap's with whatever of
      join did not fit. */
  lemma {:induction false} StrokeOptionsSplit(join: int, cap: int)
    requires join >= 0 && cap >= 0
    ensures StrokeOptions(join, cap) % 16 == join % 16
    ensures StrokeOptions(join, cap) / 16 == Or(join / 16, cap)
  {
    OrShifted(join, cap);
  }

  lemma {:induction false} FourBits(b0: int, b1: int, b2: int, b3: int, high: int)
    requires 0 <= b0 <= 1 && 0 <= b1 <= 1 && 0 <= b2 <= 1 && 0 <= b3 <= 1
    ensures var n := 2 * (2 * (2 * (2 * high + b3) + b2) + b1) + b0;
      n % 16 == 8 * b3 + 4 * b2 + 2 * b1 + b0 && n / 16 == high
  {
  }

  function SomeNormTransformer(t: Transformer): Option<Transformer> {
    Some(NormTransformer(t))
  }

  lemma {:induction false} ThreeByteTransformer(kind: byte, b0: int, b1: int, b2: int, t: Bytes)
    requires PutMany(PutByte, [b0, b1, b2]).Success?
    requires kind == TRANSFORMER_CONTOUR || kind == TRANSFORMER_STROKE
    ensures GetTransformer([kind] + PutMany(PutByte, [b0, b1, b2]).value + t)
      == Success((Some(if kind == TRANSFORMER_CONTOUR then Contour(b0 - 128, b1, b2)
                       else Stroke(b0 - 128, b1 % 16, b1 / 16, b2)), t))
  {
    var body := PutMany(PutByte, [b0, b1, b2]).value;
    assert ([kind] + body + t)[1..] == body + t;
    BytesRoundTrip([b0, b1, b2], t);
  }

  lemma {:induction false} PerspectiveRoundTrip(matrix: Perspective9, t: Bytes)
    requires PutMany(PutFloat24, matrix).Success?
    ensures GetTransformer([TRANSFORMER_PERSPECTIVE] + PutMany(PutFloat24, matrix).value + t)
      == Success((Some(Perspective(Map(NormNumber, matrix))), t))
  {
    var body := PutMany(PutFloat24, matrix).value;
    assert ([TRANSFORMER_PERSPECTIVE] + body + t)[1..] == body + t;
    FloatsRoundTrip(matrix, t);
  }

  lemma {:induction false} TransformerRoundTrip(tr: Transformer, t: Bytes)
    requires PutTransformer(tr).Success?
    ensures GetTransformer(PutTransformer(tr).value + t) == Success((SomeNormTransformer(tr), t))
  {
    match tr
    case Contour(width, join, miter) =>
      ThreeByteTransformer(TRANSFORMER_CONTOUR, width + 128, join, miter, t);
    case Perspective(matrix) =>
      PerspectiveRoundTrip(matrix, t);
    case Stroke(width, join, cap, miter) =>
      assert 0 <= StrokeOptions(join, cap) < 256 by {
        SecondByte(width + 128, StrokeOptions(join, cap), miter);
      }
      StrokeOptionsSplit(join, cap);
      ThreeByteTransformer(TRANSFORMER_STROKE, width + 128, StrokeOptions(join, cap), miter, t);
  }

  lemma {:induction false} SecondByte(b0: int, b1: int, b2: int)
    requires PutMany(PutByte, [b0, b1, b2]).Success?
    ensures 0 <= b1 < 256
  {
    assert [b0, b1, b2][1..][0] == b1;
    assert PutMany(PutByte, [b0, b1, b2][1..]).Success?;
  }

  // -- the optional fields of a shape

  lemma {:induction false} ShapeFlagsRead(shape: Shape)
    ensures var flags, form := ShapeFlags(shape), FormOf(shape.matrix);
      && Flag(flags, SHAPE_FLAG_TRANSFORM) == form.Full?
      && Flag(flags, SHAPE_FLAG_HINTING) == shape.hinting
      && Flag(flags, SHAPE_FLAG_LOD_SCALE) == HasLod(shape.lod)
      && Flag(flags, SHAPE_FLAG_HAS_TRANSFORMERS) == (shape.transformers != [])
      && Flag(flags, SHAPE_FLAG_TRANSLATION) == form.Translation?
  {
  }

  lemma {:induction false} ShapeMatrixRoundTrip(flags: byte, matrix: Option<Matrix>, t: Bytes)
    requires PutMatrix(matrix).Success?
    requires Flag(flags, SHAPE_FLAG_TRANSFORM) == FormOf(matrix).Full?
    requires Flag(flags, SHAPE_FLAG_TRANSLATION) == FormOf(matrix).Translation?
    ensures GetShapeMatrix(flags, PutMatrix(matrix).value + t) == Success((NormMatrix(matrix), t))
  {
    match FormOf(matrix)
    case NoMatrix =>
      assert [] + t == t;
    case Full =>
      MatrixRoundTrip(matrix.value, t);
    case Translation =>
      var x, y := matrix.value[4], matrix.value[5];
      TranslationBytes(x, y, t);
      CoordRoundTrip(x, EncodeCoord(y) + t);
      CoordRoundTrip(y, t);
  }

  lemma {:induction false} TranslationBytes(x: real, y: real, t: Bytes)
    ensures PutCoords([x, y]) + t == EncodeCoord(x) + (EncodeCoord(y) + t)
  {
    assert [x, y][1..] == [y];
    assert PutCoords([y]) == EncodeCoord(y) + PutCoords([]);
  }

  lemma {:induction false} LodRoundTrip(flags: byte, lod: Option<Lod>, t: Bytes)
    requires PutLod(lod).Success? && Flag(flags, SHAPE_FLAG_LOD_SCALE) == HasLod(lod)
    ensures GetLod(flags, PutLod(lod).value + t) == Success((NormLod(lod), t))
  {
    if HasLod(lod) {
      BytesRoundTrip([lod.value.least, lod.value.most], t);
    } else {
      assert [] + t == t;
    }
  }

  lemma {:induction false} TransformersRoundTrip(flags: byte, ts: seq<Transformer>, t: Bytes)
    requires PutTransformers(ts).Success? && Flag(flags, SHAPE_FLAG_HAS_TRANSFORMERS) == (ts != [])
    ensures GetTransformers(flags, PutTransformers(ts).value + t) == Success((Map(NormTransformer, ts), t))
  {
    if ts == [] {
      assert [] + t == t;
    } else {
      var body := PutMany(PutTransformer, ts).value;
      assert (PutTransformers(ts).value + t)[1..] == body + t;
      forall x, rest: Bytes | x in ts && PutTransformer(x).Success?
        ensures GetTransformer(PutTransformer(x).value + rest) == Success((SomeNormTransformer(x), rest))
      {
        TransformerRoundTrip(x, rest);
      }
      ManyRoundTrip(PutTransformer, GetTransformer, SomeNormTransformer, ts, t);
      PresentAll(Map(SomeNormTransformer, ts), Map(NormTransformer, ts));
    }
  }

  // -- a whole shape

  /** The fields in the order they are read. */
  lemma {:induction false} ShapeReads(table: seq<Option<Style>>, pathCount: int, style: byte, count: byte,
                                      paths: seq<byte>, flags: byte, s1: Bytes, s2: Bytes,
                                      matrix: Option<Matrix>, s3: Bytes, lod: Option<Lod>, s4: Bytes,
                                      transformers: seq<Transformer>, t: Bytes)
    requires GetMany(GetByte, count, s1) == Success((paths, [flags] + s2))
    requires GetShapeMatrix(flags, s2) == Success((matrix, s3))
    requires GetLod(flags, s3) == Success((lod, s4))
    requires GetTransformers(flags, s4) == Success((transformers, t))
    ensures ReadShape(table, pathCount, [SHAPE_PATH_SOURCE, style, count] + s1) ==
      if style >= |table| || table[style].None? then Failure(MissingStyle(style))
      else Success((Some(Shape(|Present(table[..style])|, Below(paths, pathCount), matrix,
        Flag(flags, SHAPE_FLAG_HINTING), lod, transformers)), t))
  {
    var s := [SHAPE_PATH_SOURCE, style, count] + s1;
    assert s[1..] == [style, count] + s1;
    assert s[1..][1..] == [count] + s1;
    assert s[1..][1..][1..] == s1;
    assert ([flags] + s2)[1..] == s2;
  }

  lemma {:induction false} ShapeRegroup(style: byte, count: byte, paths: Bytes, flags: byte, m: Bytes, lod: Bytes,
                                        ts: Bytes, t: Bytes)
    ensures [SHAPE_PATH_SOURCE] + [style] + [count] + paths + [flags] + m + lod + ts + t
      == [SHAPE_PATH_SOURCE, style, count] + (paths + ([flags] + (m + (lod + (ts + t)))))
  {
  }

  lemma {:induction false} ShapeWrites(shape: Shape, t: Bytes)
    requires PutShape(shape).Success?
    ensures && 0 <= shape.style < 256 && |shape.paths| < 256
      && PutMany(PutByte, shape.paths).Success? && PutMatrix(shape.matrix).Success?
      && PutLod(shape.lod).Success? && PutTransformers(shape.transformers).Success?
      && PutShape(shape).value + t == [SHAPE_PATH_SOURCE, shape.style, |shape.paths|]
        + (PutMany(PutByte, shape.paths).value + ([ShapeFlags(shape)] + (PutMatrix(shape.matrix).value
        + (PutLod(shape.lod).value + (PutTransformers(shape.transformers).value + t)))))
  {
    ShapeRegroup(shape.style, |shape.paths|, PutMany(PutByte, shape.paths).value, ShapeFlags(shape),
      PutMatrix(shape.matrix).value, PutLod(shape.lod).value, PutTransformers(shape.transformers).value, t);
  }

  /** Every style of the table is there. */
  predicate Complete(table: seq<Option<Style>>) {
    forall i | 0 <= i < |table| :: table[i].Some?
  }

  lemma {:induction false} CompletePresent(table: seq<Option<Style>>)
    requires Complete(table)
    ensures |Present(table)| == |table|
  {
    if table != [] {
      CompletePresent(table[..|table| - 1]);
    }
  }

  lemma {:induction false} ShapeRoundTrip(shape: Shape, table: seq<Option<Style>>, pathCount: int, t: Bytes)
    requires PutShape(shape).Success? && Complete(table)
    ensures GetShape(table, pathCount)(PutShape(shape).value + t) ==
      if shape.style < |table| then Success((Some(NormShape(pathCount, shape)), t))
      else Failure(MissingStyle(shape.style))
  {
    ShapeWrites(shape, t);
    ShapeFlagsRead(shape);
    var flags := ShapeFlags(shape);
    var s4 := PutTransformers(shape.transformers).value + t;
    var s3 := PutLod(shape.lod).value + s4;
    var s2 := PutMatrix(shape.matrix).value + s3;
    var s1 := PutMany(PutByte, shape.paths).value + ([flags] + s2);
    BytesRoundTrip(shape.paths, [flags] + s2);
    ShapeMatrixRoundTrip(flags, shape.matrix, s3);
    LodRoundTrip(flags, shape.lod, s4);
    TransformersRoundTrip(flags, shape.transformers, t);
    ShapeReads(table, pathCount, shape.style, |shape.paths|, PutMany(PutByte, shape.paths).value, flags, s1,
      s2, NormMatrix(shape.matrix), s3, NormLod(shape.lod), s4, Map(NormTransformer, shape.transformers), t);
    if shape.style < |table| {
      CompletePresent(table[..shape.style]);
    }
  }
}
