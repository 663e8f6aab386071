/** The other trip: what decode gives is encoded again. */
module HvifDecoded {
  import opened Wrappers
  import opened Binary32
  import opened Float24
  import opened HvifNumbers
  import opened HvifModel
  import opened HvifCleanUp
  import opened HvifFormat
  import opened HvifNorm
  import opened HvifTheorems
  import opened HvifAccepts

  // -- what a decoded icon is made of

  ghost predicate IsFloat24(v: real) {
    exists code | 0 <= code < CODES :: v == DecodeFloat24(code)
  }

  /** A step of 1/102 from -128 up. */
  function GridAt(n: int): real {
    n as real / 102.0 - 128.0
  }

  ghost predicate OnGrid(v: real) {
    exists n | 0 <= n < 0x8000 :: v == GridAt(n)
  }

  predicate IsColor(c: Rgba) {
    IsByte(c.r) && IsByte(c.g) && IsByte(c.b) && IsByte(c.a)
  }

  predicate IsStop(stop: Stop) {
    IsByte(stop.offset) && IsColor(stop.color)
  }

  ghost predicate IsGradientMatrix(matrix: Matrix) {
    matrix == IDENTITY || forall i | 0 <= i < 6 :: IsFloat24(matrix[i])
  }

  ghost predicate IsStyle(style: Style) {
    match style
    case Solid(color) => IsColor(color)
    case Gradient(kind, matrix, stops) =>
      && IsByte(kind) && IsGradientMatrix(matrix)
      && |stops| <= 255 && SortedStops(stops) && forall i | 0 <= i < |stops| :: IsStop(stops[i])
  }

  ghost predicate IsPath(path: Path) {
    |path.points| <= 255 && Clean(path.points) && Everywhere(path.points, OnGrid)
  }

  ghost predicate IsTransformer(t: Transformer) {
    match t
    case AffineTransformer(_) => true
    case Contour(width, join, miter) => IsByte(width + 128) && IsByte(join) && IsByte(miter)
    case Perspective(matrix) => forall i | 0 <= i < 9 :: IsFloat24(matrix[i])
    case Stroke(width, join, cap, miter) =>
      IsByte(width + 128) && 0 <= join < 16 && 0 <= cap < 16 && IsByte(miter)
  }

  ghost predicate IsMatrix(matrix: Option<Matrix>) {
    matrix.Some? ==>
      || (forall i | 0 <= i < 6 :: IsFloat24(matrix.value[i]))
      || (exists x, y :: OnGrid(x) && OnGrid(y) && matrix.value == [1.0, 0.0, 0.0, 1.0, x, y])
  }

  ghost predicate IsShape(shape: Shape, styles: int, paths: int) {
    && 0 <= shape.style < styles
    && |shape.paths| <= 255 && (forall i | 0 <= i < |shape.paths| :: 0 <= shape.paths[i] < paths)
    && IsMatrix(shape.matrix)
    && (shape.lod.Some? ==> IsByte(shape.lod.value.least) && IsByte(shape.lod.value.most))
    && |shape.transformers| <= 255 && forall i | 0 <= i < |shape.transformers| :: IsTransformer(shape.transformers[i])
  }

  ghost predicate IsIcon(icon: Icon) {
    && |icon.styles| <= 255 && |icon.paths| <= 255 && |icon.shapes| <= 255
    && (forall i | 0 <= i < |icon.styles| :: IsStyle(icon.styles[i]))
    && (forall i | 0 <= i < |icon.paths| :: IsPath(icon.paths[i]))
    && forall i | 0 <= i < |icon.shapes| :: IsShape(icon.shapes[i], |icon.styles|, |icon.paths|)
  }

  // -- reading

  lemma {:induction false} ManyAre<T(!new)>(get: Bytes -> Parse<T>, n: nat, s: Bytes, holds: T -> bool)
    requires forall r: Bytes :: get(r).Success? ==> holds(get(r).value.0)
    ensures GetMany(get, n, s).Success? ==> forall i | 0 <= i < n :: holds(GetMany(get, n, s).value.0[i])
  {
    if n > 0 && get(s).Success? {
      ManyAre(get, n - 1, get(s).value.1, holds);
    }
  }

  lemma {:induction false} PresentAre<T(!new)>(xs: seq<Option<T>>, holds: T -> bool)
    requires forall i | 0 <= i < |xs| && xs[i].Some? :: holds(xs[i].value)
    ensures |Present(xs)| <= |xs| && forall i | 0 <= i < |Present(xs)| :: holds(Present(xs)[i])
  {
    if xs != [] {
      PresentAre(xs[..|xs| - 1], holds);
    }
  }

  lemma {:induction false} Float24Is(s: Bytes)
    ensures GetFloat24(s).Success? ==> IsFloat24(GetFloat24(s).value.0)
  {
    if |s| >= 3 {
      var code := s[0] as int * 0x1_0000 + s[1] as int * 0x100 + s[2];
      assert 0 <= code < CODES && GetFloat24(s).Success? ==> GetFloat24(s).value.0 == DecodeFloat24(code);
    }
  }

  lemma {:induction false} FloatsAre(n: nat, s: Bytes)
    ensures GetMany(GetFloat24, n, s).Success? ==>
      forall i | 0 <= i < n :: IsFloat24(GetMany(GetFloat24, n, s).value.0[i])
  {
    forall r: Bytes
      ensures GetFloat24(r).Success? ==> IsFloat24(GetFloat24(r).value.0)
    {
      Float24Is(r);
    }
    ManyAre(GetFloat24, n, s, IsFloat24);
  }

  lemma {:induction false} CoordIs(s: Bytes)
    ensures GetCoord(s).Success? ==> OnGrid(GetCoord(s).value.0)
  {
    if s != [] && s[0] < 128 {
      NarrowIsOnGrid(s[0]);
    } else if |s| >= 2 {
      assert DecodeWide(s[0], s[1]) == GridAt((s[0] as int % 128) * 256 + s[1]);
    }
  }

  lemma {:induction false} NarrowIsOnGrid(b: byte)
    requires b < 128
    ensures OnGrid(DecodeNarrow(b))
  {
    assert DecodeNarrow(b) == GridAt(102 * (b + 96));
  }

  lemma {:induction false} CoordsAre(n: nat, s: Bytes)
    ensures GetMany(GetCoord, n, s).Success? ==> forall i | 0 <= i < n :: OnGrid(GetMany(GetCoord, n, s).value.0[i])
  {
    forall r: Bytes
      ensures GetCoord(r).Success? ==> OnGrid(GetCoord(r).value.0)
    {
      CoordIs(r);
    }
    ManyAre(GetCoord, n, s, OnGrid);
  }

  // -- styles

  lemma {:induction false} ColorIs(alpha: bool, gray: bool, s: Bytes)
    ensures GetRgba(alpha, gray, s).Success? ==> IsColor(GetRgba(alpha, gray, s).value.0)
  {
  }

  lemma {:induction false} StopsAre(alpha: bool, gray: bool, n: nat, s: Bytes)
    ensures var get := GetStop(alpha, gray);
      GetMany(get, n, s).Success? ==> forall i | 0 <= i < n :: IsStop(GetMany(get, n, s).value.0[i])
  {
    var get := GetStop(alpha, gray);
    forall r: Bytes
      ensures get(r).Success? ==> IsStop(get(r).value.0)
    {
      if r != [] {
        ColorIs(alpha, gray, r[1..]);
      }
    }
    ManyAre(get, n, s, IsStop);
  }

  lemma {:induction false} SortedAre(stops: seq<Stop>)
    requires forall i | 0 <= i < |stops| :: IsStop(stops[i])
    ensures SortedStops(SortStops(stops)) && forall i | 0 <= i < |stops| :: IsStop(SortStops(stops)[i])
  {
    SortStopsSorts(stops);
    forall i | 0 <= i < |stops|
      ensures IsStop(SortStops(stops)[i])
    {
      assert SortStops(stops)[i] in multiset(stops);
    }
  }

  lemma {:induction false} GradientMatrixIs(flags: byte, s: Bytes)
    ensures GetGradientMatrix(flags, s).Success? ==> IsGradientMatrix(GetGradientMatrix(flags, s).value.0)
  {
    FloatsAre(6, s);
  }

  lemma {:induction false} GradientIs(s: Bytes)
    ensures GetGradient(s).Success? ==> GetGradient(s).value.0.Some? && IsStyle(GetGradient(s).value.0.value)
  {
    if GetGradient(s).Success? {
      var kind, flags, count, s3 := s[0], s[1], s[2], s[3..];
      assert s[1..][1..] == s[2..] && s[2..][1..] == s3;
      var (matrix, rest) := GetGradientMatrix(flags, s3).value;
      GradientMatrixIs(flags, s3);
      var alpha, gray := !Flag(flags, GRADIENT_FLAG_NO_ALPHA), Flag(flags, GRADIENT_FLAG_GRAYS);
      StopsAre(alpha, gray, count, rest);
      SortedAre(GetMany(GetStop(alpha, gray), count, rest).value.0);
    }
  }

  ghost predicate MayBeStyle(style: Option<Style>) {
    style.Some? ==> IsStyle(style.value)
  }

  lemma {:induction false} StyleIs(s: Bytes)
    ensures GetStyle(s).Success? ==> MayBeStyle(GetStyle(s).value.0)
  {
    if s != [] {
      GradientIs(s[1..]);
      ColorIs(true, false, s[1..]);
      ColorIs(false, false, s[1..]);
      ColorIs(true, true, s[1..]);
      ColorIs(false, true, s[1..]);
    }
  }

  // -- paths

  ghost predicate PointOnGrid(p: Point) {
    PointHas(p, OnGrid)
  }

  lemma {:induction false} LinePointIs(s: Bytes)
    ensures GetLinePoint(s).Success? ==> PointOnGrid(GetLinePoint(s).value.0)
  {
    CoordIs(s);
    if GetCoord(s).Success? {
      CoordIs(GetCoord(s).value.1);
    }
  }

  lemma {:induction false} PlainPointIs(s: Bytes)
    ensures GetPlainPoint(s).Success? ==> PointOnGrid(GetPlainPoint(s).value.0)
  {
    CoordsAre(6, s);
  }

  lemma {:induction false} CommandPointIs(command: int, last: Position, s: Bytes)
    requires OnGrid(last.x) && OnGrid(last.y)
    ensures GetCommandPoint(command, last, s).Success? ==> PointOnGrid(GetCommandPoint(command, last, s).value.0)
  {
    CoordIs(s);
    LinePointIs(s);
    PlainPointIs(s);
  }

  lemma {:induction false} CommandPointsAre(commands: Bytes, p: int, count: int, last: Position, s: Bytes)
    requires 0 <= p <= count && count <= 4 * |commands| && OnGrid(last.x) && OnGrid(last.y)
    ensures GetCommandPoints(commands, p, count, last, s).Success? ==>
      var points := GetCommandPoints(commands, p, count, last, s).value.0;
      |points| == count - p && Everywhere(points, OnGrid)
    decreases count - p
  {
    if p < count {
      var command := UnpackCommand(commands[p / 4], p % 4);
      CommandPointIs(command, last, s);
      if GetCommandPoint(command, last, s).Success? {
        var (point, rest) := GetCommandPoint(command, last, s).value;
        CommandPointsAre(commands, p + 1, count, At(point), rest);
      }
    }
  }

  lemma {:induction false} OriginIsOnGrid()
    ensures OnGrid(ORIGIN.x) && OnGrid(ORIGIN.y)
  {
    assert 0.0 == GridAt(102 * 128);
  }

  lemma {:induction false} PointsAre(flags: byte, count: byte, s: Bytes)
    ensures GetPoints(flags, count, s).Success? ==>
      |GetPoints(flags, count, s).value.0| == count && Everywhere(GetPoints(flags, count, s).value.0, OnGrid)
  {
    if Flag(flags, PATH_FLAG_NO_CURVES) {
      forall r: Bytes
        ensures GetLinePoint(r).Success? ==> PointOnGrid(GetLinePoint(r).value.0)
      {
        LinePointIs(r);
      }
      ManyAre(GetLinePoint, count, s, PointOnGrid);
    } else if Flag(flags, PATH_FLAG_USES_COMMANDS) {
      var commands := GetMany(GetByte, (count + 3) / 4, s);
      if commands.Success? {
        OriginIsOnGrid();
        CommandPointsAre(commands.value.0, 0, count, ORIGIN, commands.value.1);
      }
    } else {
      forall r: Bytes
        ensures GetPlainPoint(r).Success? ==> PointOnGrid(GetPlainPoint(r).value.0)
      {
        PlainPointIs(r);
      }
      ManyAre(GetPlainPoint, count, s, PointOnGrid);
    }
  }

  lemma {:induction false} PathIs(s: Bytes)
    ensures GetPath(s).Success? ==> IsPath(GetPath(s).value.0)
  {
    if GetPath(s).Success? {
      var flags, count, rest := s[0], s[1], s[1..][1..];
      PointsAre(flags, count, rest);
      var points := GetPoints(flags, count, rest).value.0;
      CleanUpIsClean(points);
      CleanUpKeepsCoords(points, OnGrid);
    }
  }

  // -- shapes

  ghost predicate MayBeTransformer(t: Option<Transformer>) {
    t.Some? ==> IsTransformer(t.value)
  }

  lemma {:induction false} TransformerIs(s: Bytes)
    ensures GetTransformer(s).Success? ==> MayBeTransformer(GetTransformer(s).value.0)
  {
    if s != [] {
      FloatsAre(9, s[1..]);
    }
  }

  lemma {:induction false} TransformersAre(flags: byte, s: Bytes)
    ensures GetTransformers(flags, s).Success? ==>
      var ts := GetTransformers(flags, s).value.0;
      |ts| <= 255 && forall i | 0 <= i < |ts| :: IsTransformer(ts[i])
  {
    if Flag(flags, SHAPE_FLAG_HAS_TRANSFORMERS) && GetTransformers(flags, s).Success? {
      forall r: Bytes
        ensures GetTransformer(r).Success? ==> MayBeTransformer(GetTransformer(r).value.0)
      {
        TransformerIs(r);
      }
      ManyAre(GetTransformer, s[0], s[1..], MayBeTransformer);
      var found := GetMany(GetTransformer, s[0], s[1..]).value.0;
      assert forall i | 0 <= i < |found| :: MayBeTransformer(found[i]);
      PresentAre(found, IsTransformer);
    }
  }

  lemma {:induction false} ShapeMatrixIs(flags: byte, s: Bytes)
    ensures GetShapeMatrix(flags, s).Success? ==> IsMatrix(GetShapeMatrix(flags, s).value.0)
  {
    FloatsAre(6, s);
    CoordIs(s);
    if GetCoord(s).Success? {
      CoordIs(GetCoord(s).value.1);
    }
  }

  lemma {:induction false} BelowAre(indices: seq<int>, count: int)
    requires forall i | 0 <= i < |indices| :: 0 <= indices[i]
    ensures |Below(indices, count)| <= |indices|
    ensures forall i | 0 <= i < |Below(indices, count)| :: 0 <= Below(indices, count)[i] < count
  {
    if indices != [] {
      BelowAre(indices[..|indices| - 1], count);
    }
  }

  lemma {:induction false} PresentGrows<T>(table: seq<Option<T>>, k: nat)
    requires k < |table| && table[k].Some?
    ensures |Present(table[..k])| < |Present(table)|
  {
    var n := |table| - 1;
    if k < n {
      PresentGrows(table[..n], k);
      assert table[..n][..k] == table[..k];
    }
  }

  ghost predicate MayBeShape(shape: Option<Shape>, styles: int, paths: int) {
    shape.Some? ==> IsShape(shape.value, styles, paths)
  }

  /** What is read of a shape after its flags. */
  lemma {:induction false} ShapeBodyIs(flags: byte, s: Bytes)
    ensures GetShapeMatrix(flags, s).Success? ==>
      var (matrix, s) := GetShapeMatrix(flags, s).value;
      && IsMatrix(matrix)
      && (GetLod(flags, s).Success? ==>
            var (lod, s) := GetLod(flags, s).value;
            && (lod.Some? ==> IsByte(lod.value.least) && IsByte(lod.value.most))
            && (GetTransformers(flags, s).Success? ==>
                  var ts := GetTransformers(flags, s).value.0;
                  |ts| <= 255 && forall i | 0 <= i < |ts| :: IsTransformer(ts[i])))
  {
    ShapeMatrixIs(flags, s);
    if GetShapeMatrix(flags, s).Success? && GetLod(flags, GetShapeMatrix(flags, s).value.1).Success? {
      TransformersAre(flags, GetLod(flags, GetShapeMatrix(flags, s).value.1).value.1);
    }
  }

  lemma {:induction false} ShapeIs(table: seq<Option<Style>>, pathCount: int, s: Bytes)
    ensures ReadShape(table, pathCount, s).Success? ==>
      MayBeShape(ReadShape(table, pathCount, s).value.0, |Present(table)|, pathCount)
  {
    var r := ReadShape(table, pathCount, s);
    if r.Success? && r.value.0.Some? {
      var style, count := s[1], s[2];
      assert s[1..][1..] == s[2..] && s[2..][1..] == s[3..];
      var (paths, s) := GetMany(GetByte, count, s[3..]).value;
      ShapeBodyIs(s[0], s[1..]);
      BelowAre(paths, pathCount);
      PresentGrows(table, style);
    }
  }

  lemma {:induction false} ShapesAre(table: seq<Option<Style>>, pathCount: int, n: nat, s: Bytes)
    ensures var get := GetShape(table, pathCount);
      GetMany(get, n, s).Success? ==>
        var shapes := Present(GetMany(get, n, s).value.0);
        |shapes| <= n && forall i | 0 <= i < |shapes| :: IsShape(shapes[i], |Present(table)|, pathCount)
  {
    var get := GetShape(table, pathCount);
    var styles := |Present(table)|;
    forall r: Bytes
      ensures get(r).Success? ==> MayBeShape(get(r).value.0, styles, pathCount)
    {
      ShapeIs(table, pathCount, r);
    }
    ManyAre(get, n, s, shape => MayBeShape(shape, styles, pathCount));
    if GetMany(get, n, s).Success? {
      var found := GetMany(get, n, s).value.0;
      assert forall i | 0 <= i < n :: MayBeShape(found[i], styles, pathCount);
      PresentAre(found, shape => IsShape(shape, styles, pathCount));
    }
  }

  // -- icons

  lemma {:induction false} StylesAre(n: nat, s: Bytes)
    ensures GetMany(GetStyle, n, s).Success? ==>
      var styles := Present(GetMany(GetStyle, n, s).value.0);
      |styles| <= n && forall i | 0 <= i < |styles| :: IsStyle(styles[i])
  {
    forall r: Bytes
      ensures GetStyle(r).Success? ==> MayBeStyle(GetStyle(r).value.0)
    {
      StyleIs(r);
    }
    ManyAre(GetStyle, n, s, MayBeStyle);
    if GetMany(GetStyle, n, s).Success? {
      var found := GetMany(GetStyle, n, s).value.0;
      assert forall i | 0 <= i < n :: MayBeStyle(found[i]);
      PresentAre(found, IsStyle);
    }
  }

  lemma {:induction false} PathsAre(n: nat, s: Bytes)
    ensures GetMany(GetPath, n, s).Success? ==>
      forall i | 0 <= i < n :: IsPath(GetMany(GetPath, n, s).value.0[i])
  {
    forall r: Bytes
      ensures GetPath(r).Success? ==> IsPath(GetPath(r).value.0)
    {
      PathIs(r);
    }
    ManyAre(GetPath, n, s, IsPath);
  }

  /** Whatever the bytes. */
  lemma {:induction false} DecodedIsIcon(s: Bytes)
    ensures Decode(s).Success? ==> IsIcon(Decode(s).value)
  {
    if Decode(s).Success? {
      var r1 := GetU32(s).value.1;
      var (count1, s1) := GetByte(r1).value;
      StylesAre(count1, s1);
      var (table, r2) := GetMany(GetStyle, count1, s1).value;
      var (count2, s2) := GetByte(r2).value;
      PathsAre(count2, s2);
      var (paths, r3) := GetMany(GetPath, count2, s2).value;
      var (count3, s3) := GetByte(r3).value;
      ShapesAre(table, |paths|, count3, s3);
    }
  }

  // -- when encode takes it back

  predicate NoAffine(icon: Icon) {
    forall i | 0 <= i < |icon.shapes| ::
      forall j | 0 <= j < |icon.shapes[i].transformers| :: !icon.shapes[i].transformers[j].AffineTransformer?
  }

  lemma {:induction false} Float24Stays(v: real)
    requires IsFloat24(v)
    ensures NormNumber(v) == v && Magnitude(v) < TooLarge()
  {
    var code :| 0 <= code < CODES && v == DecodeFloat24(code);
    Float24CodeIsCanonical(code);
    PacksBelow(v);
  }

  lemma {:induction false} FloatsStay(m: seq<real>)
    requires forall i | 0 <= i < |m| :: IsFloat24(m[i])
    ensures Map(NormNumber, m) == m && HvifAccepts.Fits(m)
  {
    forall i | 0 <= i < |m|
      ensures NormNumber(m[i]) == m[i] && Magnitude(m[i]) < TooLarge()
    {
      Float24Stays(m[i]);
    }
  }

  lemma {:induction false} StyleFitsAgain(style: Style)
    requires IsStyle(style)
    ensures StyleFits(style)
  {
    if style.Gradient? {
      if style.matrix == IDENTITY {
        assert NearIdentity(style.matrix, 6);
      } else {
        FloatsStay(style.matrix);
      }
      assert forall i | 0 <= i < |style.stops| :: IsStop(style.stops[i]);
    }
  }

  lemma {:induction false} TransformerFitsAgain(t: Transformer)
    requires IsTransformer(t)
    ensures TransformerFits(t) <==> !t.AffineTransformer?
  {
    if t.Perspective? {
      FloatsStay(t.matrix);
    }
  }

  lemma {:induction false} MatrixFitsAgain(matrix: Option<Matrix>)
    requires IsMatrix(matrix)
    ensures FormOf(matrix) == Full ==> HvifAccepts.Fits(matrix.value) && Map(NormNumber, matrix.value) == matrix.value
  {
    if FormOf(matrix) == Full {
      if forall i | 0 <= i < 6 :: IsFloat24(matrix.value[i]) {
        FloatsStay(matrix.value);
      } else {
        assert NearIdentity(matrix.value, 4);
      }
    }
  }

  lemma {:induction false} ShapeFitsAgain(shape: Shape, styles: int, paths: int)
    requires IsShape(shape, styles, paths) && styles <= 255 && paths <= 255
    ensures ShapeFits(shape) <==>
      forall j | 0 <= j < |shape.transformers| :: !shape.transformers[j].AffineTransformer?
  {
    MatrixFitsAgain(shape.matrix);
    forall j | 0 <= j < |shape.transformers|
      ensures TransformerFits(shape.transformers[j]) <==> !shape.transformers[j].AffineTransformer?
    {
      TransformerFitsAgain(shape.transformers[j]);
    }
  }

  lemma {:induction false} IconFitsAgain(icon: Icon)
    requires IsIcon(icon)
    ensures Acceptable(icon) <==> NoAffine(icon)
  {
    forall i | 0 <= i < |icon.styles|
      ensures StyleFits(icon.styles[i])
    {
      StyleFitsAgain(icon.styles[i]);
    }
    forall i | 0 <= i < |icon.shapes|
      ensures ShapeFits(icon.shapes[i]) <==>
        forall j | 0 <= j < |icon.shapes[i].transformers| :: !icon.shapes[i].transformers[j].AffineTransformer?
    {
      ShapeFitsAgain(icon.shapes[i], |icon.styles|, |icon.paths|);
    }
    forall i | 0 <= i < |icon.paths|
      ensures |icon.paths[i].points| <= 255
    {
      assert IsPath(icon.paths[i]);
    }
  }

  // -- and when it comes back as it is

  predicate InReach(v: real) {
    v <= 192.0
  }

  /** The decoder reads coordinates of up to 193.245; those the encoder writes end at 192. */
  lemma {:induction false} GridStays(v: real)
    requires OnGrid(v)
    ensures QuantizeCoord(v) == v <==> InReach(v)
  {
    var n :| 0 <= n < 0x8000 && v == GridAt(n);
    CoordError(v);
    if v <= 192.0 {
      assert (v + 128.0) * 102.0 == n as real;
      Rounding.RoundIsUnique((v + 128.0) * 102.0, n);
      if IsWholeUnit(v) {
        NearWhole(n, Rounding.RoundHalfEven(v));
      }
    }
  }

  lemma {:induction false} NearWhole(n: int, w: int)
    requires Distance(GridAt(n), w as real) < 0.005
    ensures GridAt(n) == w as real
  {
    assert -0.52 < n as real - 102.0 * (w as real + 128.0) < 0.52;
    assert n == 102 * (w + 128);
  }

  lemma {:induction false} QuantizedIsOnGrid(v: real)
    ensures OnGrid(QuantizeCoord(v)) && InReach(QuantizeCoord(v))
  {
    CoordError(v);
    var c := Clamp(v);
    if IsWholeUnit(c) {
      assert QuantizeCoord(v) == GridAt(102 * (Rounding.RoundHalfEven(c) + 128));
    } else {
      assert QuantizeCoord(v) == GridAt(HundredAndTwoths(c));
    }
  }

  lemma {:induction false} PathStays(path: Path)
    requires IsPath(path)
    ensures NormPath(path) == path <==> Everywhere(path.points, InReach)
  {
    var normal := Map(NormPoint, path.points);
    if Everywhere(path.points, InReach) {
      forall i | 0 <= i < |path.points|
        ensures PointHas(path.points[i], IsQuantized)
      {
        PointStays(path.points[i]);
      }
      MapOfSettled(path.points);
      CleanUpKeepsClean(path.points);
    } else {
      forall i | 0 <= i < |normal|
        ensures PointHas(normal[i], InReach)
      {
        NormalInReach(path.points[i]);
      }
      CleanUpKeepsCoords(normal, InReach);
    }
  }

  lemma {:induction false} PointStays(p: Point)
    requires PointHas(p, OnGrid) && PointHas(p, InReach)
    ensures PointHas(p, IsQuantized)
  {
    GridStays(p.x);
    GridStays(p.y);
    GridStays(p.inX);
    GridStays(p.inY);
    GridStays(p.outX);
    GridStays(p.outY);
  }

  lemma {:induction false} NormalInReach(p: Point)
    ensures PointHas(NormPoint(p), InReach)
  {
    CoordError(p.x);
    CoordError(p.y);
    CoordError(p.inX);
    CoordError(p.inY);
    CoordError(p.outX);
    CoordError(p.outY);
  }

  predicate StyleStays(style: Style) {
    style.Gradient? && NearIdentity(style.matrix, 6) ==> style.matrix == IDENTITY
  }

  lemma {:induction false} StyleComesBack(style: Style)
    requires IsStyle(style)
    ensures NormStyle(style) == style <==> StyleStays(style)
  {
    if style.Gradient? {
      forall i | 0 <= i < |style.stops|
        ensures NormStop(style.stops[i]) == style.stops[i]
      {
        assert IsStop(style.stops[i]);
      }
      assert Map(NormStop, style.stops) == style.stops;
      SortedStopsStay(style.stops);
      if !NearIdentity(style.matrix, 6) {
        assert style.matrix != IDENTITY;
        FloatsStay(style.matrix);
      }
    }
  }

  /** A full matrix, or a move that says no more than a move and is in reach. */
  ghost predicate MatrixStays(matrix: Option<Matrix>) {
    match FormOf(matrix)
    case NoMatrix => matrix.None?
    case Full => true
    case Translation =>
      var m := matrix.value;
      m[..4] == IDENTITY[..4] && OnGrid(m[4]) && InReach(m[4]) && OnGrid(m[5]) && InReach(m[5])
  }

  lemma {:induction false} MatrixComesBack(matrix: Option<Matrix>)
    requires IsMatrix(matrix)
    ensures NormMatrix(matrix) == matrix <==> MatrixStays(matrix)
  {
    match FormOf(matrix)
    case NoMatrix =>
    case Full => MatrixFitsAgain(matrix);
    case Translation => MoveComesBack(matrix.value, NormMatrix(matrix).value);
  }

  lemma {:induction false} MoveComesBack(m: Matrix, r: Matrix)
    requires r == [1.0, 0.0, 0.0, 1.0, QuantizeCoord(m[4]), QuantizeCoord(m[5])]
    ensures r == m <==> m[..4] == IDENTITY[..4] && OnGrid(m[4]) && InReach(m[4]) && OnGrid(m[5]) && InReach(m[5])
  {
    assert r[..4] == IDENTITY[..4];
    assert m == m[..4] + [m[4], m[5]] && r == r[..4] + [r[4], r[5]];
    QuantizedIsOnGrid(m[4]);
    QuantizedIsOnGrid(m[5]);
    if OnGrid(m[4]) && OnGrid(m[5]) {
      GridStays(m[4]);
      GridStays(m[5]);
    }
  }

  lemma {:induction false} TransformerComesBack(t: Transformer)
    requires IsTransformer(t)
    ensures NormTransformer(t) == t
  {
    if t.Perspective? {
      FloatsStay(t.matrix);
    }
  }

  lemma {:induction false} BelowAll(indices: seq<int>, count: int)
    requires forall i | 0 <= i < |indices| :: indices[i] < count
    ensures Below(indices, count) == indices
  {
    if indices != [] {
      BelowAll(indices[..|indices| - 1], count);
    }
  }

  ghost predicate ShapeStays(shape: Shape) {
    MatrixStays(shape.matrix) && shape.lod != Some(Lod(0, 255))
  }

  lemma {:induction false} ShapeComesBack(shape: Shape, styles: int, paths: int)
    requires IsShape(shape, styles, paths)
    ensures NormShape(paths, shape) == shape <==> ShapeStays(shape)
  {
    BelowAll(shape.paths, paths);
    MatrixComesBack(shape.matrix);
    forall i | 0 <= i < |shape.transformers|
      ensures NormTransformer(shape.transformers[i]) == shape.transformers[i]
    {
      TransformerComesBack(shape.transformers[i]);
    }
    assert Map(NormTransformer, shape.transformers) == shape.transformers;
  }

  /** No matrix near the identity but one that is it, no coordinate above 192, no move that is not
      just that, and no level of detail that is all of them. */
  ghost predicate Stays(icon: Icon) {
    && (forall i | 0 <= i < |icon.styles| :: StyleStays(icon.styles[i]))
    && (forall i | 0 <= i < |icon.paths| :: Everywhere(icon.paths[i].points, InReach))
    && forall i | 0 <= i < |icon.shapes| :: ShapeStays(icon.shapes[i])
  }

  lemma {:induction false} MapStays<T(!new)>(f: T -> T, xs: seq<T>)
    ensures Map(f, xs) == xs <==> forall i | 0 <= i < |xs| :: f(xs[i]) == xs[i]
  {
    assert forall i | 0 <= i < |xs| :: Map(f, xs)[i] == f(xs[i]);
  }

  lemma {:induction false} StylesComeBack(styles: seq<Style>)
    requires forall i | 0 <= i < |styles| :: IsStyle(styles[i])
    ensures Map(NormStyle, styles) == styles <==> forall i | 0 <= i < |styles| :: StyleStays(styles[i])
  {
    MapStays(NormStyle, styles);
    forall i | 0 <= i < |styles|
      ensures NormStyle(styles[i]) == styles[i] <==> StyleStays(styles[i])
    {
      StyleComesBack(styles[i]);
    }
  }

  lemma {:induction false} PathsComeBack(paths: seq<Path>)
    requires forall i | 0 <= i < |paths| :: IsPath(paths[i])
    ensures Map(NormPath, paths) == paths <==> forall i | 0 <= i < |paths| :: Everywhere(paths[i].points, InReach)
  {
    MapStays(NormPath, paths);
    forall i | 0 <= i < |paths|
      ensures NormPath(paths[i]) == paths[i] <==> Everywhere(paths[i].points, InReach)
    {
      PathStays(paths[i]);
    }
  }

  lemma {:induction false} IconComesBack(icon: Icon)
    requires IsIcon(icon)
    ensures Norm(icon) == icon <==> Stays(icon)
  {
    StylesComeBack(icon.styles);
    PathsComeBack(icon.paths);
    ShapesComeBack(icon.shapes, |icon.styles|, |icon.paths|);
  }

  lemma {:induction false} ShapesComeBack(shapes: seq<Shape>, styles: int, paths: int)
    requires forall i | 0 <= i < |shapes| :: IsShape(shapes[i], styles, paths)
    ensures NormShapes(paths, shapes) == shapes <==> forall i | 0 <= i < |shapes| :: ShapeStays(shapes[i])
  {
    var r := NormShapes(paths, shapes);
    forall i | 0 <= i < |shapes|
      ensures r[i] == shapes[i] <==> ShapeStays(shapes[i])
    {
      ShapeComesBack(shapes[i], styles, paths);
    }
  }

  lemma {:induction false} StylesAreThere(shapes: seq<Shape>, styles: int, paths: int)
    requires forall i | 0 <= i < |shapes| :: IsShape(shapes[i], styles, paths)
    ensures StylesInRange(shapes, styles)
  {
    assert forall i | 0 <= i < |shapes| :: IsShape(shapes[i], styles, paths) ==> 0 <= shapes[i].style < styles;
  }

  /** decode, encode, decode, from any bytes: encode takes the icon back exactly when it has no
      affine transformer, decode then gives its normal form, and that is the icon exactly when
      nothing of it moves. */
  lemma {:induction false} DecodeEncodeDecode(s: Bytes, icon: Icon, trailing: Bytes)
    requires Decode(s) == Success(icon)
    ensures Encode(icon).Success? <==> NoAffine(icon)
    ensures NoAffine(icon) ==> Decode(Encode(icon).value + trailing) == Success(Norm(icon))
    ensures Norm(icon) == icon <==> Stays(icon)
  {
    DecodedIsIcon(s);
    IconFitsAgain(icon);
    EncodeAccepts(icon);
    IconComesBack(icon);
    StylesAreThere(icon.shapes, |icon.styles|, |icon.paths|);
    if NoAffine(icon) {
      RoundTrip(icon, trailing);
    }
  }
}
