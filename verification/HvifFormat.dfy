/** The HVIF format as functions on byte sequences: what encode appends for each part of an
    icon, and what decode takes from the front of the bytes it has left. The methods of
    HvifCodec compute these; HvifRoundTrip relates the two directions. */
module HvifFormat {
  import opened Wrappers
  import opened HvifNumbers
  import opened HvifModel
  import opened HvifCleanUp
  import opened Float24

  type Bytes = seq<byte>
  type Written = Result<Bytes, HvifError>
  type Parse<T> = Result<(T, Bytes), HvifError>

  const MAGIC_BYTES: Bytes := [0x6E, 0x63, 0x69, 0x66]
  const MAGIC: int := 0x6669636E

  const STYLE_SOLID_COLOR := 1
  const STYLE_GRADIENT := 2
  const STYLE_SOLID_COLOR_NO_ALPHA := 3
  const STYLE_SOLID_GRAY := 4
  const STYLE_SOLID_GRAY_NO_ALPHA := 5
  const SHAPE_PATH_SOURCE := 10
  const TRANSFORMER_AFFINE := 20
  const TRANSFORMER_CONTOUR := 21
  const TRANSFORMER_PERSPECTIVE := 22
  const TRANSFORMER_STROKE := 23

  const GRADIENT_FLAG_TRANSFORM := 2
  const GRADIENT_FLAG_NO_ALPHA := 4
  const GRADIENT_FLAG_GRAYS := 16
  const PATH_FLAG_CLOSED := 2
  const PATH_FLAG_USES_COMMANDS := 4
  const PATH_FLAG_NO_CURVES := 8
  const SHAPE_FLAG_TRANSFORM := 2
  const SHAPE_FLAG_HINTING := 4
  const SHAPE_FLAG_LOD_SCALE := 8
  const SHAPE_FLAG_HAS_TRANSFORMERS := 16
  const SHAPE_FLAG_TRANSLATION := 32

  /** Whether a flags byte has the bit `mask`, a power of two. */
  predicate Flag(flags: int, mask: int)
    requires mask > 0
  {
    flags / mask % 2 == 1
  }

  function Bit(on: bool, mask: int): int {
    if on then mask else 0
  }

  // -- lists of anything

  function PutMany<T>(put: T -> Written, xs: seq<T>): Written {
    if xs == [] then Success([])
    else
      var first :- put(xs[0]);
      var rest :- PutMany(put, xs[1..]);
      Success(first + rest)
  }

  function GetMany<T>(get: Bytes -> Parse<T>, n: nat, s: Bytes): (r: Parse<seq<T>>)
    ensures r.Success? ==> |r.value.0| == n
  {
    if n == 0 then Success(([], s))
    else
      var (x, s1) :- get(s);
      var (xs, s2) :- GetMany(get, n - 1, s1);
      Success(([x] + xs, s2))
  }

  function Present<T>(xs: seq<Option<T>>): seq<T> {
    if xs == [] then []
    else Present(xs[..|xs| - 1]) + if xs[|xs| - 1].Some? then [xs[|xs| - 1].value] else []
  }

  // -- numbers

  function PutByte(v: int): Written {
    if 0 <= v < 256 then Success([v]) else Failure(ByteOutOfRange)
  }

  function GetByte(s: Bytes): Parse<byte> {
    if s == [] then Failure(Truncated) else Success((s[0], s[1..]))
  }

  function GetU16(s: Bytes): Parse<int> {
    var (low, s) :- GetByte(s);
    var (high, s) :- GetByte(s);
    Success((low + 256 * high, s))
  }

  function GetU32(s: Bytes): Parse<int> {
    var (low, s) :- GetU16(s);
    var (high, s) :- GetU16(s);
    Success((low + 0x1_0000 * high, s))
  }

  function Skip(count: int, s: Bytes): Bytes
    requires count >= 0
  {
    if count <= |s| then s[count..] else []
  }

  function PutCoords(vs: seq<real>): Bytes {
    if vs == [] then [] else EncodeCoord(vs[0]) + PutCoords(vs[1..])
  }

  function GetCoord(s: Bytes): Parse<real> {
    var (b, s) :- GetByte(s);
    if b >= 128 then
      var (low, s) :- GetByte(s);
      Success((DecodeWide(b, low), s))
    else Success((DecodeNarrow(b), s))
  }

  function PutFloat24(v: real): Written {
    var code := EncodeFloat24(v);
    if code.Failure? then Failure(FloatOverflow)
    else
      CodeInRange(v);
      Success([code.value / 0x1_0000, code.value / 0x100 % 0x100, code.value % 0x100])
  }

  function GetFloat24(s: Bytes): Parse<real> {
    var (b0, s) :- GetByte(s);
    var (b1, s) :- GetByte(s);
    var (b2, s) :- GetByte(s);
    Success((DecodeFloat24(b0 * 0x1_0000 + b1 * 0x100 + b2), s))
  }

  // -- colors and styles

  function PutColor(c: Rgba, alpha: bool, gray: bool): Written {
    var r :- PutByte(c.r);
    var gb :- if gray then Success([]) else PutMany(PutByte, [c.g, c.b]);
    var a :- if alpha then PutByte(c.a) else Success([]);
    Success(r + gb + a)
  }

  function GetRgba(alpha: bool, gray: bool, s: Bytes): Parse<Rgba> {
    var (r, s) :- GetByte(s);
    var (gb, s) :- if gray then Success(([r, r], s)) else GetMany(GetByte, 2, s);
    var (a, s) :- if alpha then GetByte(s) else Success((255, s));
    Success((Rgba(r, gb[0], gb[1], a), s))
  }

  predicate AnyAlpha(stops: seq<Stop>) {
    exists i | 0 <= i < |stops| :: stops[i].color.a < 255
  }

  predicate AllGray(stops: seq<Stop>) {
    forall i | 0 <= i < |stops| :: stops[i].color.Gray()
  }

  function PutStop(alpha: bool, gray: bool): Stop -> Written {
    (stop: Stop) =>
      var offset :- PutByte(stop.offset);
      var color :- PutColor(stop.color, alpha, gray);
      Success(offset + color)
  }

  function GetStop(alpha: bool, gray: bool): Bytes -> Parse<Stop> {
    (s: Bytes) =>
      var (offset, s) :- GetByte(s);
      var (color, s) :- GetRgba(alpha, gray, s);
      Success((Stop(offset, color), s))
  }

  function SolidKind(gray: bool, alpha: bool): byte {
    if gray then (if alpha then STYLE_SOLID_GRAY else STYLE_SOLID_GRAY_NO_ALPHA)
    else (if alpha then STYLE_SOLID_COLOR else STYLE_SOLID_COLOR_NO_ALPHA)
  }

  function GradientFlags(identity: bool, alpha: bool, gray: bool): byte {
    Bit(!identity, GRADIENT_FLAG_TRANSFORM) + Bit(!alpha, GRADIENT_FLAG_NO_ALPHA) + Bit(gray, GRADIENT_FLAG_GRAYS)
  }

  function PutGradientMatrix(matrix: Matrix): Written {
    if NearIdentity(matrix, 6) then Success([]) else PutMany(PutFloat24, matrix)
  }

  function PutGradient(kind: int, matrix: Matrix, stops: seq<Stop>): Written {
    var alpha, gray := AnyAlpha(stops), AllGray(stops);
    if |stops| > 255 then Failure(TooMany)
    else
      var k :- PutByte(kind);
      var m :- PutGradientMatrix(matrix);
      var st :- PutMany(PutStop(alpha, gray), stops);
      Success(k + [GradientFlags(NearIdentity(matrix, 6), alpha, gray), |stops|] + m + st)
  }

  function PutSolid(c: Rgba): Written {
    PutColor(c, c.a < 255, c.Gray())
  }

  function PutStyle(style: Style): Written {
    match style
    case Solid(c) =>
      var color :- PutSolid(c);
      Success([SolidKind(c.Gray(), c.a < 255)] + color)
    case Gradient(kind, matrix, stops) =>
      var gradient :- PutGradient(kind, matrix, stops);
      Success([STYLE_GRADIENT] + gradient)
  }

  /** None for a style of a kind the decoder skips. */
  function GetStyle(s: Bytes): Parse<Option<Style>> {
    var (kind, s) :- GetByte(s);
    if kind == STYLE_SOLID_COLOR then GetSolid(true, false, s)
    else if kind == STYLE_SOLID_COLOR_NO_ALPHA then GetSolid(false, false, s)
    else if kind == STYLE_SOLID_GRAY then GetSolid(true, true, s)
    else if kind == STYLE_SOLID_GRAY_NO_ALPHA then GetSolid(false, true, s)
    else if kind == STYLE_GRADIENT then GetGradient(s)
    else
      var (length, s) :- GetU16(s);
      Success((None, Skip(length, s)))
  }

  function GetGradient(s: Bytes): Parse<Option<Style>> {
    var (kind, s) :- GetByte(s);
    var (flags, s) :- GetByte(s);
    var (count, s) :- GetByte(s);
    var (matrix, s) :- GetGradientMatrix(flags, s);
    var alpha, gray := !Flag(flags, GRADIENT_FLAG_NO_ALPHA), Flag(flags, GRADIENT_FLAG_GRAYS);
    var (stops, s) :- GetMany(GetStop(alpha, gray), count, s);
    Success((Some(Gradient(kind, matrix, SortStops(stops))), s))
  }

  function GetGradientMatrix(flags: byte, s: Bytes): Parse<Matrix> {
    if Flag(flags, GRADIENT_FLAG_TRANSFORM) then GetMatrix(s) else Success((IDENTITY, s))
  }

  function GetSolid(alpha: bool, gray: bool, s: Bytes): Parse<Option<Style>> {
    var (color, s) :- GetRgba(alpha, gray, s);
    Success((Some(Solid(color)), s))
  }

  function GetMatrix(s: Bytes): Parse<Matrix> {
    var (m, s) :- GetMany(GetFloat24, 6, s);
    Success((m, s))
  }

  // -- paths

  /** Where the point before stands, for a point's command. */
  datatype Position = Position(x: real, y: real)

  const ORIGIN := Position(0.0, 0.0)

  function At(p: Point): Position {
    Position(p.x, p.y)
  }

  const H_LINE := 0
  const V_LINE := 1
  const LINE := 2
  const CURVE := 3

  /** The encoder's choice for a point, and the numbers it then writes. */
  function Command(last: Position, p: Point): (c: int)
    ensures 0 <= c < 4
  {
    if !p.IsLine() then CURVE else if p.x == last.x then V_LINE else if p.y == last.y then H_LINE else LINE
  }

  function CommandNumbers(last: Position, p: Point): seq<real> {
    var c := Command(last, p);
    if c == CURVE then p.Coords() else if c == V_LINE then [p.y] else if c == H_LINE then [p.x] else [p.x, p.y]
  }

  function Commands(last: Position, points: seq<Point>): (cs: seq<int>)
    ensures |cs| == |points| && forall i | 0 <= i < |cs| :: 0 <= cs[i] < 4
    decreases |points|
  {
    if points == [] then [] else [Command(last, points[0])] + Commands(At(points[0]), points[1..])
  }

  function CommandCoords(last: Position, points: seq<Point>): Bytes
    decreases |points|
  {
    if points == [] then []
    else PutCoords(CommandNumbers(last, points[0])) + CommandCoords(At(points[0]), points[1..])
  }

  /** Four commands of two bits to a byte, the first in the low bits. */
  function PackCommands(cs: seq<int>): (r: Bytes)
    requires forall i | 0 <= i < |cs| :: 0 <= cs[i] < 4
    ensures |r| == (|cs| + 3) / 4
  {
    if cs == [] then []
    else if |cs| <= 4 then [PackFour(cs)]
    else [PackFour(cs[..4])] + PackCommands(cs[4..])
  }

  function PackFour(cs: seq<int>): (b: byte)
    requires |cs| <= 4 && forall i | 0 <= i < |cs| :: 0 <= cs[i] < 4
    ensures |cs| <= 3 ==> b < 64
    ensures |cs| <= 2 ==> b < 16
    ensures |cs| <= 1 ==> b < 4
  {
    if cs == [] then 0 else cs[0] + 4 * PackFour(cs[1..])
  }

  /** Command number j of a byte: (b >> 2 * j) & 3. */
  function UnpackCommand(b: byte, j: int): int
    requires 0 <= j < 4
    decreases j
  {
    if j == 0 then b % 4 else UnpackCommand(b / 4, j - 1)
  }

  function CountOf(cs: seq<int>, which: set<int>): (n: int)
    ensures 0 <= n <= |cs|
  {
    if cs == [] then 0 else CountOf(cs[..|cs| - 1], which) + if cs[|cs| - 1] in which then 1 else 0
  }

  /** The encoder's estimate, two bytes a number: whether either short form looks smaller. */
  predicate ShortFormsWin(points: seq<Point>) {
    var cs := Commands(ORIGIN, points);
    var straight, line, curve := CountOf(cs, {H_LINE, V_LINE}), CountOf(cs, {LINE}), CountOf(cs, {CURVE});
    |points| + straight * 2 + line * 4 + curve * 12 < |points| * 12
  }

  predicate NoCurves(points: seq<Point>) {
    CountOf(Commands(ORIGIN, points), {CURVE}) == 0
  }

  function PlainCoords(points: seq<Point>): Bytes {
    if points == [] then [] else PutCoords(points[0].Coords()) + PlainCoords(points[1..])
  }

  function LineCoords(points: seq<Point>): Bytes {
    if points == [] then [] else PutCoords([points[0].x, points[0].y]) + LineCoords(points[1..])
  }

  function PathFlags(path: Path): byte {
    var win := ShortFormsWin(path.points);
    Bit(path.closed, PATH_FLAG_CLOSED)
    + Bit(win && !NoCurves(path.points), PATH_FLAG_USES_COMMANDS)
    + Bit(win && NoCurves(path.points), PATH_FLAG_NO_CURVES)
  }

  function PathBody(points: seq<Point>): Bytes {
    if !ShortFormsWin(points) then PlainCoords(points)
    else if NoCurves(points) then LineCoords(points)
    else PackCommands(Commands(ORIGIN, points)) + CommandCoords(ORIGIN, points)
  }

  function PutPath(path: Path): Written {
    if |path.points| > 255 then Failure(TooMany)
    else Success([PathFlags(path), |path.points|] + PathBody(path.points))
  }

  function GetPlainPoint(s: Bytes): Parse<Point> {
    var (c, s) :- GetMany(GetCoord, 6, s);
    Success((Point(c[0], c[1], c[2], c[3], c[4], c[5]), s))
  }

  function GetLinePoint(s: Bytes): Parse<Point> {
    var (x, s) :- GetCoord(s);
    var (y, s) :- GetCoord(s);
    Success((LinePoint(x, y), s))
  }

  function GetCommandPoint(command: int, last: Position, s: Bytes): Parse<Point> {
    if command == H_LINE then
      var (x, s) :- GetCoord(s);
      Success((LinePoint(x, last.y), s))
    else if command == V_LINE then
      var (y, s) :- GetCoord(s);
      Success((LinePoint(last.x, y), s))
    else if command == LINE then GetLinePoint(s)
    else GetPlainPoint(s)
  }

  /** The points from number p on. */
  function GetCommandPoints(commands: Bytes, p: int, count: int, last: Position, s: Bytes): Parse<seq<Point>>
    requires 0 <= p <= count && count <= 4 * |commands|
    decreases count - p
  {
    if p == count then Success(([], s))
    else
      var (point, s) :- GetCommandPoint(UnpackCommand(commands[p / 4], p % 4), last, s);
      var (points, s) :- GetCommandPoints(commands, p + 1, count, At(point), s);
      Success(([point] + points, s))
  }

  function GetPoints(flags: byte, count: byte, s: Bytes): Parse<seq<Point>> {
    if Flag(flags, PATH_FLAG_NO_CURVES) then GetMany(GetLinePoint, count, s)
    else if Flag(flags, PATH_FLAG_USES_COMMANDS) then
      var (commands, s) :- GetMany(GetByte, (count + 3) / 4, s);
      GetCommandPoints(commands, 0, count, ORIGIN, s)
    else GetMany(GetPlainPoint, count, s)
  }

  function GetPath(s: Bytes): Parse<Path> {
    var (flags, s) :- GetByte(s);
    var (count, s) :- GetByte(s);
    var (points, s) :- GetPoints(flags, count, s);
    Success((Path(CleanUp(points), Flag(flags, PATH_FLAG_CLOSED)), s))
  }

  // -- shapes

  predicate HasLod(lod: Option<Lod>) {
    lod.Some? && lod.value != Lod(0, 255)
  }

  function ShapeFlags(shape: Shape): byte {
    var form := FormOf(shape.matrix);
    Bit(form.Full?, SHAPE_FLAG_TRANSFORM)
    + Bit(shape.hinting, SHAPE_FLAG_HINTING)
    + Bit(HasLod(shape.lod), SHAPE_FLAG_LOD_SCALE)
    + Bit(shape.transformers != [], SHAPE_FLAG_HAS_TRANSFORMERS)
    + Bit(form.Translation?, SHAPE_FLAG_TRANSLATION)
  }

  /** params[1] | (params[2] << 4), which is negative when either is. */
  function StrokeOptions(join: int, cap: int): int {
    if join < 0 || cap < 0 then -1 else Or(join, 16 * cap)
  }

  function PutTransformer(t: Transformer): Written {
    match t
    case AffineTransformer(_) => Failure(CannotWrite)
    case Contour(width, join, miter) =>
      var params :- PutMany(PutByte, [width + 128, join, miter]);
      Success([TRANSFORMER_CONTOUR] + params)
    case Perspective(matrix) =>
      var params :- PutMany(PutFloat24, matrix);
      Success([TRANSFORMER_PERSPECTIVE] + params)
    case Stroke(width, join, cap, miter) =>
      var params :- PutMany(PutByte, [width + 128, StrokeOptions(join, cap), miter]);
      Success([TRANSFORMER_STROKE] + params)
  }

  /** None for a transformer of a kind the decoder skips. */
  function GetTransformer(s: Bytes): Parse<Option<Transformer>> {
    var (kind, s) :- GetByte(s);
    if kind == TRANSFORMER_AFFINE then
      var (bits, s) :- GetMany(GetU32, 6, s);
      Success((Some(AffineTransformer(bits)), s))
    else if kind == TRANSFORMER_CONTOUR then
      var (b, s) :- GetMany(GetByte, 3, s);
      Success((Some(Contour(b[0] as int - 128, b[1], b[2])), s))
    else if kind == TRANSFORMER_PERSPECTIVE then
      var (matrix, s) :- GetMany(GetFloat24, 9, s);
      Success((Some(Perspective(matrix)), s))
    else if kind == TRANSFORMER_STROKE then
      var (b, s) :- GetMany(GetByte, 3, s);
      Success((Some(Stroke(b[0] as int - 128, b[1] % 16, b[1] / 16, b[2])), s))
    else
      var (length, s) :- GetU16(s);
      Success((None, Skip(length, s)))
  }

  function PutMatrix(matrix: Option<Matrix>): Written {
    match FormOf(matrix)
    case NoMatrix => Success([])
    case Translation => Success(PutCoords([matrix.value[4], matrix.value[5]]))
    case Full => PutMany(PutFloat24, matrix.value)
  }

  function PutLod(lod: Option<Lod>): Written {
    if HasLod(lod) then PutMany(PutByte, [lod.value.least, lod.value.most]) else Success([])
  }

  function PutTransformers(ts: seq<Transformer>): Written {
    if ts == [] then Success([])
    else
      var count :- PutByte(|ts|);
      var body :- PutMany(PutTransformer, ts);
      Success(count + body)
  }

  function PutShape(shape: Shape): Written {
    if |shape.paths| > 255 || |shape.transformers| > 255 then Failure(TooMany)
    else
      var style :- PutByte(shape.style);
      var paths :- PutMany(PutByte, shape.paths);
      var matrix :- PutMatrix(shape.matrix);
      var lod :- PutLod(shape.lod);
      var transformers :- PutTransformers(shape.transformers);
      Success([SHAPE_PATH_SOURCE] + style + [|shape.paths|] + paths + [ShapeFlags(shape)] + matrix + lod + transformers)
  }

  function GetShapeMatrix(flags: byte, s: Bytes): Parse<Option<Matrix>> {
    if Flag(flags, SHAPE_FLAG_TRANSFORM) then
      var (m, s) :- GetMatrix(s);
      Success((Some(m), s))
    else if Flag(flags, SHAPE_FLAG_TRANSLATION) then
      var (x, s) :- GetCoord(s);
      var (y, s) :- GetCoord(s);
      var m: Matrix := [1.0, 0.0, 0.0, 1.0, x, y];
      Success((Some(m), s))
    else Success((None, s))
  }

  function GetLod(flags: byte, s: Bytes): Parse<Option<Lod>> {
    if Flag(flags, SHAPE_FLAG_LOD_SCALE) then
      var (b, s) :- GetMany(GetByte, 2, s);
      Success((Some(Lod(b[0], b[1])), s))
    else Success((None, s))
  }

  function GetTransformers(flags: byte, s: Bytes): Parse<seq<Transformer>> {
    if Flag(flags, SHAPE_FLAG_HAS_TRANSFORMERS) then
      var (count, s) :- GetByte(s);
      var (ts, s) :- GetMany(GetTransformer, count, s);
      Success((Present(ts), s))
    else Success(([], s))
  }

  /** A shape, its style still the index in the file's style table; None for a shape skipped. */
  function GetShape(table: seq<Option<Style>>, pathCount: int): Bytes -> Parse<Option<Shape>> {
    (s: Bytes) => ReadShape(table, pathCount, s)
  }

  function ReadShape(table: seq<Option<Style>>, pathCount: int, s: Bytes): Parse<Option<Shape>> {
    var (kind, s) :- GetByte(s);
    if kind != SHAPE_PATH_SOURCE then
      var (length, s) :- GetU16(s);
      Success((None, Skip(length, s)))
    else
      var (style, s) :- GetByte(s);
      var (count, s) :- GetByte(s);
      var (paths, s) :- GetMany(GetByte, count, s);
      var (flags, s) :- GetByte(s);
      var (matrix, s) :- GetShapeMatrix(flags, s);
      var (lod, s) :- GetLod(flags, s);
      var (transformers, s) :- GetTransformers(flags, s);
      if style >= |table| || table[style].None? then Failure(MissingStyle(style))
      else
        Success((Some(Shape(|Present(table[..style])|, Below(paths, pathCount), matrix,
          Flag(flags, SHAPE_FLAG_HINTING), lod, transformers)), s))
  }

  // -- icons

  /** A table: how many entries, then the entries. */
  function Table(count: int, entries: Bytes): Bytes
    requires 0 <= count < 256
  {
    [count] + entries
  }

  function Encode(icon: Icon): Written {
    if |icon.styles| > 255 || |icon.paths| > 255 || |icon.shapes| > 255 then Failure(TooMany)
    else
      var styles :- PutMany(PutStyle, icon.styles);
      var paths :- PutMany(PutPath, icon.paths);
      var shapes :- PutMany(PutShape, icon.shapes);
      Success(MAGIC_BYTES + Table(|icon.styles|, styles) + Table(|icon.paths|, paths) + Table(|icon.shapes|, shapes))
  }

  function Decode(s: Bytes): Result<Icon, HvifError> {
    var (magic, s) :- GetU32(s);
    if magic != MAGIC then Failure(NotHvif)
    else
      var (count, s) :- GetByte(s);
      var (table, s) :- GetMany(GetStyle, count, s);
      var (count, s) :- GetByte(s);
      var (paths, s) :- GetMany(GetPath, count, s);
      var (count, s) :- GetByte(s);
      var (shapes, s) :- GetMany(GetShape(table, |paths|), count, s);
      Success(Icon(Present(table), paths, Present(shapes)))
  }
}
