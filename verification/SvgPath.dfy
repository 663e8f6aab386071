/** SVG path data: the tokens path_data prints and what parse_path_data makes of tokens
    (section 9.3 of SVG 2). Numbers are the reals their text stands for. */
module SvgPath {
  import opened Wrappers
  import opened Rounding
  import opened HvifModel

  datatype Letter = M | L | H | V | C | S | Q | T | A | Z

  datatype Token = Command(letter: Letter, relative: bool) | Number(value: real)

  datatype SvgError = NoCommand | NotANumber | EndsInCommand

  datatype Spot = Spot(x: real, y: real)

  datatype Curve = Curve(c1: Spot, c2: Spot, end: Spot)

  /** The trigonometry of elliptical arcs, from the start, the radii, angle and flags, and the end. */
  type ArcToCubics = (Spot, seq<real>, Spot) -> seq<Curve>

  function Count(letter: Letter): nat {
    match letter
    case M | L | T => 2
    case H | V => 1
    case C => 6
    case S | Q => 4
    case A => 7
    case Z => 0
  }

  // -- PathBuilder, as values

  datatype Builder = Builder(paths: seq<Path>, current: Option<seq<Point>>, start: Spot, pos: Spot)

  const EMPTY := Builder([], None, Spot(0.0, 0.0), Spot(0.0, 0.0))

  function Finish(b: Builder, closed: bool): Builder {
    b.(paths := b.paths + (if b.current.Some? && |b.current.value| > 1 then [Path(b.current.value, closed)] else []),
       current := None)
  }

  function Move(b: Builder, to: Spot): Builder {
    Finish(b, false).(current := Some([LinePoint(to.x, to.y)]), start := to, pos := to)
  }

  /** The list being built, started at the current position when there is none. */
  function Begun(b: Builder): (r: Builder)
    ensures r.current.Some?
    ensures b.current.Some? ==> r == b
  {
    if b.current.None? then Move(b, b.pos) else b
  }

  function Line(b: Builder, to: Spot): Builder {
    var b := Begun(b);
    b.(current := Some(b.current.value + [LinePoint(to.x, to.y)]), pos := to)
  }

  function WithOut(points: seq<Point>, out: Spot): seq<Point> {
    if points == [] then []
    else points[|points| - 1 := points[|points| - 1].(outX := out.x, outY := out.y)]
  }

  function Cubic(b: Builder, c1: Spot, c2: Spot, to: Spot): Builder {
    var b := Begun(b);
    b.(current := Some(WithOut(b.current.value, c1) + [Point(to.x, to.y, c2.x, c2.y, to.x, to.y)]), pos := to)
  }

  predicate Near(a: real, b: real) {
    -0.000001 < a - b < 0.000001
  }

  /** Back at the start: that point is the first one. */
  function Merged(points: seq<Point>): seq<Point> {
    var n := |points|;
    if n > 1 && Near(points[n - 1].x, points[0].x) && Near(points[n - 1].y, points[0].y) then
      points[0 := points[0].(inX := points[n - 1].inX, inY := points[n - 1].inY)][..n - 1]
    else points
  }

  function Close(b: Builder): Builder {
    if b.current.None? then b
    else Finish(b.(current := Some(Merged(b.current.value))), true).(pos := b.start)
  }

  function Curves(b: Builder, curves: seq<Curve>): Builder {
    if curves == [] then b
    else
      var last := curves[|curves| - 1];
      Cubic(Curves(b, curves[..|curves| - 1]), last.c1, last.c2, last.end)
  }

  // -- parse_path_data

  datatype State = State(builder: Builder, command: Option<Token>, control: Option<Spot>, quad: Option<Spot>)

  function Reflected(pos: Spot, control: Option<Spot>): Spot {
    if control.Some? then Spot(2.0 * pos.x - control.value.x, 2.0 * pos.y - control.value.y) else pos
  }

  function TwoThirds(from: Spot, to: Spot): Spot {
    Spot(from.x + 2.0 / 3.0 * (to.x - from.x), from.y + 2.0 / 3.0 * (to.y - from.y))
  }

  /** One command with its arguments. */
  function Apply(arc: ArcToCubics, letter: Letter, relative: bool, args: seq<real>, st: State): State
    requires |args| == Count(letter) && letter != Z
  {
    var b := st.builder;
    var o := if relative then b.pos else Spot(0.0, 0.0);
    var same := Some(Command(letter, relative));
    match letter
    case M => State(Move(b, Spot(o.x + args[0], o.y + args[1])), Some(Command(L, relative)), None, None)
    case L => State(Line(b, Spot(o.x + args[0], o.y + args[1])), same, None, None)
    case H => State(Line(b, Spot(o.x + args[0], b.pos.y)), same, None, None)
    case V => State(Line(b, Spot(b.pos.x, o.y + args[0])), same, None, None)
    case C =>
      var c2 := Spot(o.x + args[2], o.y + args[3]);
      State(Cubic(b, Spot(o.x + args[0], o.y + args[1]), c2, Spot(o.x + args[4], o.y + args[5])), same, Some(c2), None)
    case S =>
      var c2 := Spot(o.x + args[0], o.y + args[1]);
      State(Cubic(b, Reflected(b.pos, st.control), c2, Spot(o.x + args[2], o.y + args[3])), same, Some(c2), None)
    case Q =>
      var q, to := Spot(o.x + args[0], o.y + args[1]), Spot(o.x + args[2], o.y + args[3]);
      State(Cubic(b, TwoThirds(b.pos, q), TwoThirds(to, q), to), same, None, Some(q))
    case T =>
      var q, to := Reflected(b.pos, st.quad), Spot(o.x + args[0], o.y + args[1]);
      State(Cubic(b, TwoThirds(b.pos, q), TwoThirds(to, q), to), same, None, Some(q))
    case A =>
      var to := Spot(o.x + args[5], o.y + args[6]);
      State(Curves(b, arc(b.pos, args[..5], to)), same, None, None)
  }

  /** The numbers at the front, as float() reads them: a letter among them is not a number. */
  function Arguments(tokens: seq<Token>, n: nat): (r: Result<seq<real>, SvgError>)
    ensures r.Success? ==> |r.value| == n <= |tokens|
  {
    if exists i | 0 <= i < |tokens| && i < n :: tokens[i].Command? then Failure(NotANumber)
    else if |tokens| < n then Failure(EndsInCommand)
    else Success(Values(tokens[..n]))
  }

  function Values(tokens: seq<Token>): (vs: seq<real>)
    requires forall i | 0 <= i < |tokens| :: tokens[i].Number?
    ensures |vs| == |tokens| && forall i | 0 <= i < |vs| :: vs[i] == tokens[i].value
  {
    if tokens == [] then [] else Values(tokens[..|tokens| - 1]) + [tokens[|tokens| - 1].value]
  }

  function Run(arc: ArcToCubics, tokens: seq<Token>, st: State): Result<Builder, SvgError>
    decreases |tokens|
  {
    if tokens == [] then Success(Finish(st.builder, false))
    else if tokens[0].Command? && tokens[0].letter == Z then
      Run(arc, tokens[1..], State(Close(st.builder), None, None, None))
    else
      var command := if tokens[0].Command? then Some(tokens[0]) else st.command;
      var rest := if tokens[0].Command? then tokens[1..] else tokens;
      RunCommand(arc, command, rest, st)
  }

  function RunCommand(arc: ArcToCubics, command: Option<Token>, rest: seq<Token>, st: State): Result<Builder, SvgError>
    decreases |rest|, 0
  {
    if command.None? || command.value.Number? || command.value.letter == Z then Failure(NoCommand)
    else
      var letter := command.value.letter;
      var args :- Arguments(rest, Count(letter));
      Run(arc, rest[Count(letter)..], Apply(arc, letter, command.value.relative, args, st))
  }

  const START := State(EMPTY, None, None, None)

  function Parse(arc: ArcToCubics, tokens: seq<Token>): Result<seq<Path>, SvgError> {
    var b :- Run(arc, tokens, START);
    Success(b.paths)
  }

  // -- path_data

  /** A number as '%.4f' prints it. */
  function Fmt(v: real): real {
    RoundHalfEven(v * 10000.0) as real / 10000.0
  }

  predicate Straight(a: Point, b: Point) {
    a.outX == a.x && a.outY == a.y && b.inX == b.x && b.inY == b.y
  }

  function PrintNumbers(vs: seq<real>): seq<Token> {
    if vs == [] then [] else [Number(Fmt(vs[0]))] + PrintNumbers(vs[1..])
  }

  function PrintSegment(a: Point, b: Point): seq<Token> {
    if Straight(a, b) then [Command(L, false)] + PrintNumbers([b.x, b.y])
    else [Command(C, false)] + PrintNumbers([a.outX, a.outY, b.inX, b.inY, b.x, b.y])
  }

  /** The segments into points 1, 2, ... n. */
  function PrintSegments(points: seq<Point>, n: int): seq<Token>
    requires 0 <= n < |points|
  {
    if n == 0 then [] else PrintSegments(points, n - 1) + PrintSegment(points[n - 1], points[n])
  }

  predicate StraightClosing(points: seq<Point>)
    requires points != []
  {
    Straight(points[|points| - 1], points[0])
  }

  function PathData(path: Path): seq<Token> {
    var points := path.points;
    if points == [] then []
    else
      var n := |points|;
      [Command(M, false)] + PrintNumbers([points[0].x, points[0].y]) + PrintSegments(points, n - 1)
      + (if path.closed && !StraightClosing(points) then PrintSegment(points[n - 1], points[0]) else [])
      + (if path.closed then [Command(Z, false)] else [])
  }

  function PrintAll(paths: seq<Path>): seq<Token> {
    if paths == [] then [] else PathData(paths[0]) + PrintAll(paths[1..])
  }

  // -- what a path is after printing and parsing

  function FmtPoint(p: Point): Point {
    Point(Fmt(p.x), Fmt(p.y), Fmt(p.inX), Fmt(p.inY), Fmt(p.outX), Fmt(p.outY))
  }

  function FmtPoints(points: seq<Point>): (r: seq<Point>)
    ensures |r| == |points| && forall i | 0 <= i < |r| :: r[i] == FmtPoint(points[i])
  {
    if points == [] then [] else FmtPoints(points[..|points| - 1]) + [FmtPoint(points[|points| - 1])]
  }

  /** Nothing prints the handles before the first point and after the last of an open path. */
  function OpenEnds(points: seq<Point>): seq<Point>
    requires points != []
  {
    var first := points[0 := points[0].(inX := points[0].x, inY := points[0].y)];
    var last := first[|first| - 1];
    first[|first| - 1 := last.(outX := last.x, outY := last.y)]
  }

  function Kept(points: seq<Point>, closed: bool): seq<Path> {
    if |points| > 1 then [Path(points, closed)] else []
  }

  /** Points, all to four decimals; a last point printed the same as the first, with nothing
      but a straight closing segment between them, becomes the first; fewer than two points are
      no path. */
  function Reprinted(path: Path): seq<Path> {
    var points := FmtPoints(path.points);
    var n := |points|;
    if n < 2 then []
    else if !path.closed then [Path(OpenEnds(points), false)]
    else if StraightClosing(path.points) && points[n - 1].x == points[0].x && points[n - 1].y == points[0].y then
      Kept(points[0 := points[0].(inX := points[n - 1].inX, inY := points[n - 1].inY)][..n - 1], true)
    else [Path(points, true)]
  }

  function ReprintedAll(paths: seq<Path>): seq<Path> {
    if paths == [] then [] else Reprinted(paths[0]) + ReprintedAll(paths[1..])
  }
}
