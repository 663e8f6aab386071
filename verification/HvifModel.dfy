/** The icon an HVIF file holds: styles, paths and shapes. Numbers that Python keeps as
    unbounded integers stay int, so that what encode refuses is refused here too. */
module HvifModel {
  import opened Wrappers
  import opened HvifNumbers

  /** A point with its handles. The segment from one point to the next is a cubic with control
      points (outX, outY) of the first and (inX, inY) of the second. */
  datatype Point = Point(x: real, y: real, inX: real, inY: real, outX: real, outY: real) {
    function Coords(): seq<real> {
      [x, y, inX, inY, outX, outY]
    }

    /** No handles: only x and y need to be written. */
    predicate IsLine() {
      x == inX == outX && y == inY == outY
    }
  }

  function LinePoint(x: real, y: real): Point {
    Point(x, y, x, y, x, y)
  }

  datatype Path = Path(points: seq<Point>, closed: bool)

  datatype Rgba = Rgba(r: int, g: int, b: int, a: int) {
    predicate Gray() {
      r == g == b
    }
  }

  datatype Stop = Stop(offset: int, color: Rgba)

  type Matrix = m: seq<real> | |m| == 6 witness [1.0, 0.0, 0.0, 1.0, 0.0, 0.0]
  type Perspective9 = m: seq<real> | |m| == 9 witness [0.0, 0.0, 0.0, 0.0, 0.0, 0.0, 0.0, 0.0, 0.0]

  const IDENTITY: Matrix := [1.0, 0.0, 0.0, 1.0, 0.0, 0.0]

  datatype Style =
    | Solid(color: Rgba)
    | Gradient(kind: int, matrix: Matrix, stops: seq<Stop>)

  datatype Transformer =
    | AffineTransformer(bits: seq<int>)      // six 32-bit floats, as their bit patterns
    | Contour(width: int, join: int, miter: int)
    | Perspective(matrix: Perspective9)
    | Stroke(width: int, join: int, cap: int, miter: int)

  datatype Lod = Lod(least: int, most: int)

  datatype Shape = Shape(
    style: int,
    paths: seq<int>,
    matrix: Option<Matrix>,
    hinting: bool,
    lod: Option<Lod>,
    transformers: seq<Transformer>)

  datatype Icon = Icon(styles: seq<Style>, paths: seq<Path>, shapes: seq<Shape>)

  datatype HvifError =
    | Truncated
    | NotHvif
    | MissingStyle(index: int)
    | ByteOutOfRange
    | TooMany
    | CannotWrite
    | FloatOverflow

  // -- what the format and the normal form both speak of

  function Map<T, U>(f: T -> U, xs: seq<T>): (ys: seq<U>)
    ensures |ys| == |xs| && forall i | 0 <= i < |xs| :: ys[i] == f(xs[i])
  {
    if xs == [] then [] else [f(xs[0])] + Map(f, xs[1..])
  }

  /** Python's | on integers that are not negative. */
  function Or(a: int, b: int): (r: int)
    requires a >= 0 && b >= 0
    ensures r >= a && r >= b
    decreases a + b
  {
    if a == 0 then b
    else if b == 0 then a
    else 2 * Or(a / 2, b / 2) + if a % 2 == 1 || b % 2 == 1 then 1 else 0
  }

  /** Whether the first n entries of a matrix are within 1e-7 of the identity's. */
  predicate NearIdentity(m: Matrix, n: int)
    requires 0 <= n <= 6
  {
    forall i | 0 <= i < n :: Distance(m[i], IDENTITY[i]) < 0.0000001
  }

  /** list.sort(key=offset): stable. */
  function SortStops(stops: seq<Stop>): (r: seq<Stop>)
    ensures |r| == |stops|
  {
    if stops == [] then []
    else InsertStop(SortStops(stops[..|stops| - 1]), stops[|stops| - 1])
  }

  function InsertStop(sorted: seq<Stop>, stop: Stop): (r: seq<Stop>)
    ensures |r| == |sorted| + 1
  {
    if sorted == [] || sorted[|sorted| - 1].offset <= stop.offset then sorted + [stop]
    else InsertStop(sorted[..|sorted| - 1], stop) + [sorted[|sorted| - 1]]
  }

  datatype MatrixForm = NoMatrix | Translation | Full

  function FormOf(matrix: Option<Matrix>): MatrixForm {
    if matrix.None? || forall i | 0 <= i < 6 :: Distance(matrix.value[i], IDENTITY[i]) <= 0.0000001 then NoMatrix
    else if NearIdentity(matrix.value, 4) then Translation
    else Full
  }

  /** The paths of a shape that are there. */
  function Below(indices: seq<int>, count: int): seq<int> {
    if indices == [] then []
    else
      var last := indices[|indices| - 1];
      Below(indices[..|indices| - 1], count) + if last < count then [last] else []
  }
}
