/** What an icon is after one trip through an HVIF file, said without its bytes. */
module HvifNorm {
  import opened Wrappers
  import opened HvifNumbers
  import opened HvifModel
  import opened HvifCleanUp
  import opened Float24

  function NormNumber(v: real): real {
    if QuantizeFloat(v).Success? then QuantizeFloat(v).value else 0.0
  }

  /** Alpha above opaque is opaque. */
  function NormColor(c: Rgba): Rgba {
    c.(a := if c.a < 255 then c.a else 255)
  }

  function NormStop(stop: Stop): Stop {
    stop.(color := NormColor(stop.color))
  }

  function NormStyle(style: Style): Style {
    match style
    case Solid(color) => Solid(NormColor(color))
    case Gradient(kind, matrix, stops) =>
      Gradient(kind, NormGradientMatrix(matrix), SortStops(Map(NormStop, stops)))
  }

  function NormGradientMatrix(matrix: Matrix): Matrix {
    if NearIdentity(matrix, 6) then IDENTITY else Map(NormNumber, matrix)
  }

  function NormPoint(p: Point): Point {
    Point(QuantizeCoord(p.x), QuantizeCoord(p.y), QuantizeCoord(p.inX), QuantizeCoord(p.inY),
      QuantizeCoord(p.outX), QuantizeCoord(p.outY))
  }

  function NormPath(path: Path): Path {
    Path(CleanUp(Map(NormPoint, path.points)), path.closed)
  }

  /** A join that does not fit its four bits runs into the cap. */
  function NormTransformer(t: Transformer): Transformer {
    match t
    case AffineTransformer(_) => t
    case Contour(_, _, _) => t
    case Perspective(matrix) => Perspective(Map(NormNumber, matrix))
    case Stroke(width, join, cap, miter) =>
      if join >= 0 && cap >= 0 then Stroke(width, join % 16, Or(join / 16, cap), miter) else t
  }

  function NormMatrix(matrix: Option<Matrix>): Option<Matrix> {
    match FormOf(matrix)
    case NoMatrix => None
    case Translation =>
      Some([1.0, 0.0, 0.0, 1.0, QuantizeCoord(matrix.value[4]), QuantizeCoord(matrix.value[5])])
    case Full => Some(Map(NormNumber, matrix.value))
  }

  /** The full range of detail is no range at all. */
  function NormLod(lod: Option<Lod>): Option<Lod> {
    if lod == Some(Lod(0, 255)) then None else lod
  }

  function NormShape(pathCount: int, shape: Shape): Shape {
    Shape(shape.style, Below(shape.paths, pathCount), NormMatrix(shape.matrix), shape.hinting,
      NormLod(shape.lod), Map(NormTransformer, shape.transformers))
  }

  function Norm(icon: Icon): Icon {
    Icon(Map(NormStyle, icon.styles), Map(NormPath, icon.paths), NormShapes(|icon.paths|, icon.shapes))
  }

  function NormShapes(pathCount: int, shapes: seq<Shape>): (r: seq<Shape>)
    ensures |r| == |shapes| && forall i | 0 <= i < |r| :: r[i] == NormShape(pathCount, shapes[i])
  {
    if shapes == [] then [] else [NormShape(pathCount, shapes[0])] + NormShapes(pathCount, shapes[1..])
  }
}
