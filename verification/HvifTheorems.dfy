/** The round trip of whole icons, and what a second trip changes. */
module HvifTheorems {
  import opened Wrappers
  import opened HvifNumbers
  import opened HvifModel
  import opened HvifCleanUp
  import opened HvifFormat
  import opened HvifNorm
  import opened HvifRoundTrip
  import opened HvifPaths
  import opened HvifShapes
  import opened Float24

  // -- the three tables

  function SomeNormStyle(style: Style): Option<Style> {
    Some(NormStyle(style))
  }

  lemma {:induction false} StylesRoundTrip(styles: seq<Style>, t: Bytes)
    requires PutMany(PutStyle, styles).Success?
    ensures GetMany(GetStyle, |styles|, PutMany(PutStyle, styles).value + t) == Success((Map(SomeNormStyle, styles), t))
  {
    forall x, rest: Bytes | x in styles && PutStyle(x).Success?
      ensures GetStyle(PutStyle(x).value + rest) == Success((SomeNormStyle(x), rest))
    {
      StyleRoundTrip(x, rest);
    }
    ManyRoundTrip(PutStyle, GetStyle, SomeNormStyle, styles, t);
  }

  lemma {:induction false} PathsRoundTrip(paths: seq<Path>, t: Bytes)
    requires PutMany(PutPath, paths).Success?
    ensures GetMany(GetPath, |paths|, PutMany(PutPath, paths).value + t) == Success((Map(NormPath, paths), t))
  {
    forall x, rest: Bytes | x in paths && PutPath(x).Success?
      ensures GetPath(PutPath(x).value + rest) == Success((NormPath(x), rest))
    {
      PathRoundTrip(x, rest);
    }
    ManyRoundTrip(PutPath, GetPath, NormPath, paths, t);
  }

  /** Every shape's style is in a table of n. */
  predicate StylesInRange(shapes: seq<Shape>, n: int) {
    forall i | 0 <= i < |shapes| :: shapes[i].style < n
  }

  /** The style of the first shape whose style is not there. */
  function FirstMissing(shapes: seq<Shape>, n: int): int
    requires !StylesInRange(shapes, n)
  {
    if shapes[0].style >= n then shapes[0].style else FirstMissing(shapes[1..], n)
  }

  function SomeShapes(shapes: seq<Shape>): (r: seq<Option<Shape>>)
    ensures |r| == |shapes| && forall i | 0 <= i < |r| :: r[i] == Some(shapes[i])
  {
    if shapes == [] then [] else [Some(shapes[0])] + SomeShapes(shapes[1..])
  }

  lemma {:induction false} ShapesRoundTrip(shapes: seq<Shape>, table: seq<Option<Style>>, pathCount: int, t: Bytes)
    requires PutMany(PutShape, shapes).Success? && Complete(table)
    ensures GetMany(GetShape(table, pathCount), |shapes|, PutMany(PutShape, shapes).value + t) ==
      if StylesInRange(shapes, |table|) then Success((SomeShapes(NormShapes(pathCount, shapes)), t))
      else Failure(MissingStyle(FirstMissing(shapes, |table|)))
  {
    if shapes == [] {
      assert [] + t == t;
    } else {
      var first, rest := PutShape(shapes[0]).value, PutMany(PutShape, shapes[1..]).value;
      var get := GetShape(table, pathCount);
      Associate(first, rest, t);
      ShapeRoundTrip(shapes[0], table, pathCount, rest + t);
      ManyStep(get, |shapes|, first + (rest + t));
      StylesInRangeOfFirst(shapes, |table|);
      if shapes[0].style < |table| {
        ShapesRoundTrip(shapes[1..], table, pathCount, t);
      }
    }
  }

  lemma {:induction false} StylesInRangeOfFirst(shapes: seq<Shape>, n: int)
    requires shapes != []
    ensures StylesInRange(shapes, n) <==> shapes[0].style < n && StylesInRange(shapes[1..], n)
  {
    if shapes[0].style < n && StylesInRange(shapes[1..], n) {
      forall i | 0 <= i < |shapes|
        ensures shapes[i].style < n
      {
        assert i > 0 ==> shapes[i] == shapes[1..][i - 1];
      }
    }
  }

  // -- icons

  lemma {:induction false} MagicReads(t: Bytes)
    ensures GetU32(MAGIC_BYTES + t) == Success((MAGIC, t))
  {
    var s := MAGIC_BYTES + t;
    assert s[1..] == MAGIC_BYTES[1..] + t;
    assert s[1..][1..] == MAGIC_BYTES[2..] + t;
    assert s[1..][1..][1..] == MAGIC_BYTES[3..] + t;
    assert s[1..][1..][1..][1..] == t;
  }

  /** The header and the three tables, in the order they are read. */
  lemma {:induction false} IconReads(s1: Bytes, n1: byte, table: seq<Option<Style>>, s2: Bytes, n2: byte,
                                     paths: seq<Path>, s3: Bytes, n3: byte,
                                     shapes: Result<(seq<Option<Shape>>, Bytes), HvifError>)
    requires GetMany(GetStyle, n1, s1) == Success((table, [n2] + s2))
    requires GetMany(GetPath, n2, s2) == Success((paths, [n3] + s3))
    requires GetMany(GetShape(table, |paths|), n3, s3) == shapes
    ensures Decode(MAGIC_BYTES + ([n1] + s1)) ==
      if shapes.Failure? then Failure(shapes.error)
      else Success(Icon(Present(table), paths, Present(shapes.value.0)))
  {
    MagicReads([n1] + s1);
    assert ([n1] + s1)[1..] == s1;
    assert ([n2] + s2)[1..] == s2;
    assert ([n3] + s3)[1..] == s3;
  }

  lemma {:induction false} IconRegroup(n1: byte, styles: Bytes, n2: byte, paths: Bytes, n3: byte, shapes: Bytes,
                                       t: Bytes)
    ensures MAGIC_BYTES + Table(n1, styles) + Table(n2, paths) + Table(n3, shapes) + t
      == MAGIC_BYTES + ([n1] + (styles + ([n2] + (paths + ([n3] + (shapes + t))))))
  {
  }

  /** Whatever encode accepts, decode reads back from the front of any bytes: the normalised
      icon, or, for a shape whose style is not in the icon, that style's absence. */
  lemma {:induction false} RoundTrip(icon: Icon, trailing: Bytes)
    requires Encode(icon).Success?
    ensures Decode(Encode(icon).value + trailing) ==
      if StylesInRange(icon.shapes, |icon.styles|) then Success(Norm(icon))
      else Failure(MissingStyle(FirstMissing(icon.shapes, |icon.styles|)))
  {
    var n2 := |icon.paths|;
    var table := Map(SomeNormStyle, icon.styles);
    EncodedReads(icon, table, trailing);
    PresentAll(table, Map(NormStyle, icon.styles));
    var normShapes := NormShapes(n2, icon.shapes);
    PresentAll(SomeShapes(normShapes), normShapes);
    ShapesRoundTrip(icon.shapes, table, n2, trailing);
  }

  /** The three tables of what was written, read one after the other. */
  lemma {:induction false} EncodedReads(icon: Icon, table: seq<Option<Style>>, trailing: Bytes)
    requires Encode(icon).Success? && table == Map(SomeNormStyle, icon.styles)
    ensures |icon.paths| < 256 && |icon.shapes| < 256 && PutMany(PutShape, icon.shapes).Success?
    ensures var written := PutMany(PutShape, icon.shapes).value;
      var shapes := GetMany(GetShape(table, |icon.paths|), |icon.shapes|, written + trailing);
      Decode(Encode(icon).value + trailing) ==
        if shapes.Failure? then Failure(shapes.error)
        else Success(Icon(Present(table), Map(NormPath, icon.paths), Present(shapes.value.0)))
  {
    var n1, n2, n3 := |icon.styles|, |icon.paths|, |icon.shapes|;
    var styles, paths, shapes :=
      PutMany(PutStyle, icon.styles).value, PutMany(PutPath, icon.paths).value, PutMany(PutShape, icon.shapes).value;
    IconRegroup(n1, styles, n2, paths, n3, shapes, trailing);
    var s3 := shapes + trailing;
    var s2 := paths + ([n3] + s3);
    StylesRoundTrip(icon.styles, [n2] + s2);
    PathsRoundTrip(icon.paths, [n3] + s3);
    IconReads(styles + ([n2] + s2), n1, table, s2, n2, Map(NormPath, icon.paths), s3, n3,
      GetMany(GetShape(table, n2), n3, s3));
  }

  // -- a second trip

  predicate SortedStops(stops: seq<Stop>) {
    forall i, j | 0 <= i < j < |stops| :: stops[i].offset <= stops[j].offset
  }

  function StopsAt(stops: seq<Stop>, offset: int): seq<Stop> {
    if stops == [] then []
    else
      var last := stops[|stops| - 1];
      StopsAt(stops[..|stops| - 1], offset) + if last.offset == offset then [last] else []
  }

  lemma {:induction false} InsertStopKeeps(sorted: seq<Stop>, stop: Stop)
    ensures multiset(InsertStop(sorted, stop)) == multiset(sorted) + multiset{stop}
  {
    if sorted != [] && sorted[|sorted| - 1].offset > stop.offset {
      var init, last := sorted[..|sorted| - 1], sorted[|sorted| - 1];
      InsertStopKeeps(init, stop);
      assert sorted == init + [last];
    }
  }

  lemma {:induction false} InsertStopSorts(sorted: seq<Stop>, stop: Stop)
    requires SortedStops(sorted)
    ensures SortedStops(InsertStop(sorted, stop))
    ensures sorted == [] || InsertStop(sorted, stop)[|sorted|].offset
      == if sorted[|sorted| - 1].offset <= stop.offset then stop.offset else sorted[|sorted| - 1].offset
  {
    if sorted != [] && sorted[|sorted| - 1].offset > stop.offset {
      var init, last := sorted[..|sorted| - 1], sorted[|sorted| - 1];
      InsertStopSorts(init, stop);
      var r := InsertStop(init, stop);
      assert r[|r| - 1].offset <= last.offset;
    }
  }

  lemma {:induction false} InsertStopIsStable(sorted: seq<Stop>, stop: Stop, offset: int)
    requires SortedStops(sorted)
    ensures StopsAt(InsertStop(sorted, stop), offset)
      == StopsAt(sorted, offset) + if stop.offset == offset then [stop] else []
  {
    if sorted == [] || sorted[|sorted| - 1].offset <= stop.offset {
      assert (sorted + [stop])[..|sorted|] == sorted;
    } else {
      var init, last := sorted[..|sorted| - 1], sorted[|sorted| - 1];
      InsertStopIsStable(init, stop, offset);
      assert (InsertStop(init, stop) + [last])[..|sorted|] == InsertStop(init, stop);
      if last.offset == offset {
        assert stop.offset != offset;
      }
    }
  }

  /** The stops decode keeps: the same ones, in order of offset, those of one offset in the
      order they were. */
  lemma {:induction false} SortStopsSorts(stops: seq<Stop>)
    ensures SortedStops(SortStops(stops))
    ensures multiset(SortStops(stops)) == multiset(stops)
    ensures forall offset :: StopsAt(SortStops(stops), offset) == StopsAt(stops, offset)
  {
    if stops != [] {
      var init, last := stops[..|stops| - 1], stops[|stops| - 1];
      SortStopsSorts(init);
      assert stops == init + [last];
      InsertStopSorts(SortStops(init), last);
      InsertStopKeeps(SortStops(init), last);
      forall offset
        ensures StopsAt(SortStops(stops), offset) == StopsAt(stops, offset)
      {
        InsertStopIsStable(SortStops(init), last, offset);
      }
    }
  }

  lemma {:induction false} SortedStopsStay(stops: seq<Stop>)
    requires SortedStops(stops)
    ensures SortStops(stops) == stops
  {
    if stops != [] {
      SortedStopsStay(stops[..|stops| - 1]);
    }
  }

  lemma {:induction false} NormNumberIdempotent(v: real)
    ensures NormNumber(NormNumber(v)) == NormNumber(v)
  {
    QuantizeFloatIdempotent(v);
    Float24CodeIsCanonical(0);
  }

  lemma {:induction false} NormPointIdempotent(p: Point)
    ensures NormPoint(NormPoint(p)) == NormPoint(p)
  {
    CoordCodeIsCanonical(p.x);
    CoordCodeIsCanonical(p.y);
    CoordCodeIsCanonical(p.inX);
    CoordCodeIsCanonical(p.inY);
    CoordCodeIsCanonical(p.outX);
    CoordCodeIsCanonical(p.outY);
  }

  predicate IsQuantized(v: real) {
    QuantizeCoord(v) == v
  }

  lemma {:induction false} MapOfSettled(points: seq<Point>)
    requires Everywhere(points, IsQuantized)
    ensures Map(NormPoint, points) == points
  {
    var r := Map(NormPoint, points);
    forall i | 0 <= i < |r|
      ensures r[i] == points[i]
    {
      assert PointHas(points[i], IsQuantized);
    }
  }

  lemma {:induction false} PointsSettle(points: seq<Point>)
    ensures Everywhere(Map(NormPoint, points), IsQuantized)
  {
    forall i | 0 <= i < |points|
      ensures PointHas(Map(NormPoint, points)[i], IsQuantized)
    {
      NormPointIdempotent(points[i]);
    }
  }

  /** A decoded path survives another trip unchanged. */
  lemma {:induction false} NormPathIdempotent(path: Path)
    ensures NormPath(NormPath(path)) == NormPath(path)
  {
    var points := Map(NormPoint, path.points);
    PointsSettle(path.points);
    CleanUpKeepsCoords(points, IsQuantized);
    MapOfSettled(CleanUp(points));
    CleanUpIdempotent(points);
  }

  /** So does a transformer; and an accepted stroke is unchanged by the first trip exactly when
      its join fits four bits. */
  lemma {:induction false} NormTransformerIdempotent(t: Transformer)
    ensures NormTransformer(NormTransformer(t)) == NormTransformer(t)
    ensures t.Stroke? && PutTransformer(t).Success? ==> (NormTransformer(t) == t <==> t.join < 16)
  {
    match t
    case AffineTransformer(_) =>
    case Contour(_, _, _) =>
    case Perspective(matrix) =>
      NumbersSettle(matrix);
    case Stroke(width, join, cap, miter) =>
      if PutTransformer(t).Success? {
        SecondByte(width + 128, StrokeOptions(join, cap), miter);
      }
  }

  lemma {:induction false} NumbersSettle(m: seq<real>)
    ensures Map(NormNumber, Map(NormNumber, m)) == Map(NormNumber, m)
  {
    var once := Map(NormNumber, m);
    forall i | 0 <= i < |m|
      ensures NormNumber(once[i]) == once[i]
    {
      NormNumberIdempotent(m[i]);
    }
  }

  /** A second trip leaves a style as it is, except that a matrix may have come within 1e-7 of
      the identity by being cut to 24 bits: then the identity is what is left. */
  lemma {:induction false} StyleSettles(style: Style)
    ensures style.Solid? ==> NormStyle(NormStyle(style)) == NormStyle(style)
    ensures style.Gradient? ==>
      NormStyle(NormStyle(style)) ==
        if NearIdentity(NormGradientMatrix(style.matrix), 6) then NormStyle(style).(matrix := IDENTITY)
        else NormStyle(style)
  {
    if style.Gradient? {
      GradientMatrixSettles(style.matrix);
      StopsSettle(style.stops);
    }
  }

  lemma {:induction false} GradientMatrixSettles(matrix: Matrix)
    ensures NormGradientMatrix(NormGradientMatrix(matrix)) ==
      if NearIdentity(NormGradientMatrix(matrix), 6) then IDENTITY else NormGradientMatrix(matrix)
  {
    NumbersSettle(matrix);
  }

  lemma {:induction false} StopsSettle(stops: seq<Stop>)
    ensures var once := SortStops(Map(NormStop, stops)); SortStops(Map(NormStop, once)) == once
  {
    var normal := Map(NormStop, stops);
    var once := SortStops(normal);
    SortStopsSorts(normal);
    forall i | 0 <= i < |once|
      ensures NormStop(once[i]) == once[i]
    {
      assert once[i] in multiset(normal);
    }
    assert Map(NormStop, once) == once;
    SortedStopsStay(once);
  }

  function Moved(x: real, y: real): Matrix {
    [1.0, 0.0, 0.0, 1.0, QuantizeCoord(x), QuantizeCoord(y)]
  }

  /** What a second trip leaves of a shape's matrix: all of it when quantising has not changed the
      form it is written in; nothing when it has come to the identity; a move when 24 bits have
      cut a full matrix to one. By the third it has settled. */
  lemma {:induction false} MatrixSettles(matrix: Option<Matrix>)
    ensures var first := NormMatrix(matrix);
      NormMatrix(first) ==
        if FormOf(first) == FormOf(matrix) then first
        else if FormOf(first) == NoMatrix then None
        else Some(Moved(first.value[4], first.value[5]))
    ensures NormMatrix(NormMatrix(NormMatrix(NormMatrix(matrix)))) == NormMatrix(NormMatrix(NormMatrix(matrix)))
  {
    SecondTrip(matrix);
    SecondTrip(NormMatrix(matrix));
    SecondTrip(NormMatrix(NormMatrix(matrix)));
  }

  lemma {:induction false} SecondTrip(matrix: Option<Matrix>)
    ensures var first := NormMatrix(matrix);
      NormMatrix(first) ==
        if FormOf(first) == FormOf(matrix) then first
        else if FormOf(first) == NoMatrix then None
        else Some(Moved(first.value[4], first.value[5]))
    ensures FormOf(NormMatrix(matrix)) != FormOf(matrix)
      ==> FormOf(NormMatrix(matrix)) != Full && FormOf(matrix) != NoMatrix
    ensures FormOf(matrix) == Translation ==> FormOf(NormMatrix(matrix)) != Full
  {
    match FormOf(matrix)
    case NoMatrix =>
    case Full => NumbersSettle(matrix.value);
    case Translation =>
      CoordCodeIsCanonical(matrix.value[4]);
      CoordCodeIsCanonical(matrix.value[5]);
  }

  /** ... as it does for a move of less than 0.005 units, which the second trip drops. */
  lemma {:induction false} SmallMoveCollapses()
    ensures var m: Option<Matrix> := Some([1.0, 0.0, 0.0, 1.0, 0.004, 0.0]);
      NormMatrix(m).Some? && NormMatrix(NormMatrix(m)).None?
  {
    var m: Matrix := [1.0, 0.0, 0.0, 1.0, 0.004, 0.0];
    assert Distance(m[4], IDENTITY[4]) == 0.004;
    assert FormOf(Some(m)) == Translation;
    Rounding.RoundIsUnique(0.004, 0);
    assert QuantizeCoord(0.004) == 0.0 && QuantizeCoord(0.0) == 0.0;
    assert NormMatrix(Some(m)) == Some([1.0, 0.0, 0.0, 1.0, 0.0, 0.0]);
  }
}
