/** fix_winding: directions under which the non-zero rule fills what the even-odd rule would. */
module FixWinding {
  import opened HvifModel
  import opened Winding

  const STEPS: int := 8

  function Polygon(path: Path): seq<Spot> {
    Flatten(path, STEPS)
  }

  /** Whether a subpath can contain another. */
  predicate Encloses(path: Path) {
    path.closed && |Polygon(path)| > 2
  }

  predicate InOther(q: Spot, path: Path, same: bool) {
    !same && Encloses(path) && Inside(q, Polygon(path))
  }

  function DepthTo(q: Spot, paths: seq<Path>, i: int, n: int): (d: nat)
    requires 0 <= n <= |paths|
  {
    if n == 0 then 0 else DepthTo(q, paths, i, n - 1) + if InOther(q, paths[n - 1], n - 1 == i) then 1 else 0
  }

  /** How many of the other subpaths contain a spot. */
  function Depth(q: Spot, paths: seq<Path>, i: int): nat {
    DepthTo(q, paths, i, |paths|)
  }

  function Probe(path: Path): Spot
    requires path.points != []
  {
    At(path.points[0])
  }

  function Directed(paths: seq<Path>, i: int): Path
    requires 0 <= i < |paths|
  {
    var path := paths[i];
    if !path.closed || |Polygon(path)| < 3 then path
    else
      EnclosingHasPoints(path);
      if (SignedArea(Polygon(path)) > 0.0) == (Depth(Probe(path), paths, i) % 2 == 0) then path else ReversePath(path)
  }

  function FixedTo(paths: seq<Path>, n: int): (r: seq<Path>)
    requires 0 <= n <= |paths|
    ensures |r| == n && forall i | 0 <= i < n :: r[i] == Directed(paths, i)
  {
    if n == 0 then [] else FixedTo(paths, n - 1) + [Directed(paths, n - 1)]
  }

  function Fixed(paths: seq<Path>): (r: seq<Path>)
    ensures |r| == |paths|
  {
    FixedTo(paths, |paths|)
  }

  lemma {:induction false} EnclosingHasPoints(path: Path)
    requires |Polygon(path)| >= 3
    ensures path.points != []
  {
  }

  // -- what the result's directions mean

  lemma {:induction false} LongFlattening(points: seq<Point>, n: int, steps: int)
    requires 0 <= n <= |points| && points != [] && steps > 0
    ensures |FlattenTo(points, n, steps)| >= n + 1
  {
    if n > 0 {
      LongFlattening(points, n - 1, steps);
    }
  }

  lemma {:induction false} EnclosesTurned(path: Path)
    ensures Encloses(ReversePath(path)) == Encloses(path)
  {
    var n := |path.points|;
    if path.closed && n > 0 {
      LongFlattening(path.points, n, STEPS);
      LongFlattening(Reversed(path.points), n, STEPS);
      if n == 1 {
        var p := path.points[0];
        assert Reversed(path.points) == [Swapped(p)];
        assert FlattenTo(path.points, 1, STEPS) == FlattenTo(path.points, 0, STEPS) + SegmentSpots(p, p, STEPS);
        assert FlattenTo([Swapped(p)], 1, STEPS)
          == FlattenTo([Swapped(p)], 0, STEPS) + SegmentSpots(Swapped(p), Swapped(p), STEPS);
      }
    }
  }

  lemma {:induction false} DirectedIsSame(paths: seq<Path>, i: int, q: Spot)
    requires 0 <= i < |paths|
    ensures var r := Directed(paths, i);
      && Encloses(r) == Encloses(paths[i])
      && (Encloses(r) ==> Inside(q, Polygon(r)) == Inside(q, Polygon(paths[i])))
  {
    EnclosesTurned(paths[i]);
    if Encloses(paths[i]) {
      ReversedInside(q, paths[i], STEPS);
    }
  }

  lemma {:induction false} InOtherStays(q: Spot, paths: seq<Path>, j: int, same: bool)
    requires 0 <= j < |paths|
    ensures InOther(q, Directed(paths, j), same) == InOther(q, paths[j], same)
  {
    DirectedIsSame(paths, j, q);
  }

  lemma {:induction false} DepthStays(q: Spot, paths: seq<Path>, i: int, n: int)
    requires 0 <= n <= |paths|
    ensures DepthTo(q, Fixed(paths), i, n) == DepthTo(q, paths, i, n)
  {
    if n > 0 {
      DepthStays(q, paths, i, n - 1);
      InOtherStays(q, paths, n - 1, n - 1 == i);
      assert Fixed(paths)[n - 1] == Directed(paths, n - 1);
    }
  }

  /** Every subpath stays where it was, and is what it was or its reverse; open ones, and those
      with nothing inside, are not touched. A closed one of non-zero area comes out positive
      exactly when an even number of the other subpaths of the result contain it, that is its
      first point in the input. */
  lemma {:induction false} DirectionFollowsDepth(paths: seq<Path>, i: int)
    requires 0 <= i < |paths|
    ensures var path, r := paths[i], Fixed(paths)[i];
      && (r == path || r == ReversePath(path))
      && (!Encloses(path) ==> r == path)
      && (Encloses(path) && SignedArea(Polygon(path)) != 0.0 ==>
            path.points != []
            && SignedArea(Polygon(r)) != 0.0
            && (SignedArea(Polygon(r)) > 0.0 <==> Depth(Probe(path), Fixed(paths), i) % 2 == 0))
  {
    var path := paths[i];
    if Encloses(path) {
      EnclosingHasPoints(path);
      ReversedArea(path, STEPS);
      DepthStays(Probe(path), paths, i, |paths|);
    }
  }

  // -- a curve that must be left as it is

  /** M28 60 C0 0 64 0 36 60 Z. */
  const BALLOON: Path := Path([Point(28.0, 60.0, 28.0, 60.0, 0.0, 0.0), Point(36.0, 60.0, 64.0, 0.0, 36.0, 60.0)], true)

  const OUTLINE: seq<Spot> := [
    Spot(28.0, 60.0),
    Spot(1373.0 / 64.0, 645.0 / 16.0),
    Spot(171.0 / 8.0, 105.0 / 4.0),
    Spot(1639.0 / 64.0, 285.0 / 16.0),
    Spot(32.0, 15.0),
    Spot(2457.0 / 64.0, 285.0 / 16.0),
    Spot(341.0 / 8.0, 105.0 / 4.0),
    Spot(2723.0 / 64.0, 645.0 / 16.0),
    Spot(36.0, 60.0),
    Spot(28.0, 60.0)]

  lemma {:induction false} BalloonSample(s: int)
    requires 0 < s <= 8
    ensures Sample(BALLOON.points[0], BALLOON.points[1], s, 8) == OUTLINE[s]
  {
    if s == 1 {
      BalloonAt(1, 0.125, 0.875);
    } else if s == 2 {
      BalloonAt(2, 0.25, 0.75);
    } else if s == 3 {
      BalloonAt(3, 0.375, 0.625);
    } else if s == 4 {
      BalloonAt(4, 0.5, 0.5);
    } else if s == 5 {
      BalloonAt(5, 0.625, 0.375);
    } else if s == 6 {
      BalloonAt(6, 0.75, 0.25);
    } else if s == 7 {
      BalloonAt(7, 0.875, 0.125);
    } else {
      BalloonAt(8, 1.0, 0.0);
    }
  }

  lemma {:induction false} BalloonAt(s: int, t: real, u: real)
    requires s as real == 8.0 * t && u == 1.0 - t
    ensures Sample(BALLOON.points[0], BALLOON.points[1], s, 8)
      == Spot(28.0 * (u * u * u) + 192.0 * (u * (t * t)) + 36.0 * (t * (t * t)),
              60.0 * (u * u * u) + 60.0 * (t * (t * t)))
  {
    assert s as real / 8.0 == t;
    CubicOf(u, t, 28.0, 0.0, 64.0, 36.0);
    CubicOf(u, t, 60.0, 0.0, 0.0, 60.0);
  }

  lemma {:induction false} CubicOf(u: real, t: real, p: real, q: real, r: real, s: real)
    ensures Cubic(u, t, p, q, r, s)
      == p * (u * u * u) + 3.0 * q * (u * u * t) + 3.0 * r * (u * (t * t)) + s * (t * (t * t))
  {
  }

  lemma {:induction false} BalloonPolygon()
    ensures Polygon(BALLOON) == OUTLINE
  {
    var a, b := BALLOON.points[0], BALLOON.points[1];
    forall s | 0 < s <= 8
      ensures Samples(a, b, 8, 8)[s - 1] == OUTLINE[s]
    {
      BalloonSample(s);
    }
    assert FlattenTo(BALLOON.points, 0, 8) == [OUTLINE[0]];
    assert FlattenTo(BALLOON.points, 1, 8) == [OUTLINE[0]] + Samples(a, b, 8, 8);
    assert FlattenTo(BALLOON.points, 1, 8) == OUTLINE[..9];
    assert FlattenTo(BALLOON.points, 2, 8) == OUTLINE[..9] + [OUTLINE[9]];
  }

  lemma {:induction false} OneMoreEdge(spots: seq<Spot>, n: int, sum: real)
    requires 0 < n < |spots| && EdgeSum(Cross, spots[..n]) == sum
    ensures EdgeSum(Cross, spots[..n + 1]) == sum + Cross(spots[n - 1], spots[n])
  {
    assert spots[..n + 1][..n] == spots[..n];
  }

  lemma {:induction false} BalloonArea()
    ensures SignedArea(OUTLINE) == 95445.0 / 128.0
  {
    assert OUTLINE[..1] == [OUTLINE[0]];
    OneMoreEdge(OUTLINE, 1, 0.0);
    OneMoreEdge(OUTLINE, 2, -2535.0 / 16.0);
    OneMoreEdge(OUTLINE, 3, -116985.0 / 256.0);
    OneMoreEdge(OUTLINE, 4, -95805.0 / 128.0);
    OneMoreEdge(OUTLINE, 5, -119595.0 / 128.0);
    OneMoreEdge(OUTLINE, 6, -120345.0 / 128.0);
    OneMoreEdge(OUTLINE, 7, -177075.0 / 256.0);
    OneMoreEdge(OUTLINE, 8, -5775.0 / 64.0);
    OneMoreEdge(OUTLINE, 9, 64725.0 / 64.0);
    assert OUTLINE[..10] == OUTLINE;
  }

  /** It is nowhere inside another, and its area is positive already. */
  lemma {:induction false} BalloonStays()
    ensures Fixed([BALLOON]) == [BALLOON]
  {
    BalloonPolygon();
    BalloonArea();
    var paths := [BALLOON];
    assert DepthTo(Probe(BALLOON), paths, 0, 0) == 0 && Depth(Probe(BALLOON), paths, 0) == 0;
    assert Directed(paths, 0) == BALLOON;
    assert FixedTo(paths, 0) == [] && FixedTo(paths, 1) == [] + [BALLOON];
  }

  // -- the loops

  method CurveLoop(a: Point, b: Point, steps: int) returns (out: seq<Spot>)
    requires steps > 0
    ensures out == Samples(a, b, steps, steps)
  {
    out := [];
    for s := 1 to steps + 1
      invariant out == Samples(a, b, s - 1, steps)
    {
      out := out + [Sample(a, b, s, steps)];
    }
  }

  method FlattenLoop(path: Path, steps: int) returns (out: seq<Spot>)
    requires steps > 0
    ensures out == Flatten(path, steps)
  {
    var pts := path.points;
    if pts == [] {
      return [];
    }
    var count := if path.closed then |pts| else |pts| - 1;
    out := [At(pts[0])];
    for i := 0 to count
      invariant out == FlattenTo(pts, i, steps)
    {
      var a, b := pts[i], pts[(i + 1) % |pts|];
      NextWraps(pts, i);
      if Straight(a, b) {
        out := out + [At(b)];
      } else {
        var samples := CurveLoop(a, b, steps);
        out := out + samples;
      }
    }
  }

  lemma {:induction false} NextWraps(points: seq<Point>, i: int)
    requires 0 <= i < |points|
    ensures points[(i + 1) % |points|] == Next(points, i)
  {
  }

  /** The cross products of the first n edges, each from a spot to the next around the polygon. */
  function CrossSumTo(polygon: seq<Spot>, n: int): real
    requires 0 <= n <= |polygon|
  {
    if n == 0 then 0.0
    else CrossSumTo(polygon, n - 1) + Cross(polygon[n - 1], polygon[if n < |polygon| then n else 0])
  }

  lemma {:induction false} CrossSumIsEdges(polygon: seq<Spot>, n: int)
    requires 0 <= n < |polygon|
    ensures CrossSumTo(polygon, n) == EdgeSum(Cross, polygon[..n + 1])
  {
    if n > 0 {
      CrossSumIsEdges(polygon, n - 1);
      assert polygon[..n + 1][..n] == polygon[..n];
    }
  }

  lemma {:induction false} SpotWraps(polygon: seq<Spot>, i: int)
    requires 0 <= i < |polygon|
    ensures polygon[(i + 1) % |polygon|] == polygon[if i + 1 < |polygon| then i + 1 else 0]
  {
  }

  method SignedAreaLoop(polygon: seq<Spot>) returns (area: real)
    ensures area == SignedArea(polygon)
  {
    area := 0.0;
    for i := 0 to |polygon|
      invariant area == CrossSumTo(polygon, i)
    {
      var p, q := polygon[i], polygon[(i + 1) % |polygon|];
      SpotWraps(polygon, i);
      area := area + (p.x * q.y - q.x * p.y);
    }
    if polygon != [] {
      CrossSumIsEdges(polygon, |polygon| - 1);
      assert polygon[..|polygon|] == polygon;
    }
    area := area / 2.0;
  }

  method InsideLoop(q: Spot, polygon: seq<Spot>) returns (result: bool)
    ensures result == Inside(q, polygon)
  {
    result := false;
    for i := 0 to |polygon|
      invariant result == CrossingsTo(q, polygon, i)
    {
      var a, b := polygon[i], polygon[if i > 0 then i - 1 else |polygon| - 1];
      if Crosses(q, a, b) {
        result := !result;
      }
    }
  }

  ghost predicate Polygons(polygons: seq<seq<Spot>>, paths: seq<Path>) {
    |polygons| == |paths| && forall j | 0 <= j < |paths| :: polygons[j] == Polygon(paths[j])
  }

  method DepthLoop(probe: Spot, paths: seq<Path>, polygons: seq<seq<Spot>>, i: int) returns (depth: int)
    requires Polygons(polygons, paths)
    ensures depth == Depth(probe, paths, i)
  {
    depth := 0;
    for j := 0 to |paths|
      invariant depth == DepthTo(probe, paths, i, j)
    {
      if j != i && |polygons[j]| > 2 && paths[j].closed {
        var within := InsideLoop(probe, polygons[j]);
        depth := depth + if within then 1 else 0;
      }
    }
  }

  method DirectLoop(paths: seq<Path>, polygons: seq<seq<Spot>>, i: int) returns (path: Path)
    requires Polygons(polygons, paths) && 0 <= i < |paths|
    ensures path == Directed(paths, i)
  {
    path := paths[i];
    if !path.closed || |polygons[i]| < 3 {
      return;
    }
    EnclosingHasPoints(path);
    FlattenEnds(path.points, |path.points|, STEPS);
    var depth := DepthLoop(polygons[i][0], paths, polygons, i);
    var area := SignedAreaLoop(polygons[i]);
    var positive := area > 0.0;
    if positive != (depth % 2 == 0) {
      path := ReversePath(path);
    }
  }

  method FixWindingLoop(paths: seq<Path>) returns (result: seq<Path>)
    ensures result == Fixed(paths)
  {
    var polygons: seq<seq<Spot>> := [];
    for i := 0 to |paths|
      invariant |polygons| == i && forall j | 0 <= j < i :: polygons[j] == Polygon(paths[j])
    {
      var polygon := FlattenLoop(paths[i], STEPS);
      polygons := polygons + [polygon];
    }
    result := [];
    for i := 0 to |paths|
      invariant result == FixedTo(paths, i)
    {
      var path := DirectLoop(paths, polygons, i);
      result := result + [path];
    }
  }
}
