/** Polygons of paths, their signed areas, and the directions fix_winding gives them. */
module Winding {
  import opened HvifModel

  datatype Spot = Spot(x: real, y: real)

  // -- flatten

  function Bezier(p0: Spot, p1: Spot, p2: Spot, p3: Spot, t: real): Spot {
    var u := 1.0 - t;
    Spot(Cubic(u, t, p0.x, p1.x, p2.x, p3.x), Cubic(u, t, p0.y, p1.y, p2.y, p3.y))
  }

  function Cubic(u: real, t: real, p: real, q: real, r: real, s: real): real {
    u * u * u * p + 3.0 * u * u * t * q + 3.0 * u * t * t * r + t * t * t * s
  }

  function At(p: Point): Spot {
    Spot(p.x, p.y)
  }

  predicate Straight(a: Point, b: Point) {
    a.outX == a.x && a.outY == a.y && b.inX == b.x && b.inY == b.y
  }

  function Sample(a: Point, b: Point, s: int, steps: int): Spot
    requires steps > 0
  {
    Bezier(At(a), Spot(a.outX, a.outY), Spot(b.inX, b.inY), At(b), s as real / steps as real)
  }

  /** The first n samples of a curved segment, after its start. */
  function Samples(a: Point, b: Point, n: nat, steps: int): (r: seq<Spot>)
    requires steps > 0
    ensures |r| == n && forall s | 0 <= s < n :: r[s] == Sample(a, b, s + 1, steps)
  {
    if n == 0 then [] else Samples(a, b, n - 1, steps) + [Sample(a, b, n, steps)]
  }

  function SegmentSpots(a: Point, b: Point, steps: int): (r: seq<Spot>)
    requires steps > 0
    ensures r != []
  {
    if Straight(a, b) then [At(b)] else Samples(a, b, steps, steps)
  }

  /** The point after number i, around the path. */
  function Next(points: seq<Point>, i: int): Point
    requires 0 <= i < |points|
  {
    points[if i + 1 < |points| then i + 1 else 0]
  }

  function FlattenTo(points: seq<Point>, n: int, steps: int): (r: seq<Spot>)
    requires 0 <= n <= |points| && points != [] && steps > 0
    ensures r != []
  {
    if n == 0 then [At(points[0])]
    else FlattenTo(points, n - 1, steps) + SegmentSpots(points[n - 1], Next(points, n - 1), steps)
  }

  function Flatten(path: Path, steps: int): seq<Spot>
    requires steps > 0
  {
    if path.points == [] then []
    else FlattenTo(path.points, if path.closed then |path.points| else |path.points| - 1, steps)
  }

  function Swapped(p: Point): Point {
    Point(p.x, p.y, p.outX, p.outY, p.inX, p.inY)
  }

  function Reversed(points: seq<Point>): (r: seq<Point>)
    ensures |r| == |points| && forall i | 0 <= i < |r| :: r[i] == Swapped(points[|points| - 1 - i])
  {
    if points == [] then [] else [Swapped(points[|points| - 1])] + Reversed(points[..|points| - 1])
  }

  function ReversePath(path: Path): Path {
    Path(Reversed(path.points), path.closed)
  }

  // -- sums over the edges of a polygon

  type Weight = (Spot, Spot) -> real

  /** The sum over the edges from one spot to the next. */
  function EdgeSum(f: Weight, spots: seq<Spot>): real {
    var n := |spots|;
    if n < 2 then 0.0 else EdgeSum(f, spots[..n - 1]) + f(spots[n - 2], spots[n - 1])
  }

  /** ... and back from the last to the first. */
  function PolygonSum(f: Weight, spots: seq<Spot>): real {
    if spots == [] then 0.0 else EdgeSum(f, spots) + f(spots[|spots| - 1], spots[0])
  }

  function Cross(a: Spot, b: Spot): real {
    a.x * b.y - b.x * a.y
  }

  function SignedArea(polygon: seq<Spot>): real {
    PolygonSum(Cross, polygon) / 2.0
  }

  /** Where a slanted edge meets a height. */
  function Meeting(a: Spot, b: Spot, y: real): real
    requires a.y != b.y
  {
    (b.x - a.x) * (y - a.y) / (b.y - a.y) + a.x
  }

  /** On the line through the edge's ends, between them when the height is. */
  lemma {:induction false} MeetingIsOnEdge(a: Spot, b: Spot, y: real)
    requires a.y != b.y
    ensures (Meeting(a, b, y) - a.x) * (b.y - a.y) == (b.x - a.x) * (y - a.y)
    ensures Meeting(a, b, a.y) == a.x && Meeting(a, b, b.y) == b.x
  {
  }

  /** Whether the ray to the right of q meets the edge. */
  predicate Crosses(q: Spot, a: Spot, b: Spot) {
    (a.y > q.y) != (b.y > q.y) && q.x < Meeting(a, b, q.y)
  }

  /** +1 for an edge that meets the ray going up, -1 going down. */
  function Crossing(q: Spot): Weight {
    (a: Spot, b: Spot) => if !Crosses(q, a, b) then 0.0 else if b.y > q.y then 1.0 else -1.0
  }

  function WindingNumber(q: Spot, polygon: seq<Spot>): real {
    PolygonSum(Crossing(q), polygon)
  }

  predicate CrossingsTo(q: Spot, polygon: seq<Spot>, n: int)
    requires 0 <= n <= |polygon|
  {
    if n == 0 then false
    else
      var before := polygon[if n > 1 then n - 2 else |polygon| - 1];
      CrossingsTo(q, polygon, n - 1) != Crosses(q, polygon[n - 1], before)
  }

  /** The even-odd test of the source. */
  predicate Inside(q: Spot, polygon: seq<Spot>) {
    CrossingsTo(q, polygon, |polygon|)
  }

  // -- reversal

  function Signed(flips: bool, x: real): real {
    if flips then -x else x
  }

  /** An edge turned around weighs the same, or the opposite, and one from a spot to itself nothing. */
  ghost predicate Turns(f: Weight, flips: bool) {
    (forall a, b :: f(b, a) == Signed(flips, f(a, b))) && forall a :: f(a, a) == 0.0
  }

  function Backwards(spots: seq<Spot>): (r: seq<Spot>)
    ensures |r| == |spots| && forall i | 0 <= i < |r| :: r[i] == spots[|spots| - 1 - i]
  {
    if spots == [] then [] else [spots[|spots| - 1]] + Backwards(spots[..|spots| - 1])
  }

  lemma {:induction false} EdgeSumJoins(f: Weight, a: seq<Spot>, b: seq<Spot>)
    requires a != []
    ensures EdgeSum(f, a + b) == EdgeSum(f, a) + EdgeSum(f, [a[|a| - 1]] + b)
    decreases |b|
  {
    var n := |b|;
    if n == 0 {
      assert a + b == a;
    } else {
      EdgeSumJoins(f, a, b[..n - 1]);
      assert (a + b)[..|a| + n - 1] == a + b[..n - 1];
      assert ([a[|a| - 1]] + b)[..n] == [a[|a| - 1]] + b[..n - 1];
    }
  }

  lemma {:induction false} EdgeSumTurned(f: Weight, flips: bool, spots: seq<Spot>)
    requires Turns(f, flips)
    ensures EdgeSum(f, Backwards(spots)) == Signed(flips, EdgeSum(f, spots))
    decreases |spots|
  {
    var n := |spots|;
    if n >= 2 {
      var init := spots[..n - 1];
      EdgeSumTurned(f, flips, init);
      var last := [spots[n - 1]];
      EdgeSumJoins(f, last, Backwards(init));
      FirstEdge(f, spots[n - 1], Backwards(init));
      assert Backwards(init)[0] == spots[n - 2];
      assert Backwards(spots) == last + Backwards(init);
    }
  }

  lemma {:induction false} FirstEdge(f: Weight, a: Spot, rest: seq<Spot>)
    requires rest != []
    ensures EdgeSum(f, [a] + rest) == f(a, rest[0]) + EdgeSum(f, rest)
  {
    EdgeSumJoins(f, [a, rest[0]], rest[1..]);
    assert [a, rest[0]] + rest[1..] == [a] + rest;
    assert [rest[0]] + rest[1..] == rest;
    assert EdgeSum(f, [a, rest[0]]) == EdgeSum(f, [a]) + f(a, rest[0]) by {
      assert [a, rest[0]][..1] == [a];
    }
  }

  // -- what a curve is

  /** Part of the way from one spot to another. */
  function Mix(a: Spot, b: Spot, t: real): Spot {
    Spot(Linear(1.0 - t, t, a.x, b.x), Linear(1.0 - t, t, a.y, b.y))
  }

  function Linear(u: real, t: real, a: real, b: real): real {
    u * a + t * b
  }

  /** A cubic is its four points mixed three times over, two neighbours at a time. */
  lemma {:induction false} BezierIsMixed(p0: Spot, p1: Spot, p2: Spot, p3: Spot, t: real)
    ensures var a, b, c := Mix(p0, p1, t), Mix(p1, p2, t), Mix(p2, p3, t);
      Bezier(p0, p1, p2, p3, t) == Mix(Mix(a, b, t), Mix(b, c, t), t)
  {
    MixedThrice(1.0 - t, t, p0.x, p1.x, p2.x, p3.x);
    MixedThrice(1.0 - t, t, p0.y, p1.y, p2.y, p3.y);
  }

  lemma {:induction false} MixedThrice(u: real, t: real, p: real, q: real, r: real, s: real)
    ensures var a, b, c := Linear(u, t, p, q), Linear(u, t, q, r), Linear(u, t, r, s);
      Linear(u, t, Linear(u, t, a, b), Linear(u, t, b, c)) == Cubic(u, t, p, q, r, s)
  {
    var a, b, c := Linear(u, t, p, q), Linear(u, t, q, r), Linear(u, t, r, s);
    assert Linear(u, t, a, b) == u * u * p + 2.0 * (u * t * q) + t * t * r;
    assert Linear(u, t, b, c) == u * u * q + 2.0 * (u * t * r) + t * t * s;
  }

  /** With its inner points at the thirds of a line a cubic runs along it evenly. */
  lemma {:induction false} EvenAlongLine(a: Spot, b: Spot, t: real)
    ensures Bezier(a, Mix(a, b, 1.0 / 3.0), Mix(a, b, 2.0 / 3.0), b, t) == Mix(a, b, t)
  {
    ThirdsAreEven(1.0 - t, t, a.x, b.x);
    ThirdsAreEven(1.0 - t, t, a.y, b.y);
  }

  lemma {:induction false} ThirdsAreEven(u: real, t: real, a: real, b: real)
    requires u + t == 1.0
    ensures var third := 1.0 / 3.0;
      var p, q := Linear(1.0 - third, third, a, b), Linear(1.0 - 2.0 / 3.0, 2.0 / 3.0, a, b);
      Cubic(u, t, a, p, q, b) == Linear(u, t, a, b)
  {
    var p, q := Linear(1.0 - 1.0 / 3.0, 1.0 / 3.0, a, b), Linear(1.0 - 2.0 / 3.0, 2.0 / 3.0, a, b);
    assert 3.0 * p == 2.0 * a + b && 3.0 * q == a + 2.0 * b;
    ThirdsExpand(a, b, p, q, u, t);
    SquareOfOne(u, t);
  }

  lemma {:induction false} ThirdsExpand(a: real, b: real, p: real, q: real, u: real, t: real)
    requires 3.0 * p == 2.0 * a + b && 3.0 * q == a + 2.0 * b
    ensures u * u * u * a + 3.0 * u * u * t * p + 3.0 * u * t * t * q + t * t * t * b
      == (u * u + 2.0 * (u * t) + t * t) * (u * a + t * b)
  {
    var v, w := u * u * t, u * t * t;
    assert 3.0 * u * u * t * p == v * (3.0 * p) && 3.0 * u * t * t * q == w * (3.0 * q);
    assert v * (2.0 * a + b) == 2.0 * (v * a) + v * b && w * (a + 2.0 * b) == w * a + 2.0 * (w * b);
  }

  lemma {:induction false} SquareOfOne(u: real, t: real)
    requires u + t == 1.0
    ensures u * u + 2.0 * (u * t) + t * t == 1.0
  {
    assert (u + t) * (u + t) == u * u + 2.0 * (u * t) + t * t;
  }

  // -- segments turned around

  lemma {:induction false} BezierTurned(p0: Spot, p1: Spot, p2: Spot, p3: Spot, t: real)
    ensures Bezier(p3, p2, p1, p0, 1.0 - t) == Bezier(p0, p1, p2, p3, t)
  {
    var u := 1.0 - t;
    assert 1.0 - u == t;
  }

  /** A segment with both its ends. */
  function Chain(a: Point, b: Point, steps: int): seq<Spot>
    requires steps > 0
  {
    [At(a)] + SegmentSpots(a, b, steps)
  }

  lemma {:induction false} Fraction(s: int, steps: int)
    requires steps > 0
    ensures (steps - s) as real / steps as real == 1.0 - s as real / steps as real
    ensures steps as real / steps as real == 1.0
  {
    var n := steps as real;
    assert (n - s as real) / n == n / n - s as real / n;
  }

  lemma {:induction false} SampleTurned(a: Point, b: Point, s: int, steps: int)
    requires steps > 0
    ensures Sample(Swapped(b), Swapped(a), steps - s, steps) == Sample(a, b, s, steps)
  {
    Fraction(s, steps);
    BezierTurned(At(a), Spot(a.outX, a.outY), Spot(b.inX, b.inY), At(b), s as real / steps as real);
  }

  lemma {:induction false} SampleEnds(a: Point, b: Point, steps: int)
    requires steps > 0
    ensures Sample(a, b, 0, steps) == At(a) && Sample(a, b, steps, steps) == At(b)
  {
    Fraction(0, steps);
    assert 0.0 / steps as real == 0.0;
  }

  lemma {:induction false} ChainAt(a: Point, b: Point, steps: int, s: int)
    requires steps > 0 && !Straight(a, b) && 0 <= s <= steps
    ensures |Chain(a, b, steps)| == steps + 1 && Chain(a, b, steps)[s] == Sample(a, b, s, steps)
  {
    SampleEnds(a, b, steps);
  }

  lemma {:induction false} ChainEnds(a: Point, b: Point, steps: int)
    requires steps > 0
    ensures var c := Chain(a, b, steps); c[0] == At(a) && c[|c| - 1] == At(b)
  {
    if !Straight(a, b) {
      ChainAt(a, b, steps, steps);
      SampleEnds(a, b, steps);
    }
  }

  lemma {:induction false} ChainTurned(a: Point, b: Point, steps: int)
    requires steps > 0
    ensures Chain(Swapped(b), Swapped(a), steps) == Backwards(Chain(a, b, steps))
  {
    var there, back := Chain(a, b, steps), Chain(Swapped(b), Swapped(a), steps);
    if !Straight(a, b) {
      ChainAt(a, b, steps, 0);
      ChainAt(Swapped(b), Swapped(a), steps, 0);
      forall s | 0 <= s <= steps
        ensures back[s] == Backwards(there)[s]
      {
        ChainAt(Swapped(b), Swapped(a), steps, s);
        ChainAt(a, b, steps, steps - s);
        SampleTurned(a, b, steps - s, steps);
      }
    }
  }

  // -- closed paths turned around

  /** The weight of the segment from point i to the next. */
  function SegmentSum(f: Weight, points: seq<Point>, i: int, steps: int): real
    requires 0 <= i < |points| && steps > 0
  {
    EdgeSum(f, Chain(points[i], Next(points, i), steps))
  }

  function SegmentSums(f: Weight, points: seq<Point>, steps: int): (ws: seq<real>)
    requires steps > 0
    ensures |ws| == |points| && forall i | 0 <= i < |ws| :: ws[i] == SegmentSum(f, points, i, steps)
  {
    seq(|points|, i requires 0 <= i < |points| => SegmentSum(f, points, i, steps))
  }

  function SumTo(ws: seq<real>, n: int): real
    requires 0 <= n <= |ws|
  {
    if n == 0 then 0.0 else SumTo(ws, n - 1) + ws[n - 1]
  }

  lemma {:induction false} FlattenEnds(points: seq<Point>, n: int, steps: int)
    requires 0 <= n <= |points| && points != [] && steps > 0
    ensures var r := FlattenTo(points, n, steps);
      r[0] == At(points[0]) && r[|r| - 1] == At(if n == 0 then points[0] else Next(points, n - 1))
  {
    if n > 0 {
      FlattenEnds(points, n - 1, steps);
      ChainEnds(points[n - 1], Next(points, n - 1), steps);
    }
  }

  lemma {:induction false} Telescope(sums: seq<real>, ws: seq<real>, n: int)
    requires |sums| == |ws| + 1 && 0 <= n <= |ws| && sums[0] == 0.0
    requires forall i | 0 <= i < |ws| :: sums[i + 1] == sums[i] + ws[i]
    ensures sums[n] == SumTo(ws, n)
  {
    if n > 0 {
      Telescope(sums, ws, n - 1);
    }
  }

  /** The sums over the first n segments, for n from 0 to all of them. */
  function FlattenSums(f: Weight, points: seq<Point>, steps: int): (r: seq<real>)
    requires points != [] && steps > 0
    ensures |r| == |points| + 1 && forall n | 0 <= n < |r| :: r[n] == EdgeSum(f, FlattenTo(points, n, steps))
  {
    seq(|points| + 1, n requires 0 <= n <= |points| => EdgeSum(f, FlattenTo(points, n, steps)))
  }

  lemma {:induction false} FlattenSumsGrow(f: Weight, points: seq<Point>, steps: int)
    requires points != [] && steps > 0
    ensures var sums, ws := FlattenSums(f, points, steps), SegmentSums(f, points, steps);
      sums[0] == 0.0 && forall i | 0 <= i < |ws| :: sums[i + 1] == sums[i] + ws[i]
  {
    forall i | 0 <= i < |points|
      ensures EdgeSum(f, FlattenTo(points, i + 1, steps))
        == EdgeSum(f, FlattenTo(points, i, steps)) + SegmentSum(f, points, i, steps)
    {
      FlattenStep(f, points, i + 1, steps);
    }
  }

  lemma {:induction false} FlattenStep(f: Weight, points: seq<Point>, n: int, steps: int)
    requires 0 < n <= |points| && steps > 0
    ensures EdgeSum(f, FlattenTo(points, n, steps))
      == EdgeSum(f, FlattenTo(points, n - 1, steps)) + SegmentSum(f, points, n - 1, steps)
  {
    FlattenEnds(points, n - 1, steps);
    SegmentAdds(f, FlattenTo(points, n - 1, steps), points[n - 1], Next(points, n - 1), steps);
  }

  lemma {:induction false} SegmentAdds(f: Weight, before: seq<Spot>, a: Point, b: Point, steps: int)
    requires before != [] && before[|before| - 1] == At(a) && steps > 0
    ensures EdgeSum(f, before + SegmentSpots(a, b, steps)) == EdgeSum(f, before) + EdgeSum(f, Chain(a, b, steps))
  {
    EdgeSumJoins(f, before, SegmentSpots(a, b, steps));
  }

  /** A closed path's polygon weighs what its segments do. */
  lemma {:induction false} ClosedSum(f: Weight, path: Path, steps: int)
    requires path.closed && path.points != [] && steps > 0
    requires forall a :: f(a, a) == 0.0
    ensures PolygonSum(f, Flatten(path, steps)) == SumTo(SegmentSums(f, path.points, steps), |path.points|)
  {
    FlattenSumsGrow(f, path.points, steps);
    Telescope(FlattenSums(f, path.points, steps), SegmentSums(f, path.points, steps), |path.points|);
    FlattenEnds(path.points, |path.points|, steps);
  }

  lemma {:induction false} SegmentTurned(f: Weight, flips: bool, points: seq<Point>, j: int, steps: int)
    requires Turns(f, flips) && 0 <= j < |points| && steps > 0
    ensures SegmentSum(f, Reversed(points), j, steps)
      == Signed(flips, SegmentSum(f, points, if j + 1 < |points| then |points| - 2 - j else |points| - 1, steps))
  {
    var n := |points|;
    var i := if j + 1 < n then n - 2 - j else n - 1;
    var a, b := points[i], Next(points, i);
    assert Reversed(points)[j] == Swapped(b) && Next(Reversed(points), j) == Swapped(a);
    ChainTurned(a, b, steps);
    EdgeSumTurned(f, flips, Chain(a, b, steps));
  }

  /** The first k segments of the reversed path are the ones before the last of the path. */
  lemma {:induction false} SumTurned(flips: bool, ws: seq<real>, back: seq<real>, k: int)
    requires |ws| == |back| && 0 <= k < |ws|
    requires forall j | 0 <= j < |ws| - 1 :: back[j] == Signed(flips, ws[|ws| - 2 - j])
    ensures SumTo(back, k) == Signed(flips, SumTo(ws, |ws| - 1) - SumTo(ws, |ws| - 1 - k))
  {
    if k > 0 {
      SumTurned(flips, ws, back, k - 1);
    }
  }

  /** Any weight of edges, summed over a reversed closed path. */
  lemma {:induction false} PolygonTurned(f: Weight, flips: bool, path: Path, steps: int)
    requires Turns(f, flips) && path.closed && path.points != [] && steps > 0
    ensures PolygonSum(f, Flatten(ReversePath(path), steps)) == Signed(flips, PolygonSum(f, Flatten(path, steps)))
  {
    var points := path.points;
    ClosedSum(f, path, steps);
    ClosedSum(f, ReversePath(path), steps);
    SumsTurned(f, flips, points, steps);
    WholeSumTurned(flips, SegmentSums(f, points, steps), SegmentSums(f, Reversed(points), steps));
  }

  /** The segments of the reversed path: all but the last in reverse, then the closing one. */
  ghost predicate Mirrored(flips: bool, ws: seq<real>, back: seq<real>) {
    && |ws| == |back| > 0
    && (forall j | 0 <= j < |ws| - 1 :: back[j] == Signed(flips, ws[|ws| - 2 - j]))
    && back[|ws| - 1] == Signed(flips, ws[|ws| - 1])
  }

  lemma {:induction false} WholeSumTurned(flips: bool, ws: seq<real>, back: seq<real>)
    requires Mirrored(flips, ws, back)
    ensures SumTo(back, |ws|) == Signed(flips, SumTo(ws, |ws|))
  {
    SumTurned(flips, ws, back, |ws| - 1);
  }

  lemma {:induction false} SumsTurned(f: Weight, flips: bool, points: seq<Point>, steps: int)
    requires Turns(f, flips) && points != [] && steps > 0
    ensures Mirrored(flips, SegmentSums(f, points, steps), SegmentSums(f, Reversed(points), steps))
  {
    var ws, back, n := SegmentSums(f, points, steps), SegmentSums(f, Reversed(points), steps), |points|;
    forall j | 0 <= j < n
      ensures back[j] == Signed(flips, ws[if j + 1 < n then n - 2 - j else n - 1])
    {
      OneTurned(f, flips, points, j, steps);
    }
  }

  lemma {:induction false} OneTurned(f: Weight, flips: bool, points: seq<Point>, j: int, steps: int)
    requires Turns(f, flips) && 0 <= j < |points| && steps > 0
    ensures SegmentSums(f, Reversed(points), steps)[j]
      == Signed(flips, SegmentSums(f, points, steps)[if j + 1 < |points| then |points| - 2 - j else |points| - 1])
  {
    SegmentTurned(f, flips, points, j, steps);
  }

  lemma {:induction false} CrossTurns()
    ensures Turns(Cross, true)
  {
  }

  /** Reversing a closed path of lines and cubics negates its area. */
  lemma {:induction false} ReversedArea(path: Path, steps: int)
    requires path.closed && steps > 0
    ensures SignedArea(Flatten(ReversePath(path), steps)) == -SignedArea(Flatten(path, steps))
  {
    if path.points != [] {
      CrossTurns();
      PolygonTurned(Cross, true, path, steps);
    }
  }

  // -- the even-odd test and the winding number

  lemma {:induction false} CrossesTurned(q: Spot, a: Spot, b: Spot)
    ensures Crosses(q, a, b) == Crosses(q, b, a)
    ensures !Crosses(q, a, a)
  {
    if (a.y > q.y) != (b.y > q.y) {
      SameMeeting(a, b, q.y);
    }
  }

  /** It does not matter from which end of the edge that is measured. */
  lemma {:induction false} SameMeeting(a: Spot, b: Spot, y: real)
    requires a.y != b.y
    ensures Meeting(a, b, y) == Meeting(b, a, y)
  {
    var h, w := b.y - a.y, b.x - a.x;
    var u, v := w * (y - a.y) / h, (-w) * (y - b.y) / (-h);
    assert u * h == w * (y - a.y);
    assert v * (-h) == (-w) * (y - b.y);
    Cancel(u, v, h, w, y, a.y);
  }

  lemma {:induction false} Cancel(u: real, v: real, h: real, w: real, y: real, ay: real)
    requires h != 0.0 && u * h == w * (y - ay) && v * (-h) == (-w) * (y - (ay + h))
    ensures u == v + w
  {
    assert (u - v - w) * h == 0.0;
  }

  lemma {:induction false} CrossingTurns(q: Spot)
    ensures Turns(Crossing(q), true)
  {
    forall a, b
      ensures Crossing(q)(b, a) == -Crossing(q)(a, b)
    {
      CrossesTurned(q, a, b);
    }
    forall a
      ensures Crossing(q)(a, a) == 0.0
    {
      CrossesTurned(q, a, a);
    }
  }

  /** Reversing a closed path reverses how often it winds around any spot. */
  lemma {:induction false} ReversedWinding(q: Spot, path: Path, steps: int)
    requires path.closed && steps > 0
    ensures WindingNumber(q, Flatten(ReversePath(path), steps)) == -WindingNumber(q, Flatten(path, steps))
  {
    if path.points != [] {
      CrossingTurns(q);
      PolygonTurned(Crossing(q), true, path, steps);
    }
  }

  predicate Odd(w: real) {
    w.Floor as real == w && w.Floor % 2 == 1
  }

  predicate Even(w: real) {
    w.Floor as real == w && w.Floor % 2 == 0
  }

  lemma {:induction false} ParityAdds(v: real, w: real)
    requires (Odd(v) || Even(v)) && (Odd(w) || Even(w))
    ensures Odd(v) == Odd(w) ==> Even(v + w)
    ensures Odd(v) != Odd(w) ==> Odd(v + w)
  {
    assert v + w == (v.Floor + w.Floor) as real;
    assert (v + w).Floor == v.Floor + w.Floor;
  }

  lemma {:induction false} ParityNegates(w: real)
    ensures Odd(w) ==> Odd(-w)
    ensures Even(w) ==> Even(-w)
  {
    if w.Floor as real == w {
      assert -w == (-w.Floor) as real;
      assert (-w).Floor == -w.Floor;
    }
  }

  /** The edges into spots 0, 1, ... n - 1, each from the spot before it around the polygon. */
  function CrossingSumTo(q: Spot, polygon: seq<Spot>, n: int): real
    requires 0 <= n <= |polygon|
  {
    if n == 0 then 0.0
    else
      CrossingSumTo(q, polygon, n - 1) + Crossing(q)(polygon[if n > 1 then n - 2 else |polygon| - 1], polygon[n - 1])
  }

  lemma {:induction false} CrossingIsOddOrNot(q: Spot, a: Spot, b: Spot)
    ensures if Crosses(q, a, b) then Odd(Crossing(q)(a, b)) else Even(Crossing(q)(a, b))
  {
  }

  lemma {:induction false} CrossingParity(q: Spot, polygon: seq<Spot>, n: int)
    requires 0 <= n <= |polygon|
    ensures if CrossingsTo(q, polygon, n) then Odd(CrossingSumTo(q, polygon, n)) else Even(CrossingSumTo(q, polygon, n))
  {
    if n > 0 {
      CrossingParity(q, polygon, n - 1);
      var before := polygon[if n > 1 then n - 2 else |polygon| - 1];
      CrossesTurned(q, polygon[n - 1], before);
      CrossingIsOddOrNot(q, before, polygon[n - 1]);
      ParityAdds(CrossingSumTo(q, polygon, n - 1), Crossing(q)(before, polygon[n - 1]));
    }
  }

  lemma {:induction false} CrossingSumIsEdges(q: Spot, polygon: seq<Spot>, n: int)
    requires 0 < n <= |polygon|
    ensures CrossingSumTo(q, polygon, n)
      == EdgeSum(Crossing(q), polygon[..n]) + Crossing(q)(polygon[|polygon| - 1], polygon[0])
  {
    if n > 1 {
      CrossingSumIsEdges(q, polygon, n - 1);
      assert polygon[..n][..n - 1] == polygon[..n - 1];
    }
  }

  /** The even-odd test is the parity of the winding number. */
  lemma {:induction false} InsideIsOdd(q: Spot, polygon: seq<Spot>)
    ensures Inside(q, polygon) <==> Odd(WindingNumber(q, polygon))
    ensures !Inside(q, polygon) <==> Even(WindingNumber(q, polygon))
  {
    var n := |polygon|;
    CrossingParity(q, polygon, n);
    if n > 0 {
      CrossingSumIsEdges(q, polygon, n);
      assert polygon[..n] == polygon;
    }
  }

  /** The even-odd test does not see a path's direction, nor where its polygon starts. */
  lemma {:induction false} ReversedInside(q: Spot, path: Path, steps: int)
    requires path.closed && steps > 0
    ensures Inside(q, Flatten(ReversePath(path), steps)) == Inside(q, Flatten(path, steps))
  {
    var there, back := Flatten(path, steps), Flatten(ReversePath(path), steps);
    ReversedWinding(q, path, steps);
    InsideIsOdd(q, there);
    InsideIsOdd(q, back);
    ParityNegates(WindingNumber(q, there));
  }
}
