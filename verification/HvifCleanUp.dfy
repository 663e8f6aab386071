/** clean_up: of two equal points joined by a straight segment, the first goes. */
module HvifCleanUp {
  import opened HvifModel

  /** A cubic Bezier segment. */
  datatype Segment = Segment(x0: real, y0: real, x1: real, y1: real, x2: real, y2: real, x3: real, y3: real) {
    /** All four points the same: nothing to draw. */
    predicate Degenerate() {
      x0 == x1 == x2 == x3 && y0 == y1 == y2 == y3
    }
  }

  function Between(a: Point, b: Point): Segment {
    Segment(a.x, a.y, a.outX, a.outY, b.inX, b.inY, b.x, b.y)
  }

  /** Two pairs of points have the same segment exactly when they agree in all but the handles on
      their far sides. */
  lemma {:induction false} SegmentSays(a: Point, b: Point, c: Point, d: Point)
    ensures Between(a, b) == Between(c, d) <==>
      c.(inX := a.inX, inY := a.inY) == a && d.(outX := b.outX, outY := b.outY) == b
  {
  }

  /** The segments an open run of points draws, in order. */
  function Drawn(points: seq<Point>): seq<Segment> {
    var n := |points|;
    if n < 2 then []
    else
      var last := Between(points[n - 2], points[n - 1]);
      Drawn(points[..n - 1]) + if last.Degenerate() then [] else [last]
  }

  /** The segment that closes a path. */
  function Closing(points: seq<Point>): Segment
    requires points != []
  {
    Between(points[|points| - 1], points[0])
  }

  /** The test of the source: equal points, and neither handle between them used. */
  predicate Removable(a: Point, b: Point) {
    a.x == b.x && a.y == b.y && a.x == a.outX && a.y == a.outY && b.x == b.inX && b.y == b.inY
  }

  /** What clean_up makes of a list, one point at a time. */
  function CleanUp(points: seq<Point>): (r: seq<Point>)
    ensures |r| <= |points| && (points != [] ==> r != [])
  {
    if points == [] then []
    else Append(CleanUp(points[..|points| - 1]), points[|points| - 1])
  }

  function Append(kept: seq<Point>, p: Point): seq<Point> {
    var n := |kept|;
    if n > 0 && Removable(kept[n - 1], p) then
      kept[..n - 1] + [p.(inX := kept[n - 1].inX, inY := kept[n - 1].inY)]
    else kept + [p]
  }

  ghost predicate Clean(points: seq<Point>) {
    forall i | 0 < i < |points| :: !Removable(points[i - 1], points[i])
  }

  lemma {:induction false} AppendEnds(kept: seq<Point>, p: Point)
    requires kept != []
    ensures var r := Append(kept, p);
      && r[0].x == kept[0].x && r[0].y == kept[0].y && r[0].inX == kept[0].inX && r[0].inY == kept[0].inY
      && var a := r[|r| - 1];
         a.x == p.x && a.y == p.y && a.outX == p.outX && a.outY == p.outY
  {
  }

  /** The ends keep what a path's neighbours (or its closing segment) see of them. */
  lemma {:induction false} CleanUpEnds(points: seq<Point>)
    requires points != []
    ensures var r := CleanUp(points);
      && r[0].x == points[0].x && r[0].y == points[0].y
      && r[0].inX == points[0].inX && r[0].inY == points[0].inY
      && var a, b := r[|r| - 1], points[|points| - 1];
         a.x == b.x && a.y == b.y && a.outX == b.outX && a.outY == b.outY
  {
    if |points| > 1 {
      CleanUpEnds(points[..|points| - 1]);
      AppendEnds(CleanUp(points[..|points| - 1]), points[|points| - 1]);
    } else {
      assert CleanUp(points) == [points[0]];
    }
  }

  /** clean_up draws the same: the same segments in the same order, the closing one included. */
  lemma {:induction false} CleanUpDrawsTheSame(points: seq<Point>)
    ensures Drawn(CleanUp(points)) == Drawn(points)
    ensures points != [] ==> Closing(CleanUp(points)) == Closing(points)
  {
    var n := |points|;
    if n > 1 {
      CleanUpDrawsTheSame(points[..n - 1]);
      CleanUpEnds(points);
      CleanUpEnds(points[..n - 1]);
      AppendDraws(CleanUp(points[..n - 1]), points[n - 1]);
    } else if n == 1 {
      assert CleanUp(points) == points;
    }
  }

  lemma {:induction false} AppendDraws(kept: seq<Point>, p: Point)
    requires kept != []
    ensures var last := Between(kept[|kept| - 1], p);
      Drawn(Append(kept, p)) == Drawn(kept) + if last.Degenerate() then [] else [last]
  {
    var n := |kept|;
    var r := Append(kept, p);
    if Removable(kept[n - 1], p) {
      assert r[..n - 1] == kept[..n - 1];
      if n > 1 {
        assert Between(r[n - 2], r[n - 1]) == Between(kept[n - 2], kept[n - 1]);
      }
    } else {
      assert r[..n] == kept;
    }
  }

  /** Nothing is left to remove. */
  lemma {:induction false} CleanUpIsClean(points: seq<Point>)
    ensures Clean(CleanUp(points))
  {
    if points != [] {
      CleanUpIsClean(points[..|points| - 1]);
    }
  }

  /** A clean list is left alone, so cleaning up twice is cleaning up once. */
  lemma {:induction false} CleanUpKeepsClean(points: seq<Point>)
    requires Clean(points)
    ensures CleanUp(points) == points
  {
    var n := |points|;
    if n > 0 {
      var before, last := points[..n - 1], points[n - 1];
      assert points == before + [last];
      assert n > 1 ==> before[n - 2] == points[n - 2] && !Removable(points[n - 2], points[n - 1]);
      CleanUpKeepsClean(before);
      assert Append(before, last) == before + [last];
    }
  }

  lemma {:induction false} CleanUpIdempotent(points: seq<Point>)
    ensures CleanUp(CleanUp(points)) == CleanUp(points)
  {
    CleanUpIsClean(points);
    CleanUpKeepsClean(CleanUp(points));
  }

  /** What is said of every coordinate. */
  predicate PointHas(p: Point, holds: real -> bool) {
    holds(p.x) && holds(p.y) && holds(p.inX) && holds(p.inY) && holds(p.outX) && holds(p.outY)
  }

  predicate Everywhere(points: seq<Point>, holds: real -> bool) {
    forall i | 0 <= i < |points| :: PointHas(points[i], holds)
  }

  lemma {:induction false} AppendKeepsCoords(kept: seq<Point>, p: Point, holds: real -> bool)
    requires Everywhere(kept, holds) && PointHas(p, holds)
    ensures Everywhere(Append(kept, p), holds)
  {
    if kept != [] {
      var last := kept[|kept| - 1];
      assert PointHas(last, holds);
      assert PointHas(p.(inX := last.inX, inY := last.inY), holds);
    }
  }

  /** No coordinate is new. */
  lemma {:induction false} CleanUpKeepsCoords(points: seq<Point>, holds: real -> bool)
    requires Everywhere(points, holds)
    ensures Everywhere(CleanUp(points), holds)
  {
    var n := |points| - 1;
    if n >= 0 {
      CleanUpKeepsCoords(points[..n], holds);
      assert PointHas(points[n], holds);
      AppendKeepsCoords(CleanUp(points[..n]), points[n], holds);
    }
  }

  lemma {:induction false} CleanUpNext(points: seq<Point>, k: nat)
    requires k < |points|
    ensures CleanUp(points[..k + 1]) == Append(CleanUp(points[..k]), points[k])
  {
    assert points[..k + 1][..k] == points[..k];
  }

  /** Deleting the first of a removable pair and passing its handle on is what Append does. */
  lemma {:induction false} DeleteIsAppend(list: seq<Point>, i: int, kept: seq<Point>, p: Point, rest: seq<Point>)
    requires 0 < i == |kept| && list == kept + ([p] + rest) && Removable(list[i - 1], list[i])
    ensures var shorter := list[..i - 1] + list[i..];
      && |shorter| == |list| - 1
      && shorter[i - 1 := shorter[i - 1].(inX := list[i - 1].inX, inY := list[i - 1].inY)] == Append(kept, p) + rest
    ensures |Append(kept, p)| == i
  {
    assert list[i..] == [p] + rest;
    assert list[..i - 1] == kept[..i - 1];
    assert list[i - 1] == kept[i - 1] && list[i] == p;
  }

  lemma {:induction false} StepIsAppend(list: seq<Point>, i: int, kept: seq<Point>, p: Point, rest: seq<Point>)
    requires 0 <= i == |kept| && list == kept + ([p] + rest) && !(i > 0 && Removable(list[i - 1], list[i]))
    ensures list == Append(kept, p) + rest && |Append(kept, p)| == i + 1
  {
    assert list == (kept + [p]) + rest;
  }

  /** What was kept of the points so far is at the front of the list, and the rest follows. */
  ghost predicate Cleaning(points: seq<Point>, list: seq<Point>, i: int, kept: seq<Point>, rest: seq<Point>) {
    && i == |kept| && list == kept + rest && |rest| <= |points|
    && rest == points[|points| - |rest|..] && kept == CleanUp(points[..|points| - |rest|])
  }

  lemma {:induction false} CleaningOn(points: seq<Point>, list: seq<Point>, i: int, kept: seq<Point>, rest: seq<Point>)
    requires Cleaning(points, list, i, kept, rest) && rest != []
    ensures var now := Append(kept, rest[0]); Cleaning(points, now + rest[1..], |now|, now, rest[1..])
  {
    CleanUpNext(points, |points| - |rest|);
  }

  /** The source's loop: deletes from the list and steps back. */
  method CleanUpLoop(points: seq<Point>) returns (list: seq<Point>)
    ensures list == CleanUp(points)
    ensures Clean(list) && Drawn(list) == Drawn(points)
    ensures points != [] ==> list != [] && Closing(list) == Closing(points)
  {
    list := points;
    var i := 0;
    ghost var kept, rest := [], points;
    while i < |list|
      invariant Cleaning(points, list, i, kept, rest)
      decreases |list| - i
    {
      ghost var p, after := rest[0], rest[1..];
      assert rest == [p] + after;
      CleaningOn(points, list, i, kept, rest);
      if i > 0 && Removable(list[i - 1], list[i]) {
        DeleteIsAppend(list, i, kept, p, after);
        var handle := list[i - 1];
        list := list[..i - 1] + list[i..];
        i := i - 1;
        list := list[i := list[i].(inX := handle.inX, inY := handle.inY)];
      } else {
        StepIsAppend(list, i, kept, p, after);
      }
      i := i + 1;
      kept, rest := Append(kept, p), after;
    }
    assert points[..|points|] == points;
    CleanUpIsClean(points);
    CleanUpDrawsTheSame(points);
  }
}
