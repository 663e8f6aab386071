/** Parsing what path_data printed. */
module SvgRoundTrip {
  import opened Wrappers
  import opened Rounding
  import opened HvifModel
  import opened SvgPath

  function FmtAll(vs: seq<real>): (r: seq<real>)
    ensures |r| == |vs| && forall i | 0 <= i < |r| :: r[i] == Fmt(vs[i])
  {
    if vs == [] then [] else [Fmt(vs[0])] + FmtAll(vs[1..])
  }

  lemma {:induction false} PrintedNumbers(vs: seq<real>)
    ensures |PrintNumbers(vs)| == |vs|
    ensures forall i | 0 <= i < |vs| :: PrintNumbers(vs)[i] == Number(Fmt(vs[i]))
  {
    if vs != [] {
      PrintedNumbers(vs[1..]);
    }
  }

  lemma {:induction false} ReadNumbers(vs: seq<real>, rest: seq<Token>)
    ensures Arguments(PrintNumbers(vs) + rest, |vs|) == Success(FmtAll(vs))
  {
    PrintedNumbers(vs);
    assert (PrintNumbers(vs) + rest)[..|vs|] == PrintNumbers(vs);
    assert Values(PrintNumbers(vs)) == FmtAll(vs);
  }

  /** A command with its numbers, printed and then parsed. */
  lemma {:induction false} RunPrinted(arc: ArcToCubics, letter: Letter, vs: seq<real>, rest: seq<Token>, st: State)
    requires letter != Z && |vs| == Count(letter)
    ensures Run(arc, [Command(letter, false)] + PrintNumbers(vs) + rest, st)
      == Run(arc, rest, Apply(arc, letter, false, FmtAll(vs), st))
  {
    var tokens := [Command(letter, false)] + PrintNumbers(vs) + rest;
    assert tokens[1..] == PrintNumbers(vs) + rest;
    ReadNumbers(vs, rest);
    PrintedNumbers(vs);
    assert (PrintNumbers(vs) + rest)[|vs|..] == rest;
  }

  /** At a command that path_data prints, or at the end, only the builder matters. */
  predicate Fresh(tokens: seq<Token>) {
    tokens == [] || (tokens[0].Command? && tokens[0].letter in {M, L, C, Z})
  }

  function Plain(b: Builder): State {
    State(b, None, None, None)
  }

  lemma {:induction false} RunFresh(arc: ArcToCubics, tokens: seq<Token>, st: State)
    requires Fresh(tokens)
    ensures Run(arc, tokens, st) == Run(arc, tokens, Plain(st.builder))
  {
    if tokens != [] && tokens[0].letter != Z {
      RunsCommand(arc, tokens, st);
      RunsCommand(arc, tokens, Plain(st.builder));
      CommandIsFresh(arc, tokens[0], tokens[1..], st);
    }
  }

  lemma {:induction false} RunsCommand(arc: ArcToCubics, tokens: seq<Token>, st: State)
    requires tokens != [] && tokens[0].Command? && tokens[0].letter != Z
    ensures Run(arc, tokens, st) == RunCommand(arc, Some(tokens[0]), tokens[1..], st)
  {
  }

  lemma {:induction false} CommandIsFresh(arc: ArcToCubics, command: Token, rest: seq<Token>, st: State)
    requires command.Command? && command.letter in {M, L, C}
    ensures RunCommand(arc, Some(command), rest, st) == RunCommand(arc, Some(command), rest, Plain(st.builder))
  {
    var args := Arguments(rest, Count(command.letter));
    if args.Success? {
      ApplyIsFresh(arc, command.letter, command.relative, args.value, st);
    }
  }

  lemma {:induction false} ApplyIsFresh(arc: ArcToCubics, letter: Letter, relative: bool, args: seq<real>, st: State)
    requires letter in {M, L, C} && |args| == Count(letter)
    ensures Apply(arc, letter, relative, args, st) == Apply(arc, letter, relative, args, Plain(st.builder))
  {
  }

  lemma {:induction false} Associate(a: seq<Token>, b: seq<Token>, c: seq<Token>)
    ensures a + (b + c) == a + b + c
  {
  }

  lemma {:induction false} Nothing(a: seq<Token>)
    ensures [] + a == a
  {
  }

  // -- the builder along a printed path

  function FmtSpot(x: real, y: real): Spot {
    Spot(Fmt(x), Fmt(y))
  }

  function Segment(b: Builder, p: Point, q: Point): Builder {
    if Straight(p, q) then Line(b, FmtSpot(q.x, q.y))
    else Cubic(b, FmtSpot(p.outX, p.outY), FmtSpot(q.inX, q.inY), FmtSpot(q.x, q.y))
  }

  function Segments(b: Builder, points: seq<Point>, n: int): Builder
    requires 0 <= n < |points|
  {
    if n == 0 then b else Segment(Segments(b, points, n - 1), points[n - 1], points[n])
  }

  lemma {:induction false} SegmentIsFresh(p: Point, q: Point, rest: seq<Token>)
    ensures Fresh(PrintSegment(p, q) + rest)
  {
  }

  lemma {:induction false} RunSegment(arc: ArcToCubics, p: Point, q: Point, rest: seq<Token>, b: Builder)
    requires Fresh(rest)
    ensures Run(arc, PrintSegment(p, q) + rest, Plain(b)) == Run(arc, rest, Plain(Segment(b, p, q)))
  {
    if Straight(p, q) {
      RunLine(arc, q, rest, b);
    } else {
      RunCurve(arc, p, q, rest, b);
    }
  }

  /** What a printed path is made of: a move, a segment, a close. */
  function MoveTokens(p: Point): seq<Token> {
    [Command(M, false)] + PrintNumbers([p.x, p.y])
  }

  /** Whatever it is that runs tokens, it does to a builder what they say. */
  ghost predicate Obeys<R(!new)>(run: (seq<Token>, Builder) -> R) {
    && (forall p: Point, tail, b {:trigger run(tail, Move(b, FmtSpot(p.x, p.y)))} | Fresh(tail) ::
          run(MoveTokens(p) + tail, b) == run(tail, Move(b, FmtSpot(p.x, p.y))))
    && (forall p, q, tail, b {:trigger run(tail, Segment(b, p, q))} | Fresh(tail) ::
          run(PrintSegment(p, q) + tail, b) == run(tail, Segment(b, p, q)))
    && (forall tail: seq<Token>, b {:trigger run(tail, Close(b))} ::
          run([Command(Z, false)] + tail, b) == run(tail, Close(b)))
  }

  function Runner(arc: ArcToCubics): (seq<Token>, Builder) -> Result<Builder, SvgError> {
    (tokens, b) => Run(arc, tokens, Plain(b))
  }

  lemma {:induction false} RunnerObeys(arc: ArcToCubics)
    ensures Obeys(Runner(arc))
  {
    var run := Runner(arc);
    forall p, tail, b | Fresh(tail)
      ensures run(MoveTokens(p) + tail, b) == run(tail, Move(b, FmtSpot(p.x, p.y)))
    {
      RunMove(arc, p, tail, b);
    }
    forall p, q, tail, b | Fresh(tail)
      ensures run(PrintSegment(p, q) + tail, b) == run(tail, Segment(b, p, q))
    {
      RunSegment(arc, p, q, tail, b);
    }
    forall tail: seq<Token>, b
      ensures run([Command(Z, false)] + tail, b) == run(tail, Close(b))
    {
      RunClose(arc, tail, b);
    }
  }

  lemma {:induction false} RunSegments<R(!new)>(run: (seq<Token>, Builder) -> R, points: seq<Point>, n: int,
                                                rest: seq<Token>, b: Builder)
    requires 0 <= n < |points| && Fresh(rest) && Obeys(run)
    ensures run(PrintSegments(points, n) + rest, b) == run(rest, Segments(b, points, n))
  {
    if n == 0 {
      Nothing(rest);
    } else {
      SegmentIsFresh(points[n - 1], points[n], rest);
      RunSegments(run, points, n - 1, PrintSegment(points[n - 1], points[n]) + rest, b);
      RunLast(run, points, n, rest, b);
    }
  }

  lemma {:induction false} RunLast<R(!new)>(run: (seq<Token>, Builder) -> R, points: seq<Point>, n: int,
                                            rest: seq<Token>, b: Builder)
    requires 0 < n < |points| && Fresh(rest) && Obeys(run)
    requires var last := PrintSegment(points[n - 1], points[n]);
      run(PrintSegments(points, n - 1) + (last + rest), b) == run(last + rest, Segments(b, points, n - 1))
    ensures run(PrintSegments(points, n) + rest, b) == run(rest, Segments(b, points, n))
  {
    LastSegment(points, n, rest);
    RunOne(run, points[n - 1], points[n], rest, Segments(b, points, n - 1));
  }

  lemma {:induction false} RunOne<R(!new)>(run: (seq<Token>, Builder) -> R, p: Point, q: Point, rest: seq<Token>,
                                           b: Builder)
    requires Fresh(rest) && Obeys(run)
    ensures run(PrintSegment(p, q) + rest, b) == run(rest, Segment(b, p, q))
  {
  }

  lemma {:induction false} LastSegment(points: seq<Point>, n: int, rest: seq<Token>)
    requires 0 < n < |points|
    ensures PrintSegments(points, n) + rest
      == PrintSegments(points, n - 1) + (PrintSegment(points[n - 1], points[n]) + rest)
  {
    Associate(PrintSegments(points, n - 1), PrintSegment(points[n - 1], points[n]), rest);
  }

  function Opened(b: Builder, points: seq<Point>): Builder
    requires points != []
  {
    Segments(Move(b, FmtSpot(points[0].x, points[0].y)), points, |points| - 1)
  }

  function Closed(built: Builder, path: Path): Builder
    requires path.points != []
  {
    if !path.closed then built
    else if StraightClosing(path.points) then Close(built)
    else Close(Segment(built, path.points[|path.points| - 1], path.points[0]))
  }

  function Effect(b: Builder, path: Path): Builder {
    if path.points == [] then b else Closed(Opened(b, path.points), path)
  }

  lemma {:induction false} RunMove(arc: ArcToCubics, p: Point, rest: seq<Token>, b: Builder)
    requires Fresh(rest)
    ensures Run(arc, [Command(M, false)] + PrintNumbers([p.x, p.y]) + rest, Plain(b))
      == Run(arc, rest, Plain(Move(b, FmtSpot(p.x, p.y))))
  {
    var vs := [p.x, p.y];
    RunPrinted(arc, M, vs, rest, Plain(b));
    RunFresh(arc, rest, Apply(arc, M, false, FmtAll(vs), Plain(b)));
  }

  lemma {:induction false} RunLine(arc: ArcToCubics, q: Point, rest: seq<Token>, b: Builder)
    requires Fresh(rest)
    ensures Run(arc, [Command(L, false)] + PrintNumbers([q.x, q.y]) + rest, Plain(b))
      == Run(arc, rest, Plain(Line(b, FmtSpot(q.x, q.y))))
  {
    var vs := [q.x, q.y];
    RunPrinted(arc, L, vs, rest, Plain(b));
    RunFresh(arc, rest, Apply(arc, L, false, FmtAll(vs), Plain(b)));
  }

  lemma {:induction false} RunCurve(arc: ArcToCubics, p: Point, q: Point, rest: seq<Token>, b: Builder)
    requires Fresh(rest)
    ensures Run(arc, [Command(C, false)] + PrintNumbers([p.outX, p.outY, q.inX, q.inY, q.x, q.y]) + rest, Plain(b))
      == Run(arc, rest, Plain(Cubic(b, FmtSpot(p.outX, p.outY), FmtSpot(q.inX, q.inY), FmtSpot(q.x, q.y))))
  {
    var vs := [p.outX, p.outY, q.inX, q.inY, q.x, q.y];
    RunPrinted(arc, C, vs, rest, Plain(b));
    RunFresh(arc, rest, Apply(arc, C, false, FmtAll(vs), Plain(b)));
  }

  /** Everything after a path's move: segments, closing segment, close command. */
  function ClosingTokens(path: Path): seq<Token>
    requires path.points != []
  {
    if path.closed && !StraightClosing(path.points) then PrintSegment(path.points[|path.points| - 1], path.points[0])
      else []
  }

  function ZTokens(path: Path): seq<Token> {
    if path.closed then [Command(Z, false)] else []
  }

  lemma {:induction false} PathDataParts(path: Path, rest: seq<Token>)
    requires path.points != []
    ensures PathData(path) + rest == MoveTokens(path.points[0])
      + (PrintSegments(path.points, |path.points| - 1) + (ClosingTokens(path) + (ZTokens(path) + rest)))
  {
    var m := MoveTokens(path.points[0]);
    var s, c, z := PrintSegments(path.points, |path.points| - 1), ClosingTokens(path), ZTokens(path);
    Associate(m + s + c, z, rest);
    Associate(m + s, c, z + rest);
    Associate(m, s, c + (z + rest));
  }

  lemma {:induction false} RunPath(arc: ArcToCubics, path: Path, rest: seq<Token>, b: Builder)
    requires Fresh(rest)
    ensures Run(arc, PathData(path) + rest, Plain(b)) == Run(arc, rest, Plain(Effect(b, path)))
    ensures Fresh(PathData(path) + rest)
  {
    RunnerObeys(arc);
    PathIsFresh(path, rest);
    RunWhole(Runner(arc), path, rest, b);
  }

  lemma {:induction false} PathIsFresh(path: Path, rest: seq<Token>)
    requires Fresh(rest)
    ensures Fresh(PathData(path) + rest)
  {
    if path.points == [] {
      assert [] + rest == rest;
    } else {
      PathDataParts(path, rest);
    }
  }

  lemma {:induction false} RunWhole<R(!new)>(run: (seq<Token>, Builder) -> R, path: Path, rest: seq<Token>,
                                             b: Builder)
    requires Fresh(rest) && Obeys(run)
    ensures run(PathData(path) + rest, b) == run(rest, Effect(b, path))
  {
    if path.points == [] {
      assert [] + rest == rest;
    } else {
      PathDataParts(path, rest);
      FreshTail(path, rest);
      RunOpened(run, path.points, ClosingTokens(path) + (ZTokens(path) + rest), b);
      RunTail(run, path, rest, Opened(b, path.points));
    }
  }

  lemma {:induction false} RunOpened<R(!new)>(run: (seq<Token>, Builder) -> R, points: seq<Point>, tail: seq<Token>,
                                              b: Builder)
    requires points != [] && Fresh(tail) && Obeys(run)
    ensures run(MoveTokens(points[0]) + (PrintSegments(points, |points| - 1) + tail), b)
      == run(tail, Opened(b, points))
  {
    FreshSegments(points, |points| - 1, tail);
    RunSegments(run, points, |points| - 1, tail, Move(b, FmtSpot(points[0].x, points[0].y)));
  }

  lemma {:induction false} FirstOfSegments(points: seq<Point>, n: int)
    requires 0 < n < |points|
    ensures PrintSegments(points, n) != [] && Fresh(PrintSegments(points, n))
  {
    if n > 1 {
      FirstOfSegments(points, n - 1);
    }
  }

  lemma {:induction false} FreshSegments(points: seq<Point>, n: int, rest: seq<Token>)
    requires 0 <= n < |points| && Fresh(rest)
    ensures Fresh(PrintSegments(points, n) + rest)
  {
    if n == 0 {
      assert [] + rest == rest;
    } else {
      FirstOfSegments(points, n);
    }
  }

  lemma {:induction false} FreshTail(path: Path, rest: seq<Token>)
    requires path.points != [] && Fresh(rest)
    ensures Fresh(ClosingTokens(path) + (ZTokens(path) + rest))
  {
    if !path.closed {
      assert [] + ([] + rest) == rest;
    }
  }

  lemma {:induction false} RunClose(arc: ArcToCubics, rest: seq<Token>, b: Builder)
    ensures Run(arc, [Command(Z, false)] + rest, Plain(b)) == Run(arc, rest, Plain(Close(b)))
  {
    assert ([Command(Z, false)] + rest)[1..] == rest;
  }

  lemma {:induction false} RunTail<R(!new)>(run: (seq<Token>, Builder) -> R, path: Path, rest: seq<Token>,
                                            built: Builder)
    requires path.points != [] && Fresh(rest) && Obeys(run)
    ensures run(ClosingTokens(path) + (ZTokens(path) + rest), built) == run(rest, Closed(built, path))
  {
    var last, first := path.points[|path.points| - 1], path.points[0];
    if !path.closed {
      Nothing(rest);
    } else if StraightClosing(path.points) {
      Nothing([Command(Z, false)] + rest);
    } else {
      assert run(PrintSegment(last, first) + ([Command(Z, false)] + rest), built)
        == run([Command(Z, false)] + rest, Segment(built, last, first));
    }
  }

  // -- what the builder holds

  lemma {:induction false} FmtPointsPrefix(points: seq<Point>, n: int)
    requires 0 <= n < |points|
    ensures FmtPoints(points[..n + 1]) == FmtPoints(points[..n]) + [FmtPoint(points[n])]
  {
    assert points[..n + 1][..n] == points[..n];
  }

  /** One more point with the handles its segment gives it and its predecessor. */
  lemma {:induction false} OpenEndsGrow(points: seq<Point>, p: Point)
    requires points != []
    ensures var last := points[|points| - 1];
      OpenEnds(points + [p]) == WithOut(OpenEnds(points), Spot(last.outX, last.outY))
        + [Point(p.x, p.y, p.inX, p.inY, p.x, p.y)]
  {
  }

  /** A builder in the middle of a path. */
  predicate Holds(b: Builder, paths: seq<Path>, points: seq<Point>, start: Spot) {
    b.paths == paths && b.current == Some(points) && b.start == start
  }

  lemma {:induction false} SegmentHolds(b: Builder, paths: seq<Path>, before: seq<Point>, start: Spot, p: Point,
                                        q: Point)
    requires before != [] && before[|before| - 1] == FmtPoint(p) && Holds(b, paths, OpenEnds(before), start)
    ensures Holds(Segment(b, p, q), paths, OpenEnds(before + [FmtPoint(q)]), start)
  {
    OpenEndsGrow(before, FmtPoint(q));
    if Straight(p, q) {
      UnusedOut(before, p);
    }
  }

  lemma {:induction false} OpenedHolds(b: Builder, points: seq<Point>, n: int)
    requires 0 <= n < |points|
    ensures var start := FmtSpot(points[0].x, points[0].y);
      Holds(Segments(Move(b, start), points, n), Finish(b, false).paths, OpenEnds(FmtPoints(points[..n + 1])), start)
  {
    var start := FmtSpot(points[0].x, points[0].y);
    if n == 0 {
      assert points[..1] == [points[0]];
      assert FmtPoints([points[0]]) == [FmtPoint(points[0])];
      assert OpenEnds([FmtPoint(points[0])]) == [LinePoint(start.x, start.y)];
    } else {
      OpenedHolds(b, points, n - 1);
      FmtPointsPrefix(points, n);
      SegmentHolds(Segments(Move(b, start), points, n - 1), Finish(b, false).paths, FmtPoints(points[..n]), start,
        points[n - 1], points[n]);
    }
  }

  lemma {:induction false} UnusedOut(points: seq<Point>, p: Point)
    requires points != [] && points[|points| - 1] == FmtPoint(p) && p.outX == p.x && p.outY == p.y
    ensures WithOut(OpenEnds(points), FmtSpot(p.outX, p.outY)) == OpenEnds(points)
  {
  }

  /** The decimals are coarser than the tolerance of close(): near is equal. */
  lemma {:induction false} NearIsEqual(x: real, y: real)
    ensures Near(Fmt(x), Fmt(y)) <==> Fmt(x) == Fmt(y)
  {
    TenThousandths(RoundHalfEven(x * 10000.0), RoundHalfEven(y * 10000.0));
  }

  lemma {:induction false} TenThousandths(m: int, n: int)
    ensures Near(m as real / 10000.0, n as real / 10000.0) <==> m == n
  {
    if m < n {
      assert m as real <= n as real - 1.0;
    } else if m > n {
      assert m as real >= n as real + 1.0;
    }
  }

  /** What a path leaves behind: itself as printed, once the next move or the end finishes it. */
  lemma {:induction false} EffectHolds(b: Builder, path: Path)
    ensures Finish(Effect(b, path), false).paths == Finish(b, false).paths + Reprinted(path)
  {
    var points := path.points;
    if points != [] {
      var start := FmtSpot(points[0].x, points[0].y);
      OpenedHolds(b, points, |points| - 1);
      assert points[..|points|] == points;
      if path.closed {
        ClosedHolds(Opened(b, points), Finish(b, false).paths, path, start);
        NothingToFinish(Effect(b, path));
      } else {
        OpenHolds(Opened(b, points), Finish(b, false).paths, path, start);
      }
    } else {
      assert FmtPoints(points) == [];
    }
  }

  lemma {:induction false} NothingToFinish(b: Builder)
    requires b.current.None?
    ensures Finish(b, false).paths == b.paths
  {
  }

  lemma {:induction false} OpenHolds(built: Builder, paths: seq<Path>, path: Path, start: Spot)
    requires path.points != [] && !path.closed && Holds(built, paths, OpenEnds(FmtPoints(path.points)), start)
    ensures Finish(built, false).paths == paths + Reprinted(path)
  {
  }

  lemma {:induction false} ClosedHolds(built: Builder, paths: seq<Path>, path: Path, start: Spot)
    requires path.points != [] && path.closed && Holds(built, paths, OpenEnds(FmtPoints(path.points)), start)
    ensures Closed(built, path).current.None? && Closed(built, path).paths == paths + Reprinted(path)
  {
    var points, r := path.points, FmtPoints(path.points);
    var first, last := points[0], points[|points| - 1];
    if StraightClosing(points) {
      UsedEnds(r, points);
      NearIsEqual(last.x, first.x);
      NearIsEqual(last.y, first.y);
      CloseHolds(built, paths, r, start);
    } else {
      var back := Point(Fmt(first.x), Fmt(first.y), Fmt(first.inX), Fmt(first.inY), Fmt(first.x), Fmt(first.y));
      var more := Segment(built, last, first);
      SegmentAdds(built, paths, OpenEnds(r), start, last, first);
      ClosedCurve(r, first, last);
      CloseHolds(more, paths, WithOut(OpenEnds(r), FmtSpot(last.outX, last.outY)) + [back], start);
    }
  }

  lemma {:induction false} SegmentAdds(b: Builder, paths: seq<Path>, points: seq<Point>, start: Spot, p: Point,
                                       q: Point)
    requires Holds(b, paths, points, start) && !Straight(p, q)
    ensures Holds(Segment(b, p, q), paths, WithOut(points, FmtSpot(p.outX, p.outY))
      + [Point(Fmt(q.x), Fmt(q.y), Fmt(q.inX), Fmt(q.inY), Fmt(q.x), Fmt(q.y))], start)
  {
  }

  lemma {:induction false} CloseHolds(b: Builder, paths: seq<Path>, points: seq<Point>, start: Spot)
    requires Holds(b, paths, points, start)
    ensures Close(b).current.None? && Close(b).paths == paths + Kept(Merged(points), true)
  {
  }

  /** A straight closing segment uses neither handle, so the open ends are the points' own. */
  lemma {:induction false} UsedEnds(r: seq<Point>, points: seq<Point>)
    requires points != [] && r == FmtPoints(points) && StraightClosing(points)
    ensures OpenEnds(r) == r
  {
  }

  /** A curved closing segment ends in a copy of the first point, which close() merges away. */
  lemma {:induction false} ClosedCurve(r: seq<Point>, first: Point, last: Point)
    requires r != [] && r[0] == FmtPoint(first) && r[|r| - 1] == FmtPoint(last)
    ensures Merged(WithOut(OpenEnds(r), FmtSpot(last.outX, last.outY))
        + [Point(Fmt(first.x), Fmt(first.y), Fmt(first.inX), Fmt(first.inY), Fmt(first.x), Fmt(first.y))]) == r
  {
  }

  function EffectAll(b: Builder, paths: seq<Path>): Builder
    decreases |paths|
  {
    if paths == [] then b else EffectAll(Effect(b, paths[0]), paths[1..])
  }

  lemma {:induction false} PrintAllFresh(paths: seq<Path>)
    ensures Fresh(PrintAll(paths))
    decreases |paths|
  {
    if paths != [] {
      PrintAllFresh(paths[1..]);
      if paths[0].points == [] {
        assert [] + PrintAll(paths[1..]) == PrintAll(paths[1..]);
      }
    }
  }

  lemma {:induction false} RunAll(arc: ArcToCubics, paths: seq<Path>, b: Builder)
    ensures Run(arc, PrintAll(paths), Plain(b)) == Success(Finish(EffectAll(b, paths), false))
    decreases |paths|
  {
    if paths != [] {
      PrintAllFresh(paths[1..]);
      RunPath(arc, paths[0], PrintAll(paths[1..]), b);
      RunAll(arc, paths[1..], Effect(b, paths[0]));
    }
  }

  lemma {:induction false} EffectAllHolds(b: Builder, paths: seq<Path>)
    ensures Finish(EffectAll(b, paths), false).paths == Finish(b, false).paths + ReprintedAll(paths)
    decreases |paths|
  {
    if paths != [] {
      EffectHolds(b, paths[0]);
      EffectAllHolds(Effect(b, paths[0]), paths[1..]);
      AssociatePaths(Finish(b, false).paths, Reprinted(paths[0]), ReprintedAll(paths[1..]));
    } else {
      assert Finish(b, false).paths + [] == Finish(b, false).paths;
    }
  }

  lemma {:induction false} AssociatePaths(a: seq<Path>, b: seq<Path>, c: seq<Path>)
    ensures a + (b + c) == a + b + c
  {
  }

  /** Print, then parse: every list of paths comes back as it is to four decimals. */
  lemma {:induction false} PrintThenParse(arc: ArcToCubics, paths: seq<Path>)
    ensures Parse(arc, PrintAll(paths)) == Success(ReprintedAll(paths))
  {
    RunAll(arc, paths, EMPTY);
    EffectAllHolds(EMPTY, paths);
    assert Finish(EMPTY, false).paths == [];
    assert [] + ReprintedAll(paths) == ReprintedAll(paths);
  }

  // -- when nothing is lost

  predicate Decimal(p: Point) {
    FmtPoint(p) == p
  }

  predicate UnusedEnds(points: seq<Point>)
    requires points != []
  {
    var first, last := points[0], points[|points| - 1];
    first.inX == first.x && first.inY == first.y && last.outX == last.x && last.outY == last.y
  }

  predicate Decimals(points: seq<Point>) {
    forall i | 0 <= i < |points| :: Decimal(points[i])
  }

  /** An open path with the handles at its ends unused, or a closed one that does not return to its
      start before a straight closing segment. */
  predicate EndsReturn(path: Path)
    requires path.points != []
  {
    var first, last := path.points[0], path.points[|path.points| - 1];
    if !path.closed then UnusedEnds(path.points)
    else !(StraightClosing(path.points) && last.x == first.x && last.y == first.y)
  }

  /** Of two points or more, with at most four decimals, and with such ends. */
  predicate Returns(path: Path) {
    |path.points| >= 2 && Decimals(path.points) && EndsReturn(path)
  }

  /** These paths come back exactly, and no others. */
  lemma {:induction false} ReprintedIsExact(path: Path)
    ensures Reprinted(path) == [path] <==> Returns(path)
  {
    if |path.points| >= 2 && Decimals(path.points) {
      DecimalsReturn(path);
    } else if Reprinted(path) == [path] {
      OnlyDecimals(path);
    }
  }

  lemma {:induction false} DecimalsReturn(path: Path)
    requires |path.points| >= 2 && Decimals(path.points)
    ensures Reprinted(path) == [path] <==> EndsReturn(path)
  {
    DecimalsStay(path.points);
    if !path.closed {
      OpenEndsExact(path.points);
    }
  }

  lemma {:induction false} OnlyDecimals(path: Path)
    requires Reprinted(path) == [path]
    ensures |path.points| >= 2 && Decimals(path.points)
  {
    var points, r := path.points, FmtPoints(path.points);
    forall i | 0 <= i < |points|
      ensures Decimal(points[i])
    {
      assert r[i] == FmtPoint(points[i]);
      if path.closed {
        assert points == r;
      } else {
        assert points == OpenEnds(r);
      }
    }
  }

  /** A whole list is returned exactly when each of its paths is. */
  lemma {:induction false} ReprintedAllIsExact(paths: seq<Path>)
    ensures |ReprintedAll(paths)| <= |paths|
    ensures ReprintedAll(paths) == paths <==> forall path | path in paths :: Returns(path)
  {
    if paths != [] {
      ReprintedAllIsExact(paths[1..]);
      ReprintedIsExact(paths[0]);
      assert paths == [paths[0]] + paths[1..];
      FirstAndRest(Reprinted(paths[0]), ReprintedAll(paths[1..]), paths);
    }
  }

  lemma {:induction false} FirstAndRest(first: seq<Path>, rest: seq<Path>, paths: seq<Path>)
    requires paths != [] && |first| <= 1 && |rest| < |paths|
    ensures first + rest == paths <==> first == [paths[0]] && rest == paths[1..]
  {
    if first + rest == paths {
      assert |first| == 1 && (first + rest)[0] == first[0] && (first + rest)[1..] == rest;
    }
  }

  /** Printing and parsing is the identity on exactly these lists. */
  lemma {:induction false} PrintThenParseIsExact(arc: ArcToCubics, paths: seq<Path>)
    ensures Parse(arc, PrintAll(paths)) == Success(paths) <==> forall path | path in paths :: Returns(path)
  {
    PrintThenParse(arc, paths);
    ReprintedAllIsExact(paths);
  }

  lemma {:induction false} DecimalsStay(points: seq<Point>)
    requires Decimals(points)
    ensures FmtPoints(points) == points
  {
    var r := FmtPoints(points);
    forall i | 0 <= i < |points|
      ensures r[i] == points[i]
    {
      assert Decimal(points[i]);
    }
  }

  lemma {:induction false} OpenEndsExact(points: seq<Point>)
    requires |points| >= 2
    ensures OpenEnds(points) == points <==> UnusedEnds(points)
  {
    var r := OpenEnds(points);
    assert r[0] == points[0] <==> points[0].inX == points[0].x && points[0].inY == points[0].y;
    if UnusedEnds(points) {
      assert r == points;
    }
  }

  lemma {:induction false} FmtIsIdempotent(v: real)
    ensures Fmt(Fmt(v)) == Fmt(v)
  {
    var n := RoundHalfEven(v * 10000.0);
    assert Fmt(v) * 10000.0 == n as real;
    RoundIsUnique(n as real, n);
  }
}
