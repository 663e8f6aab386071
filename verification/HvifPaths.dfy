/** The three forms a path is written in: each decodes to the same points, and the form chosen
    is never the longest. */
module HvifPaths {
  import opened Wrappers
  import opened HvifNumbers
  import opened HvifModel
  import opened HvifCleanUp
  import opened HvifFormat
  import opened HvifNorm
  import opened HvifRoundTrip

  // -- the plain form, and the form without curves

  lemma {:induction false} PointRoundTrip(p: Point, t: Bytes)
    ensures GetPlainPoint(PutCoords(p.Coords()) + t) == Success((NormPoint(p), t))
  {
    CoordsRoundTrip(p.Coords(), t);
  }

  lemma {:induction false} LinePointRoundTrip(p: Point, t: Bytes)
    ensures GetLinePoint(PutCoords([p.x, p.y]) + t) == Success((LinePoint(QuantizeCoord(p.x), QuantizeCoord(p.y)), t))
  {
    assert [p.x, p.y][1..] == [p.y];
    assert PutCoords([p.y]) == EncodeCoord(p.y) + PutCoords([]);
    assert PutCoords([p.x, p.y]) == EncodeCoord(p.x) + EncodeCoord(p.y);
    assert PutCoords([p.x, p.y]) + t == EncodeCoord(p.x) + (EncodeCoord(p.y) + t);
    CoordRoundTrip(p.x, EncodeCoord(p.y) + t);
    CoordRoundTrip(p.y, t);
  }

  lemma {:induction false} PlainRoundTrip(points: seq<Point>, t: Bytes)
    ensures GetMany(GetPlainPoint, |points|, PlainCoords(points) + t) == Success((Map(NormPoint, points), t))
  {
    if points == [] {
      assert [] + t == t;
    } else {
      var rest := PlainCoords(points[1..]) + t;
      assert PlainCoords(points) + t == PutCoords(points[0].Coords()) + rest;
      PointRoundTrip(points[0], rest);
      PlainRoundTrip(points[1..], t);
    }
  }

  lemma {:induction false} LineRoundTrip(points: seq<Point>, t: Bytes)
    requires forall i | 0 <= i < |points| :: points[i].IsLine()
    ensures GetMany(GetLinePoint, |points|, LineCoords(points) + t) == Success((Map(NormPoint, points), t))
  {
    if points == [] {
      assert [] + t == t;
    } else {
      var rest := LineCoords(points[1..]) + t;
      assert LineCoords(points) + t == PutCoords([points[0].x, points[0].y]) + rest;
      LinePointRoundTrip(points[0], rest);
      assert points[0].IsLine();
      LineRoundTrip(points[1..], t);
    }
  }

  // -- commands

  lemma {:induction false} CommandAt(last: Position, points: seq<Point>, i: int)
    requires 0 <= i < |points|
    ensures Commands(last, points)[i] == Command(if i == 0 then last else At(points[i - 1]), points[i])
    decreases i
  {
    if i > 0 {
      CommandAt(At(points[0]), points[1..], i - 1);
    }
  }

  lemma {:induction false} NotCounted(cs: seq<int>, which: int)
    requires CountOf(cs, {which}) == 0
    ensures which !in cs
  {
    if cs != [] {
      NotCounted(cs[..|cs| - 1], which);
    }
  }

  lemma {:induction false} NoCurvesAreLines(points: seq<Point>)
    requires NoCurves(points)
    ensures forall i | 0 <= i < |points| :: points[i].IsLine()
  {
    var cs := Commands(ORIGIN, points);
    NotCounted(cs, CURVE);
    forall i | 0 <= i < |points|
      ensures points[i].IsLine()
    {
      CommandAt(ORIGIN, points, i);
      assert cs[i] in cs;
    }
  }

  lemma {:induction false} UnpackFour(cs: seq<int>, j: int)
    requires |cs| <= 4 && (forall i | 0 <= i < |cs| :: 0 <= cs[i] < 4) && 0 <= j < |cs|
    ensures UnpackCommand(PackFour(cs), j) == cs[j]
    decreases j
  {
    if j > 0 {
      UnpackFour(cs[1..], j - 1);
    }
  }

  lemma {:induction false} UnpackPacked(cs: seq<int>, p: int)
    requires (forall i | 0 <= i < |cs| :: 0 <= cs[i] < 4) && 0 <= p < |cs|
    ensures UnpackCommand(PackCommands(cs)[p / 4], p % 4) == cs[p]
  {
    if |cs| <= 4 {
      UnpackFour(cs, p);
    } else if p < 4 {
      UnpackFour(cs[..4], p);
    } else {
      UnpackPacked(cs[4..], p - 4);
    }
  }

  function NormPosition(last: Position): Position {
    Position(QuantizeCoord(last.x), QuantizeCoord(last.y))
  }

  /** The encoder compares the points as they are, the decoder repeats the number it decoded:
      the same, because equal numbers are written and so read back equal. */
  lemma {:induction false} CommandPointRoundTrip(last: Position, p: Point, t: Bytes)
    ensures GetCommandPoint(Command(last, p), NormPosition(last), PutCoords(CommandNumbers(last, p)) + t)
      == Success((NormPoint(p), t))
  {
    var c := Command(last, p);
    if c == CURVE {
      PointRoundTrip(p, t);
    } else if c == LINE {
      LinePointRoundTrip(p, t);
    } else {
      var v := if c == V_LINE then p.y else p.x;
      assert PutCoords([v]) == EncodeCoord(v);
      CoordRoundTrip(v, t);
    }
  }

  /** The commands from number p on, as the decoder will unpack them. */
  function Unpacked(commands: Bytes, p: int, count: int): (cs: seq<int>)
    requires 0 <= p <= count <= 4 * |commands|
    ensures |cs| == count - p && forall i | 0 <= i < |cs| :: cs[i] == UnpackCommand(commands[(p + i) / 4], (p + i) % 4)
    decreases count - p
  {
    if p == count then []
    else [UnpackCommand(commands[p / 4], p % 4)] + Unpacked(commands, p + 1, count)
  }

  lemma {:induction false} UnpackedPacked(cs: seq<int>)
    requires forall i | 0 <= i < |cs| :: 0 <= cs[i] < 4
    ensures Unpacked(PackCommands(cs), 0, |cs|) == cs
  {
    forall i | 0 <= i < |cs|
      ensures Unpacked(PackCommands(cs), 0, |cs|)[i] == cs[i]
    {
      UnpackPacked(cs, i);
    }
  }

  lemma {:induction false} HeadsAgree(commands: Bytes, p: int, count: int, last: Position, points: seq<Point>)
    requires 0 <= p <= count <= 4 * |commands| && points != []
    requires Unpacked(commands, p, count) == Commands(last, points)
    ensures p < count && UnpackCommand(commands[p / 4], p % 4) == Command(last, points[0])
    ensures Unpacked(commands, p + 1, count) == Commands(At(points[0]), points[1..])
  {
    assert Unpacked(commands, p, count)[0] == Commands(last, points)[0];
    assert Commands(last, points)[1..] == Commands(At(points[0]), points[1..]);
    assert Unpacked(commands, p, count)[1..] == Unpacked(commands, p + 1, count);
  }

  lemma {:induction false} CommandStep(commands: Bytes, p: int, count: int, last: Position, s: Bytes,
                                       point: Point, s1: Bytes, points: seq<Point>, t: Bytes)
    requires 0 <= p < count <= 4 * |commands|
    requires GetCommandPoint(UnpackCommand(commands[p / 4], p % 4), last, s) == Success((point, s1))
    requires GetCommandPoints(commands, p + 1, count, At(point), s1) == Success((points, t))
    ensures GetCommandPoints(commands, p, count, last, s) == Success(([point] + points, t))
  {
  }

  lemma {:induction false} CommandPointsRoundTrip(commands: Bytes, p: int, count: int, last: Position,
                                                  points: seq<Point>, t: Bytes)
    requires 0 <= p <= count <= 4 * |commands|
    requires Unpacked(commands, p, count) == Commands(last, points)
    ensures GetCommandPoints(commands, p, count, NormPosition(last), CommandCoords(last, points) + t)
      == Success((Map(NormPoint, points), t))
    decreases |points|
  {
    if points == [] {
      assert [] + t == t;
    } else {
      var next := At(points[0]);
      var numbers, rest := PutCoords(CommandNumbers(last, points[0])), CommandCoords(next, points[1..]);
      HeadsAgree(commands, p, count, last, points);
      CommandPointRoundTrip(last, points[0], rest + t);
      CommandPointsRoundTrip(commands, p + 1, count, next, points[1..], t);
      CommandStep(commands, p, count, NormPosition(last), numbers + (rest + t), NormPoint(points[0]), rest + t,
        Map(NormPoint, points[1..]), t);
      Associate(numbers, rest, t);
    }
  }

  lemma {:induction false} CommandFormRoundTrip(points: seq<Point>, t: Bytes)
    ensures var commands := PackCommands(Commands(ORIGIN, points));
      GetCommandPoints(commands, 0, |points|, ORIGIN, CommandCoords(ORIGIN, points) + t)
        == Success((Map(NormPoint, points), t))
  {
    UnpackedPacked(Commands(ORIGIN, points));
    CommandPointsRoundTrip(PackCommands(Commands(ORIGIN, points)), 0, |points|, ORIGIN, points, t);
    assert NormPosition(ORIGIN) == ORIGIN;
  }

  lemma {:induction false} RawBytesRoundTrip(bytes: Bytes, t: Bytes)
    ensures GetMany(GetByte, |bytes|, bytes + t) == Success((bytes, t))
  {
    if bytes == [] {
      assert [] + t == t;
    } else {
      RawBytesRoundTrip(bytes[1..], t);
      assert (bytes + t)[1..] == bytes[1..] + t;
      assert [bytes[0]] + bytes[1..] == bytes;
    }
  }

  // -- whichever form is chosen

  lemma {:induction false} PathFlagsRead(path: Path)
    ensures var flags, win := PathFlags(path), ShortFormsWin(path.points);
      && Flag(flags, PATH_FLAG_CLOSED) == path.closed
      && Flag(flags, PATH_FLAG_USES_COMMANDS) == (win && !NoCurves(path.points))
      && Flag(flags, PATH_FLAG_NO_CURVES) == (win && NoCurves(path.points))
  {
  }

  lemma {:induction false} PointsRoundTrip(path: Path, t: Bytes)
    requires |path.points| < 256
    ensures GetPoints(PathFlags(path), |path.points|, PathBody(path.points) + t)
      == Success((Map(NormPoint, path.points), t))
  {
    var points := path.points;
    PathFlagsRead(path);
    if !ShortFormsWin(points) {
      PlainRoundTrip(points, t);
    } else if NoCurves(points) {
      NoCurvesAreLines(points);
      LineRoundTrip(points, t);
    } else {
      var commands, coords := PackCommands(Commands(ORIGIN, points)), CommandCoords(ORIGIN, points);
      Associate(commands, coords, t);
      RawBytesRoundTrip(commands, coords + t);
      CommandFormRoundTrip(points, t);
      assert GetPoints(PathFlags(path), |points|, commands + (coords + t))
        == GetCommandPoints(commands, 0, |points|, ORIGIN, coords + t);
    }
  }

  /** A path decodes to its quantised points cleaned up, in whichever form it was written. */
  lemma {:induction false} PathRoundTrip(path: Path, t: Bytes)
    requires PutPath(path).Success?
    ensures GetPath(PutPath(path).value + t) == Success((NormPath(path), t))
  {
    var rest := PathBody(path.points) + t;
    assert PutPath(path).value + t == [PathFlags(path), |path.points|] + rest;
    PathHead(PathFlags(path), |path.points|, rest);
    PointsRoundTrip(path, t);
    PathFlagsRead(path);
  }

  lemma {:induction false} PathHead(flags: byte, count: byte, rest: Bytes)
    ensures GetPath([flags, count] + rest) ==
      var points := GetPoints(flags, count, rest);
      if points.Failure? then Failure(points.error)
      else Success((Path(CleanUp(points.value.0), Flag(flags, PATH_FLAG_CLOSED)), points.value.1))
  {
    assert ([flags, count] + rest)[1..] == [count] + rest;
    assert ([count] + rest)[1..] == rest;
  }

  // -- the size of the chosen form

  lemma {:induction false} CountOfCons(c: int, cs: seq<int>, which: set<int>)
    ensures CountOf([c] + cs, which) == (if c in which then 1 else 0) + CountOf(cs, which)
  {
    if cs == [] {
      assert [c] + cs == [c] && [c][..0] == [];
    } else {
      CountOfCons(c, cs[..|cs| - 1], which);
      assert ([c] + cs)[..|cs|] == [c] + cs[..|cs| - 1];
    }
  }

  lemma {:induction false} PutCoordsSize(vs: seq<real>)
    ensures |vs| <= |PutCoords(vs)| <= 2 * |vs|
    ensures |vs| == 1 ==> |PutCoords(vs)| == |EncodeCoord(vs[0])|
    ensures |vs| == 2 ==> |PutCoords(vs)| == |EncodeCoord(vs[0])| + |EncodeCoord(vs[1])|
  {
    if vs != [] {
      PutCoordsSize(vs[1..]);
    }
  }

  lemma {:induction false} LinePointSize(p: Point)
    requires p.IsLine()
    ensures |PutCoords(p.Coords())| == 3 * |EncodeCoord(p.x)| + 3 * |EncodeCoord(p.y)|
  {
    var xy := [p.x, p.y];
    assert p.Coords() == xy + (xy + xy);
    PutCoordsAppend(xy, xy + xy);
    PutCoordsAppend(xy, xy);
    PutCoordsSize(xy);
  }

  lemma {:induction false} PutCoordsAppend(us: seq<real>, vs: seq<real>)
    ensures PutCoords(us + vs) == PutCoords(us) + PutCoords(vs)
  {
    if us == [] {
      assert us + vs == vs;
    } else {
      PutCoordsAppend(us[1..], vs);
      assert (us + vs)[1..] == us[1..] + vs && (us + vs)[0] == us[0];
      Associate(EncodeCoord(us[0]), PutCoords(us[1..]), PutCoords(vs));
    }
  }

  /** A straight command saves at least five bytes of a plain point, a line command four. */
  lemma {:induction false} PointSaving(last: Position, p: Point)
    ensures |PutCoords(CommandNumbers(last, p))|
      + (if Command(last, p) in {H_LINE, V_LINE} then 5 else if Command(last, p) == LINE then 4 else 0)
      <= |PutCoords(p.Coords())|
  {
    PutCoordsSize(CommandNumbers(last, p));
    if p.IsLine() {
      LinePointSize(p);
    }
  }

  lemma {:induction false} CommandSaving(last: Position, points: seq<Point>)
    ensures var cs := Commands(last, points);
      |CommandCoords(last, points)| + 5 * CountOf(cs, {H_LINE, V_LINE}) + 4 * CountOf(cs, {LINE})
        <= |PlainCoords(points)|
    decreases |points|
  {
    if points != [] {
      PointSaving(last, points[0]);
      CommandSaving(At(points[0]), points[1..]);
      var c, rest := Command(last, points[0]), Commands(At(points[0]), points[1..]);
      CountOfCons(c, rest, {H_LINE, V_LINE});
      CountOfCons(c, rest, {LINE});
    }
  }

  lemma {:induction false} EveryCommandCounts(cs: seq<int>)
    requires forall i | 0 <= i < |cs| :: 0 <= cs[i] < 4
    ensures CountOf(cs, {H_LINE, V_LINE}) + CountOf(cs, {LINE}) + CountOf(cs, {CURVE}) == |cs|
  {
    if cs != [] {
      EveryCommandCounts(cs[..|cs| - 1]);
    }
  }

  lemma {:induction false} LineFormSize(points: seq<Point>)
    requires forall i | 0 <= i < |points| :: points[i].IsLine()
    ensures |LineCoords(points)| <= |PlainCoords(points)|
  {
    if points != [] {
      LinePointSize(points[0]);
      PutCoordsSize([points[0].x, points[0].y]);
      LineFormSize(points[1..]);
    }
  }

  /** The form is chosen from an estimate of two bytes a number, although a number may take one.
      The choice is still never longer than the plain form of six numbers a point. */
  lemma {:induction false} ChosenFormIsNeverLonger(points: seq<Point>)
    ensures |PathBody(points)| <= |PlainCoords(points)|
  {
    var cs := Commands(ORIGIN, points);
    CommandSaving(ORIGIN, points);
    EveryCommandCounts(cs);
    if ShortFormsWin(points) && NoCurves(points) {
      NoCurvesAreLines(points);
      LineFormSize(points);
    }
  }
}
