/** What each letter of path data means, told by the letters that lines, cubics and moves have. */
module SvgLetters {
  import opened Wrappers
  import opened Rounding
  import opened HvifModel
  import opened SvgPath
  import opened SvgRoundTrip
  import opened SvgParser

  // -- one command

  /** H x is a line to x at the height of the position, V y one to y straight above or below it. */
  lemma {:induction false} LinesByOne(arc: ArcToCubics, v: real, st: State)
    ensures var pos := st.builder.pos;
      && Apply(arc, H, false, [v], st).builder == Apply(arc, L, false, [v, pos.y], st).builder
      && Apply(arc, V, false, [v], st).builder == Apply(arc, L, false, [pos.x, v], st).builder
  {
  }

  /** What a command leaves for the next: the second control point of C and S, the only one of Q
      and T, and nothing of any other. */
  lemma {:induction false} Leaves(arc: ArcToCubics, letter: Letter, args: seq<real>, st: State)
    requires |args| == Count(letter) && letter != Z
    ensures var r := Apply(arc, letter, false, args, st);
      && r.control == (if letter == C then Some(Spot(args[2], args[3]))
                       else if letter == S then Some(Spot(args[0], args[1])) else None)
      && (letter != T ==> r.quad == if letter == Q then Some(Spot(args[0], args[1])) else None)
      && (letter == T ==> r.quad == Some(Mirrored(st.builder.pos, st.quad)))
  {
  }

  /** The point on the other side of the position, which is halfway between the two; the position
      itself when there is none to mirror. */
  function Mirrored(pos: Spot, control: Option<Spot>): (r: Spot)
    ensures control.None? ==> r == pos
    ensures control.Some? ==>
      (r.x + control.value.x) / 2.0 == pos.x && (r.y + control.value.y) / 2.0 == pos.y
  {
    if control.None? then pos
    else Spot(pos.x + (pos.x - control.value.x), pos.y + (pos.y - control.value.y))
  }

  /** S is C with the mirrored control point first, and T is Q with the mirrored one. */
  lemma {:induction false} SmoothCurves(arc: ArcToCubics, x2: real, y2: real, x: real, y: real, st: State)
    ensures var c, q := Mirrored(st.builder.pos, st.control), Mirrored(st.builder.pos, st.quad);
      && Apply(arc, S, false, [x2, y2, x, y], st).builder
           == Apply(arc, C, false, [c.x, c.y, x2, y2, x, y], st).builder
      && Apply(arc, T, false, [x, y], st).builder == Apply(arc, Q, false, [q.x, q.y, x, y], st).builder
  {
  }

  function Quadratic(t: real, p: real, q: real, r: real): real {
    (1.0 - t) * (1.0 - t) * p + 2.0 * (1.0 - t) * t * q + t * t * r
  }

  function CubicAt(t: real, p: real, a: real, b: real, r: real): real {
    (1.0 - t) * (1.0 - t) * (1.0 - t) * p + 3.0 * (1.0 - t) * (1.0 - t) * t * a + 3.0 * (1.0 - t) * t * t * b
    + t * t * t * r
  }

  /** The cubic's inner points, two thirds of the way to the quadratic's. */
  function Elevated(pos: Spot, q: Spot): Spot {
    Spot((pos.x + 2.0 * q.x) / 3.0, (pos.y + 2.0 * q.y) / 3.0)
  }

  /** Q is the C that draws the same curve. */
  lemma {:induction false} QuadraticCurves(arc: ArcToCubics, qx: real, qy: real, x: real, y: real, st: State)
    ensures var a, b := Elevated(st.builder.pos, Spot(qx, qy)), Elevated(Spot(x, y), Spot(qx, qy));
      Apply(arc, Q, false, [qx, qy, x, y], st).builder == Apply(arc, C, false, [a.x, a.y, b.x, b.y, x, y], st).builder
  {
    var pos := st.builder.pos;
    assert TwoThirds(pos, Spot(qx, qy)) == Elevated(pos, Spot(qx, qy));
    assert TwoThirds(Spot(x, y), Spot(qx, qy)) == Elevated(Spot(x, y), Spot(qx, qy));
  }

  lemma {:induction false} ElevatedDrawsTheSame(t: real, p: Spot, q: Spot, r: Spot)
    ensures var a, b := Elevated(p, q), Elevated(r, q);
      && CubicAt(t, p.x, a.x, b.x, r.x) == Quadratic(t, p.x, q.x, r.x)
      && CubicAt(t, p.y, a.y, b.y, r.y) == Quadratic(t, p.y, q.y, r.y)
  {
    var a, b := Elevated(p, q), Elevated(r, q);
    SameCurve(t, 1.0 - t, p.x, q.x, r.x, a.x, b.x);
    SameCurve(t, 1.0 - t, p.y, q.y, r.y, a.y, b.y);
  }

  lemma {:induction false} SameCurve(t: real, u: real, p: real, q: real, r: real, a: real, b: real)
    requires u == 1.0 - t && 3.0 * a == p + 2.0 * q && 3.0 * b == r + 2.0 * q
    ensures CubicAt(t, p, a, b, r) == Quadratic(t, p, q, r)
  {
    assert CubicAt(t, p, a, b, r) == u * u * u * p + u * u * t * (3.0 * a) + u * t * t * (3.0 * b) + t * t * t * r;
    assert Quadratic(t, p, q, r) == (u + t) * (u * u * p + 2.0 * u * t * q + t * t * r);
    Collects(u, t, p, q, r);
  }

  lemma {:induction false} Collects(u: real, t: real, p: real, q: real, r: real)
    ensures u * u * u * p + u * u * t * (p + 2.0 * q) + u * t * t * (r + 2.0 * q) + t * t * t * r
      == (u + t) * (u * u * p + 2.0 * u * t * q + t * t * r)
  {
  }

  /** Curves drawn one after another by C. */
  function Drawn(arc: ArcToCubics, curves: seq<Curve>, st: State): State
    decreases |curves|
  {
    if curves == [] then st
    else
      var c := curves[0];
      Drawn(arc, curves[1..], Apply(arc, C, false, [c.c1.x, c.c1.y, c.c2.x, c.c2.y, c.end.x, c.end.y], st))
  }

  /** A is the curves of its arc, from the position to its last two numbers. */
  lemma {:induction false} ArcsAreCurves(arc: ArcToCubics, args: seq<real>, x: real, y: real, st: State)
    requires |args| == 5
    ensures Apply(arc, A, false, args + [x, y], st).builder
      == Drawn(arc, arc(st.builder.pos, args, Spot(x, y)), st).builder
  {
    assert (args + [x, y])[..5] == args;
    CurvesInTurn(arc, arc(st.builder.pos, args, Spot(x, y)), st);
  }

  lemma {:induction false} CurvesInTurn(arc: ArcToCubics, curves: seq<Curve>, st: State)
    ensures Curves(st.builder, curves) == Drawn(arc, curves, st).builder
    decreases |curves|
  {
    if curves != [] {
      var c := curves[0];
      FirstCurve(st.builder, curves);
      CurvesInTurn(arc, curves[1..], Apply(arc, C, false, [c.c1.x, c.c1.y, c.c2.x, c.c2.y, c.end.x, c.end.y], st));
    }
  }

  lemma {:induction false} FirstCurve(b: Builder, curves: seq<Curve>)
    requires curves != []
    ensures Curves(b, curves) == Curves(Cubic(b, curves[0].c1, curves[0].c2, curves[0].end), curves[1..])
    decreases |curves|
  {
    if |curves| > 1 {
      FirstCurve(b, curves[..|curves| - 1]);
      assert curves[..|curves| - 1][1..] == curves[1..][..|curves| - 2];
    }
  }

  /** Numbers after a full command repeat it, or draw lines after a move. */
  lemma {:induction false} Repeats(arc: ArcToCubics, letter: Letter, relative: bool, args: seq<real>, st: State)
    requires |args| == Count(letter) && letter != Z
    ensures Apply(arc, letter, relative, args, st).command == Some(Command(if letter == M then L else letter, relative))
  {
  }

  // -- whole lists

  /** The same command in moves, lines, cubics, arcs and closes. */
  function Spelled(c: Instruction, st: State): (r: Instruction)
    requires Proper(c)
    ensures Proper(r) && r.letter in {M, L, C, A, Z}
  {
    var pos := st.builder.pos;
    match c.letter
    case H => Instruction(L, [c.args[0], pos.y])
    case V => Instruction(L, [pos.x, c.args[0]])
    case S =>
      var a := Mirrored(pos, st.control);
      Instruction(C, [a.x, a.y] + c.args)
    case Q => SpelledQuadratic(pos, Spot(c.args[0], c.args[1]), Spot(c.args[2], c.args[3]))
    case T => SpelledQuadratic(pos, Mirrored(pos, st.quad), Spot(c.args[0], c.args[1]))
    case _ => c
  }

  function SpelledQuadratic(pos: Spot, q: Spot, to: Spot): (r: Instruction)
    ensures Proper(r) && r.letter == C
  {
    var a, b := Elevated(pos, q), Elevated(to, q);
    Instruction(C, [a.x, a.y, b.x, b.y, to.x, to.y])
  }

  lemma {:induction false} SpelledPerforms(arc: ArcToCubics, c: Instruction, s: State, t: State)
    requires Proper(c) && s.builder == t.builder
    ensures Perform(arc, c, false, s).builder == Perform(arc, Spelled(c, s), false, t).builder
  {
    match c.letter
    case S =>
      var a := Mirrored(s.builder.pos, s.control);
      assert c.args == [c.args[0], c.args[1], c.args[2], c.args[3]];
      assert [a.x, a.y] + c.args == [a.x, a.y, c.args[0], c.args[1], c.args[2], c.args[3]];
      SmoothCurves(arc, c.args[0], c.args[1], c.args[2], c.args[3], s);
    case Q =>
      assert c.args == [c.args[0], c.args[1], c.args[2], c.args[3]];
      QuadraticCurves(arc, c.args[0], c.args[1], c.args[2], c.args[3], s);
    case T =>
      var q := Mirrored(s.builder.pos, s.quad);
      assert c.args == [c.args[0], c.args[1]];
      SmoothCurves(arc, 0.0, 0.0, c.args[0], c.args[1], s);
      QuadraticCurves(arc, q.x, q.y, c.args[0], c.args[1], s);
    case _ =>
  }

  function SpelledAll(arc: ArcToCubics, commands: seq<Instruction>, st: State): (r: seq<Instruction>)
    requires forall c | c in commands :: Proper(c)
    ensures |r| == |commands| && forall c | c in r :: Proper(c) && c.letter in {M, L, C, A, Z}
    decreases |commands|
  {
    if commands == [] then []
    else [Spelled(commands[0], st)] + SpelledAll(arc, commands[1..], Perform(arc, commands[0], false, st))
  }

  /** A whole list of commands builds what it builds in those letters alone. */
  lemma {:induction false} SpelledMeansTheSame(arc: ArcToCubics, commands: seq<Instruction>, s: State, t: State)
    requires (forall c | c in commands :: Proper(c)) && s.builder == t.builder
    ensures Run(arc, Written(arc, commands, false, s), s)
      == Run(arc, Written(arc, SpelledAll(arc, commands, s), false, t), t)
    decreases |commands|
  {
    if commands != [] {
      var c, d := commands[0], Spelled(commands[0], s);
      var s', t' := Perform(arc, c, false, s), Perform(arc, d, false, t);
      var rest := SpelledAll(arc, commands[1..], s');
      SpelledPerforms(arc, c, s, t);
      assert SpelledAll(arc, commands, s)[1..] == rest;
      RunInstruction(arc, c, false, Written(arc, commands[1..], false, s'), s);
      RunInstruction(arc, d, false, Written(arc, rest, false, t'), t);
      SpelledMeansTheSame(arc, commands[1..], s', t');
    }
  }

  // -- a rectangle

  datatype Rectangle = Rectangle(x: real, y: real, w: real, h: real) {
    function Corners(): seq<Point> {
      [LinePoint(x, y), LinePoint(x + w, y), LinePoint(x + w, y + h), LinePoint(x, y + h)]
    }
  }

  /** M x y H x+w V y+h H x Z: a rect element without round corners. */
  predicate IsRectangle(commands: seq<Instruction>, r: Rectangle) {
    && |commands| == 5
    && commands[0] == Instruction(M, [r.x, r.y]) && commands[1] == Instruction(H, [r.x + r.w])
    && commands[2] == Instruction(V, [r.y + r.h]) && commands[3] == Instruction(H, [r.x])
    && commands[4] == Instruction(Z, [])
  }

  lemma {:induction false} RectangleIsProper(commands: seq<Instruction>, r: Rectangle)
    requires IsRectangle(commands, r)
    ensures forall c | c in commands :: Proper(c)
  {
  }

  function PerformAll(arc: ArcToCubics, commands: seq<Instruction>, st: State): State
    requires forall c | c in commands :: Proper(c)
    decreases |commands|
  {
    if commands == [] then st else PerformAll(arc, commands[1..], Perform(arc, commands[0], false, st))
  }

  lemma {:induction false} WrittenPerforms(arc: ArcToCubics, commands: seq<Instruction>, st: State)
    requires forall c | c in commands :: Proper(c)
    ensures Run(arc, Written(arc, commands, false, st), st) == Run(arc, [], PerformAll(arc, commands, st))
    decreases |commands|
  {
    if commands != [] {
      var next := Perform(arc, commands[0], false, st);
      RunInstruction(arc, commands[0], false, Written(arc, commands[1..], false, next), st);
      WrittenPerforms(arc, commands[1..], next);
    }
  }

  lemma {:induction false} OneFirst(arc: ArcToCubics, c: Instruction, rest: seq<Instruction>, st: State)
    requires Proper(c) && forall d | d in rest :: Proper(d)
    ensures PerformAll(arc, [c] + rest, st) == PerformAll(arc, rest, Perform(arc, c, false, st))
  {
    assert ([c] + rest)[1..] == rest;
  }

  lemma {:induction false} LineAdds(b: Builder, points: seq<Point>, to: Spot)
    requires b.current == Some(points)
    ensures Line(b, to) == b.(current := Some(points + [LinePoint(to.x, to.y)]), pos := to)
  {
  }

  /** It is its four corners, closed; one so low that its last corner is back at the first is three,
      the first with the handle of the last. */
  lemma {:induction false} FourCorners(arc: ArcToCubics, commands: seq<Instruction>, r: Rectangle)
    requires IsRectangle(commands, r)
    ensures forall c | c in commands :: Proper(c)
    ensures var c := r.Corners();
      Parse(arc, Written(arc, commands, false, START))
        == Success([Path(if -0.000001 < r.h < 0.000001 then [c[0].(inY := r.y + r.h), c[1], c[2]] else c, true)])
  {
    RectangleIsProper(commands, r);
    WrittenPerforms(arc, commands, START);
    CornersBuilt(arc, commands, r);
    NothingMore(arc, PerformAll(arc, commands, START));
  }

  lemma {:induction false} NothingMore(arc: ArcToCubics, st: State)
    requires st.builder.current.None?
    ensures Run(arc, [], st).Success? && Run(arc, [], st).value.paths == st.builder.paths
  {
    NothingToFinish(st.builder);
  }

  lemma {:induction false} CornersBuilt(arc: ArcToCubics, commands: seq<Instruction>, r: Rectangle)
    requires IsRectangle(commands, r) && forall c | c in commands :: Proper(c)
    ensures var end, c := PerformAll(arc, commands, START), r.Corners();
      && end.builder.current.None?
      && end.builder.paths
           == [Path(if -0.000001 < r.h < 0.000001 then [c[0].(inY := r.y + r.h), c[1], c[2]] else c, true)]
  {
    var s1 := Perform(arc, commands[0], false, START);
    var s2 := Perform(arc, commands[1], false, s1);
    var s3 := Perform(arc, commands[2], false, s2);
    var s4 := Perform(arc, commands[3], false, s3);
    FirstFour(arc, commands, START, s1, s2, s3, s4);
    FourSides(arc, commands, r, s1, s2, s3, s4);
    ClosesCorners(s4.builder, r, r.Corners());
  }

  lemma {:induction false} ClosesCorners(b: Builder, r: Rectangle, c: seq<Point>)
    requires c == r.Corners() && b.paths == [] && b.current == Some(c)
    ensures Close(b).current.None?
    ensures Close(b).paths
      == [Path(if -0.000001 < r.h < 0.000001 then [c[0].(inY := r.y + r.h), c[1], c[2]] else c, true)]
  {
    assert c[3].x - c[0].x == 0.0 && c[3].y - c[0].y == r.h;
    assert c[0 := c[0].(inX := c[3].inX, inY := c[3].inY)][..3] == [c[0].(inY := r.y + r.h), c[1], c[2]];
  }

  lemma {:induction false} FirstFour(arc: ArcToCubics, commands: seq<Instruction>, s0: State, s1: State, s2: State,
                                     s3: State, s4: State)
    requires |commands| == 5 && (forall c | c in commands :: Proper(c)) && commands[4].letter == Z
    requires s1 == Perform(arc, commands[0], false, s0) && s2 == Perform(arc, commands[1], false, s1)
    requires s3 == Perform(arc, commands[2], false, s2) && s4 == Perform(arc, commands[3], false, s3)
    ensures PerformAll(arc, commands, s0).builder == Close(s4.builder)
  {
    var c := commands;
    assert c == [c[0]] + c[1..] && c[1..] == [c[1]] + c[2..] && c[2..] == [c[2]] + c[3..];
    assert c[3..] == [c[3]] + c[4..] && c[4..] == [c[4]] + [];
    OneFirst(arc, c[0], c[1..], s0);
    OneFirst(arc, c[1], c[2..], s1);
    OneFirst(arc, c[2], c[3..], s2);
    OneFirst(arc, c[3], c[4..], s3);
    OneFirst(arc, c[4], [], s4);
  }

  lemma {:induction false} FourSides(arc: ArcToCubics, commands: seq<Instruction>, r: Rectangle, s1: State, s2: State,
                                     s3: State, s4: State)
    requires IsRectangle(commands, r) && s1 == Perform(arc, commands[0], false, START)
    requires s2 == Perform(arc, commands[1], false, s1) && s3 == Perform(arc, commands[2], false, s2)
    requires s4 == Perform(arc, commands[3], false, s3)
    ensures s4.builder.paths == [] && s4.builder.current == Some(r.Corners())
  {
    var c := r.Corners();
    assert [c[0]] + [c[1]] + [c[2]] + [c[3]] == c;
    Side(arc, commands[1], s1, [c[0]], Spot(r.x + r.w, r.y));
    Side(arc, commands[2], s2, [c[0]] + [c[1]], Spot(r.x + r.w, r.y + r.h));
    Side(arc, commands[3], s3, [c[0]] + [c[1]] + [c[2]], Spot(r.x, r.y + r.h));
  }

  /** A side of it, level or upright. */
  lemma {:induction false} Side(arc: ArcToCubics, c: Instruction, st: State, points: seq<Point>, to: Spot)
    requires st.builder.current == Some(points) && st.builder.paths == []
    requires (c == Instruction(H, [to.x]) && to.y == st.builder.pos.y)
      || (c == Instruction(V, [to.y]) && to.x == st.builder.pos.x)
    ensures var b := Perform(arc, c, false, st).builder;
      b.current == Some(points + [LinePoint(to.x, to.y)]) && b.paths == [] && b.pos == to
  {
    LineAdds(st.builder, points, to);
    assert Spot(0.0 + to.x, to.y) == to && Spot(to.x, 0.0 + to.y) == to;
  }

  // -- ends and errors

  /** A close makes the last point the first one when they are less than a millionth apart on both
      axes, and goes back to where the path began; what is drawn next begins there. */
  lemma {:induction false} Closes(b: Builder, to: Spot)
    requires b.current.Some? && b.current.value != []
    ensures var points, n := b.current.value, |b.current.value|;
      var first, last := points[0], points[n - 1];
      var merges := n > 1 && -0.000001 < last.x - first.x < 0.000001 && -0.000001 < last.y - first.y < 0.000001;
      var kept := if merges then points[0 := first.(inX := last.inX, inY := last.inY)][..n - 1] else points;
      && Close(b).paths == b.paths + (if |kept| > 1 then [Path(kept, true)] else [])
      && Close(b).pos == b.start && Close(b).current.None?
      && Line(Close(b), to).current == Some([LinePoint(b.start.x, b.start.y), LinePoint(to.x, to.y)])
  {
    assert [LinePoint(b.start.x, b.start.y)] + [LinePoint(to.x, to.y)]
      == [LinePoint(b.start.x, b.start.y), LinePoint(to.x, to.y)];
  }

  /** Numbers before any command are refused; */
  lemma {:induction false} RefusesNumbers(arc: ArcToCubics, v: real, rest: seq<Token>)
    ensures Parse(arc, [Number(v)] + rest) == Failure(NoCommand)
  {
    RunHead(arc, [Number(v)] + rest, SvgPath.START);
  }

  /** so is an end in the middle of a command, and a letter where a number should be. */
  lemma {:induction false} RefusesShort(arc: ArcToCubics, letter: Letter, relative: bool, rest: seq<Token>)
    requires letter != Z
    ensures Parse(arc, [Command(letter, relative)]) == Failure(EndsInCommand)
    ensures Parse(arc, [Command(letter, relative), Command(letter, relative)] + rest) == Failure(NotANumber)
  {
    var short := [Command(letter, relative)];
    RunHead(arc, short, SvgPath.START);
    RunArguments(arc, Some(short[0]), short[1..], SvgPath.START);
    assert short[1..] == [];
    var twice := [Command(letter, relative), Command(letter, relative)] + rest;
    RunHead(arc, twice, SvgPath.START);
    RunArguments(arc, Some(twice[0]), twice[1..], SvgPath.START);
    LetterAmong(twice[1..], Count(letter));
  }

  lemma {:induction false} LetterAmong(tokens: seq<Token>, n: nat)
    requires tokens != [] && tokens[0].Command? && n > 0
    ensures Arguments(tokens, n) == Failure(NotANumber)
  {
    assert tokens[0].Command?;
  }

  /** Four decimals: the nearest ten-thousandth. */
  lemma {:induction false} FourDecimals(v: real)
    ensures -0.00005 <= Fmt(v) - v <= 0.00005
    ensures exists n :: Fmt(v) == TenThousandths(n)
  {
    assert Fmt(v) == TenThousandths(RoundHalfEven(v * 10000.0));
  }

  function TenThousandths(n: int): real {
    n as real / 10000.0
  }
}
