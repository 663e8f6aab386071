/** PathBuilder and the loops of parse_path_data and path_data, held to SvgPath; and what a
    relative command means. */
module SvgParser {
  import opened Wrappers
  import opened HvifModel
  import opened SvgPath
  import opened SvgRoundTrip

  class PathBuilder {
    var paths: seq<Path>
    var current: Option<seq<Point>>
    var start: Spot
    var pos: Spot

    function State(): Builder
      reads this
    {
      Builder(paths, current, start, pos)
    }

    constructor ()
      ensures State() == EMPTY
    {
      paths, current := [], None;
      start, pos := Spot(0.0, 0.0), Spot(0.0, 0.0);
    }

    method DoFinish(closed: bool)
      modifies this
      ensures State() == Finish(old(State()), closed)
    {
      if current.Some? && |current.value| > 1 {
        paths := paths + [Path(current.value, closed)];
      }
      current := None;
    }

    method DoMove(to: Spot)
      modifies this
      ensures State() == Move(old(State()), to)
    {
      DoFinish(false);
      current := Some([LinePoint(to.x, to.y)]);
      start, pos := to, to;
    }

    method DoLine(to: Spot)
      modifies this
      ensures State() == Line(old(State()), to)
    {
      if current.None? {
        DoMove(pos);
      }
      current := Some(current.value + [LinePoint(to.x, to.y)]);
      pos := to;
    }

    method DoCubic(c1: Spot, c2: Spot, to: Spot)
      modifies this
      ensures State() == Cubic(old(State()), c1, c2, to)
    {
      if current.None? {
        DoMove(pos);
      }
      var points := WithOut(current.value, c1);
      current := Some(points + [Point(to.x, to.y, c2.x, c2.y, to.x, to.y)]);
      pos := to;
    }

    method DoClose()
      modifies this
      ensures State() == Close(old(State()))
    {
      if current.None? {
        return;
      }
      var points := current.value;
      var n := |points|;
      if n > 1 && Near(points[n - 1].x, points[0].x) && Near(points[n - 1].y, points[0].y) {
        points := points[0 := points[0].(inX := points[n - 1].inX, inY := points[n - 1].inY)];
        points := points[..n - 1];
      }
      current := Some(points);
      DoFinish(true);
      pos := start;
    }

    method DoCurves(curves: seq<Curve>)
      modifies this
      ensures State() == Curves(old(State()), curves)
    {
      for i := 0 to |curves|
        invariant State() == Curves(old(State()), curves[..i])
      {
        assert curves[..i + 1][..i] == curves[..i];
        DoCubic(curves[i].c1, curves[i].c2, curves[i].end);
      }
      assert curves[..|curves|] == curves;
    }
  }

  /** The loop's body for one command: the builder moved on, the control points it leaves. */
  method Step(arc: ArcToCubics, builder: PathBuilder, letter: Letter, relative: bool, args: seq<real>,
              lastControl: Option<Spot>, lastQuad: Option<Spot>, command: Option<Token>)
    returns (next: Option<Token>, control: Option<Spot>, quad: Option<Spot>)
    requires |args| == Count(letter) && letter != Z
    modifies builder
    ensures State.State(builder.State(), next, control, quad)
      == Apply(arc, letter, relative, args, State.State(old(builder.State()), command, lastControl, lastQuad))
  {
    var o := if relative then builder.pos else Spot(0.0, 0.0);
    next, control, quad := Some(Command(letter, relative)), None, None;
    match letter
    case M =>
      builder.DoMove(Spot(o.x + args[0], o.y + args[1]));
      next := Some(Command(L, relative));
    case L => builder.DoLine(Spot(o.x + args[0], o.y + args[1]));
    case H => builder.DoLine(Spot(o.x + args[0], builder.pos.y));
    case V => builder.DoLine(Spot(builder.pos.x, o.y + args[0]));
    case C =>
      control := Some(Spot(o.x + args[2], o.y + args[3]));
      builder.DoCubic(Spot(o.x + args[0], o.y + args[1]), control.value, Spot(o.x + args[4], o.y + args[5]));
    case S =>
      control := Some(Spot(o.x + args[0], o.y + args[1]));
      builder.DoCubic(Reflected(builder.pos, lastControl), control.value, Spot(o.x + args[2], o.y + args[3]));
    case Q =>
      var q, to := Spot(o.x + args[0], o.y + args[1]), Spot(o.x + args[2], o.y + args[3]);
      builder.DoCubic(TwoThirds(builder.pos, q), TwoThirds(to, q), to);
      quad := Some(q);
    case T =>
      var q, to := Reflected(builder.pos, lastQuad), Spot(o.x + args[0], o.y + args[1]);
      builder.DoCubic(TwoThirds(builder.pos, q), TwoThirds(to, q), to);
      quad := Some(q);
    case A =>
      var to := Spot(o.x + args[5], o.y + args[6]);
      builder.DoCurves(arc(builder.pos, args[..5], to));
  }

  lemma {:induction false} RunZ(arc: ArcToCubics, tokens: seq<Token>, st: State)
    requires tokens != [] && tokens[0].Command? && tokens[0].letter == Z
    ensures Run(arc, tokens, st) == Run(arc, tokens[1..], State.State(Close(st.builder), None, None, None))
  {
  }

  lemma {:induction false} RunHead(arc: ArcToCubics, tokens: seq<Token>, st: State)
    requires tokens != [] && !(tokens[0].Command? && tokens[0].letter == Z)
    ensures Run(arc, tokens, st) ==
      if tokens[0].Command? then RunCommand(arc, Some(tokens[0]), tokens[1..], st)
        else RunCommand(arc, st.command, tokens, st)
  {
  }

  lemma {:induction false} RunArguments(arc: ArcToCubics, command: Option<Token>, rest: seq<Token>, st: State)
    requires command.Some? && command.value.Command? && command.value.letter != Z
    ensures var letter := command.value.letter;
      var args := Arguments(rest, Count(letter));
      RunCommand(arc, command, rest, st) ==
        if args.Failure? then Failure(args.error)
        else Run(arc, rest[Count(letter)..], Apply(arc, letter, command.value.relative, args.value, st))
  {
  }

  /** Only the control points matter of the state before a command. */
  lemma {:induction false} ApplyForgets(arc: ArcToCubics, letter: Letter, relative: bool, args: seq<real>, st: State,
                                        command: Option<Token>)
    requires |args| == Count(letter) && letter != Z
    ensures Apply(arc, letter, relative, args, st) == Apply(arc, letter, relative, args, st.(command := command))
  {
  }

  /** parse_path_data over tokens. */
  method ParsePathData(arc: ArcToCubics, tokens: seq<Token>) returns (r: Result<seq<Path>, SvgError>)
    ensures r == Parse(arc, tokens)
  {
    var builder := new PathBuilder();
    var i := 0;
    var command: Option<Token> := None;
    var lastControl: Option<Spot>, lastQuad: Option<Spot> := None, None;
    ghost var whole, rest, st := Run(arc, tokens, START), tokens, START;
    while i < |tokens|
      invariant 0 <= i <= |tokens| && rest == tokens[i..]
      invariant st == State.State(builder.State(), command, lastControl, lastQuad)
      invariant Run(arc, rest, st) == whole
      decreases |tokens| - i
    {
      assert rest[0] == tokens[i] && rest[1..] == tokens[i + 1..];
      if tokens[i].Command? {
        command := Some(tokens[i]);
        i := i + 1;
        if command.value.letter == Z {
          RunZ(arc, rest, st);
          builder.DoClose();
          command, lastControl, lastQuad := None, None, None;
          rest, st := rest[1..], State.State(builder.State(), None, None, None);
          continue;
        }
      }
      RunHead(arc, rest, st);
      if command.None? || command.value.Number? || command.value.letter == Z {
        return Failure(NoCommand);
      }
      var letter := command.value.letter;
      rest := tokens[i..];
      RunArguments(arc, command, rest, st);
      var args :- Arguments(tokens[i..], Count(letter));
      i := i + Count(letter);
      assert rest[Count(letter)..] == tokens[i..];
      ApplyForgets(arc, letter, command.value.relative, args, st, command);
      st := Apply(arc, letter, command.value.relative, args, st);
      rest := tokens[i..];
      command, lastControl, lastQuad :=
        Step(arc, builder, letter, command.value.relative, args, lastControl, lastQuad, command);
    }
    builder.DoFinish(false);
    r := Success(builder.paths);
  }

  /** The segment into point i + 1, or back into the first. */
  function Into(points: seq<Point>, i: int): seq<Token>
    requires 0 <= i < |points|
  {
    PrintSegment(points[i], points[if i + 1 < |points| then i + 1 else 0])
  }

  function PrintedUpTo(points: seq<Point>, i: int): seq<Token>
    requires 0 <= i <= |points| && points != []
  {
    if i == 0 then [] else PrintedUpTo(points, i - 1) + Into(points, i - 1)
  }

  lemma {:induction false} PrintedUpToIsSegments(points: seq<Point>, i: int)
    requires 0 <= i < |points|
    ensures PrintedUpTo(points, i) == PrintSegments(points, i)
  {
    if i > 0 {
      PrintedUpToIsSegments(points, i - 1);
      IntoNext(points, i - 1);
    }
  }

  lemma {:induction false} IntoNext(points: seq<Point>, i: int)
    requires 0 <= i < |points| - 1
    ensures PrintedUpTo(points, i + 1) == PrintedUpTo(points, i) + PrintSegment(points[i], points[i + 1])
  {
  }

  lemma {:induction false} PathDataPrints(path: Path, i: int)
    requires path.points != []
    requires i == if path.closed && !StraightClosing(path.points) then |path.points| else |path.points| - 1
    ensures PathData(path) == [Command(M, false)] + PrintNumbers([path.points[0].x, path.points[0].y])
      + PrintedUpTo(path.points, i) + ZTokens(path)
  {
    var m := [Command(M, false)] + PrintNumbers([path.points[0].x, path.points[0].y]);
    PrintedIsAll(path, i);
    Associate(m, PrintSegments(path.points, |path.points| - 1), ClosingTokens(path));
  }

  lemma {:induction false} PrintedIsAll(path: Path, i: int)
    requires path.points != []
    requires i == if path.closed && !StraightClosing(path.points) then |path.points| else |path.points| - 1
    ensures PrintedUpTo(path.points, i) == PrintSegments(path.points, |path.points| - 1) + ClosingTokens(path)
  {
    PrintedUpToIsSegments(path.points, |path.points| - 1);
    Nothing(PrintSegments(path.points, |path.points| - 1));
  }

  /** path_data. */
  method PrintPath(path: Path) returns (out: seq<Token>)
    ensures out == PathData(path)
  {
    var pts := path.points;
    if pts == [] {
      return [];
    }
    out := [Command(M, false)] + PrintNumbers([pts[0].x, pts[0].y]);
    ghost var head := out;
    assert head + [] == head;
    var n := |pts|;
    var count := if path.closed then n else n - 1;
    var i := 0;
    while i < count
      invariant 0 <= i <= count && out == head + PrintedUpTo(pts, i)
      invariant i == n ==> !StraightClosing(pts)
    {
      Wrapped(i, n);
      var a, b := pts[i], pts[(i + 1) % n];
      var straight := Straight(a, b);
      if straight && i == n - 1 {
        break;
      }
      Associate(head, PrintedUpTo(pts, i), Into(pts, i));
      if straight {
        out := out + ([Command(L, false)] + PrintNumbers([b.x, b.y]));
      } else {
        out := out + ([Command(C, false)] + PrintNumbers([a.outX, a.outY, b.inX, b.inY, b.x, b.y]));
      }
      i := i + 1;
    }
    PathDataPrints(path, i);
    if path.closed {
      out := out + [Command(Z, false)];
    } else {
      assert out + [] == out;
    }
  }

  lemma {:induction false} Wrapped(i: int, n: int)
    requires 0 <= i < n
    ensures (i + 1) % n == if i + 1 < n then i + 1 else 0
  {
  }

  // -- relative commands

  /** A command written with all its arguments. */
  datatype Instruction = Instruction(letter: Letter, args: seq<real>)

  predicate Proper(c: Instruction) {
    |c.args| == Count(c.letter)
  }

  /** The same command with its coordinates counted from the position it starts at. */
  function FromPosition(c: Instruction, pos: Spot): (r: Instruction)
    requires Proper(c)
    ensures Proper(r) && r.letter == c.letter
  {
    match c.letter
    case H => Instruction(H, [c.args[0] - pos.x])
    case V => Instruction(V, [c.args[0] - pos.y])
    case A => Instruction(A, c.args[..5] + [c.args[5] - pos.x, c.args[6] - pos.y])
    case _ => Instruction(c.letter, Shifted(c.args, pos))
  }

  /** Pairs of coordinates, each counted from pos. */
  function Shifted(args: seq<real>, pos: Spot): (r: seq<real>)
    ensures |r| == |args|
    ensures forall i | 0 <= i < |r| :: r[i] == args[i] - (if i % 2 == 0 then pos.x else pos.y)
  {
    seq(|args|, i requires 0 <= i < |args| => args[i] - (if i % 2 == 0 then pos.x else pos.y))
  }

  function Perform(arc: ArcToCubics, c: Instruction, relative: bool, st: State): State
    requires Proper(c)
  {
    if c.letter == Z then State.State(Close(st.builder), None, None, None)
      else Apply(arc, c.letter, relative, c.args, st)
  }

  function Numbers(args: seq<real>): (r: seq<Token>)
    ensures |r| == |args| && forall i | 0 <= i < |r| :: r[i] == Number(args[i])
  {
    if args == [] then [] else Numbers(args[..|args| - 1]) + [Number(args[|args| - 1])]
  }

  /** A list of commands written out: every letter upper case, or every letter lower case with
      its coordinates counted from where the commands before it end. */
  function Written(arc: ArcToCubics, commands: seq<Instruction>, relative: bool, st: State): seq<Token>
    requires forall c | c in commands :: Proper(c)
    decreases |commands|
  {
    if commands == [] then []
    else
      var c := if relative then FromPosition(commands[0], st.builder.pos) else commands[0];
      [Command(c.letter, relative)] + Numbers(c.args)
      + Written(arc, commands[1..], relative, Perform(arc, c, relative, st))
  }

  /** The same but for the letter an implicit command would repeat. */
  predicate Alike(s: State, t: State) {
    s.builder == t.builder && s.control == t.control && s.quad == t.quad
  }

  lemma {:induction false} RelativeIsAlike(arc: ArcToCubics, c: Instruction, s: State, t: State)
    requires Proper(c) && Alike(s, t)
    ensures Alike(Perform(arc, c, false, s), Perform(arc, FromPosition(c, t.builder.pos), true, t))
  {
    if c.letter == A {
      var args := FromPosition(c, t.builder.pos).args;
      assert args[..5] == c.args[..5];
    }
  }

  lemma {:induction false} RunInstruction(arc: ArcToCubics, c: Instruction, relative: bool, rest: seq<Token>, st: State)
    requires Proper(c)
    ensures Run(arc, [Command(c.letter, relative)] + Numbers(c.args) + rest, st)
      == Run(arc, rest, Perform(arc, c, relative, st))
  {
    var tokens := [Command(c.letter, relative)] + Numbers(c.args) + rest;
    assert tokens[1..] == Numbers(c.args) + rest;
    if c.letter == Z {
      assert tokens[1..] == rest;
      RunZ(arc, tokens, st);
    } else {
      ArgumentsThenRest(c.args, rest);
      RunLetter(arc, c, relative, tokens, rest, st);
    }
  }

  lemma {:induction false} RunLetter(arc: ArcToCubics, c: Instruction, relative: bool, tokens: seq<Token>,
                                     rest: seq<Token>, st: State)
    requires Proper(c) && c.letter != Z && tokens != [] && tokens[0] == Command(c.letter, relative)
    requires |tokens| > |c.args| && tokens[1..][|c.args|..] == rest
    requires Arguments(tokens[1..], |c.args|) == Success(c.args)
    ensures Run(arc, tokens, st) == Run(arc, rest, Apply(arc, c.letter, relative, c.args, st))
  {
    RunHead(arc, tokens, st);
    RunArguments(arc, Some(tokens[0]), tokens[1..], st);
  }

  lemma {:induction false} ArgumentsThenRest(args: seq<real>, rest: seq<Token>)
    ensures var tokens, n := Numbers(args) + rest, |args|;
      |tokens| >= n && tokens[n..] == rest && Arguments(tokens, n) == Success(args)
  {
    var tokens, n := Numbers(args) + rest, |args|;
    assert tokens[..n] == Numbers(args);
    assert Values(Numbers(args)) == args;
  }

  /** Lower case commands mean what upper case ones do, counted from the current position. */
  lemma {:induction false} RelativeMeansTheSame(arc: ArcToCubics, commands: seq<Instruction>, s: State, t: State)
    requires (forall c | c in commands :: Proper(c)) && Alike(s, t)
    ensures Run(arc, Written(arc, commands, false, s), s) == Run(arc, Written(arc, commands, true, t), t)
    decreases |commands|
  {
    if commands != [] {
      var c, d := commands[0], FromPosition(commands[0], t.builder.pos);
      var s', t' := Perform(arc, c, false, s), Perform(arc, d, true, t);
      RelativeIsAlike(arc, c, s, t);
      RunInstruction(arc, c, false, Written(arc, commands[1..], false, s'), s);
      RunInstruction(arc, d, true, Written(arc, commands[1..], true, t'), t);
      RelativeMeansTheSame(arc, commands[1..], s', t');
    }
  }
}
