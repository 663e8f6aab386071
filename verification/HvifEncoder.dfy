/** The writer and the loops of encode, each held to the functions of HvifFormat. */
module HvifEncoder {
  import opened Wrappers
  import opened HvifNumbers
  import opened HvifModel
  import opened HvifFormat
  import opened HvifNorm
  import opened HvifRoundTrip
  import opened HvifPaths
  import opened HvifTheorems
  import opened Float24
  import HvifCodec

  type Done = Result<(), HvifError>

  /** A list being written: once `done` holds the first entries and xs are to come. */
  ghost predicate Writing<T(!new)>(put: T -> Written, xs: seq<T>, done: Bytes, whole: Written)
    decreases |xs|
  {
    if xs == [] then whole == Success(done)
    else
      var first := put(xs[0]);
      if first.Failure? then whole == Failure(first.error)
      else Writing(put, xs[1..], done + first.value, whole)
  }

  lemma {:induction false} WritingMany<T(!new)>(put: T -> Written, xs: seq<T>, done: Bytes)
    ensures var rest := PutMany(put, xs);
      Writing(put, xs, done, if rest.Failure? then rest else Success(done + rest.value))
    decreases |xs|
  {
    if xs == [] {
      assert done + [] == done;
    } else if put(xs[0]).Success? {
      var first, rest := put(xs[0]).value, PutMany(put, xs[1..]);
      WritingMany(put, xs[1..], done + first);
      if rest.Success? {
        assert done + (first + rest.value) == done + first + rest.value;
      }
    }
  }

  lemma {:induction false} WritingStep<T(!new)>(put: T -> Written, xs: seq<T>, i: int, done: Bytes, whole: Written)
    requires 0 <= i < |xs| && Writing(put, xs[i..], done, whole)
    ensures put(xs[i]).Failure? ==> whole == Failure(put(xs[i]).error)
    ensures put(xs[i]).Success? ==> Writing(put, xs[i + 1..], done + put(xs[i]).value, whole)
  {
    assert xs[i..][0] == xs[i] && xs[i..][1..] == xs[i + 1..];
  }

  class Writer {
    var data: Bytes

    constructor ()
      ensures data == []
    {
      data := [];
    }

    /** After a write of p: its bytes appended, or its error. */
    ghost predicate Did(before: Bytes, p: Written, r: Done)
      reads this
    {
      if r.Success? then p.Success? && data == before + p.value else p == Failure(r.error)
    }

    method U8(value: int) returns (r: Done)
      modifies this
      ensures Did(old(data), PutByte(value), r)
    {
      if !(0 <= value <= 255) {
        return Failure(ByteOutOfRange);
      }
      data := data + [value];
      r := Success(());
    }

    method Coord(value: real)
      modifies this
      ensures data == old(data) + EncodeCoord(value)
    {
      var v := Clamp(value);
      var nearest := Rounding.RoundHalfEven(v);
      if Distance(v, nearest as real) < 0.005 && -32 <= nearest <= 95 {
        data := data + [nearest + 32];
      } else {
        var short := HundredAndTwoths(v) + SHORT_FORM;
        data := data + [short / 256];
        data := data + [short % 256];
      }
    }

    method Float24(value: real) returns (r: Done)
      modifies this
      ensures Did(old(data), PutFloat24(value), r)
    {
      var bits := Binary32.Pack(value);
      if bits.Failure? {
        return Failure(FloatOverflow);
      }
      CodeInRange(value);
      var code := Code(bits.value);
      data := data + [code / 0x1_0000];
      data := data + [code / 0x100 % 0x100];
      data := data + [code % 0x100];
      r := Success(());
    }

    method Coords(vs: seq<real>)
      modifies this
      ensures data == old(data) + PutCoords(vs)
    {
      ghost var before, whole := data, PutCoords(vs);
      for i := 0 to |vs|
        invariant data + PutCoords(vs[i..]) == before + whole
      {
        assert vs[i..][0] == vs[i] && vs[i..][1..] == vs[i + 1..];
        Associate(data, EncodeCoord(vs[i]), PutCoords(vs[i + 1..]));
        Coord(vs[i]);
      }
      assert data + [] == data;
    }

    method U8s(values: seq<int>) returns (r: Done)
      modifies this
      ensures Did(old(data), PutMany(PutByte, values), r)
    {
      ghost var rest := PutMany(PutByte, values);
      ghost var whole: Written := if rest.Failure? then rest else Success(data + rest.value);
      WritingMany(PutByte, values, data);
      assert values[0..] == values;
      for i := 0 to |values|
        invariant Writing(PutByte, values[i..], data, whole)
      {
        WritingStep(PutByte, values, i, data, whole);
        var _ :- U8(values[i]);
      }
      r := Success(());
    }

    method Float24s(values: seq<real>) returns (r: Done)
      modifies this
      ensures Did(old(data), PutMany(PutFloat24, values), r)
    {
      ghost var rest := PutMany(PutFloat24, values);
      ghost var whole: Written := if rest.Failure? then rest else Success(data + rest.value);
      WritingMany(PutFloat24, values, data);
      assert values[0..] == values;
      for i := 0 to |values|
        invariant Writing(PutFloat24, values[i..], data, whole)
      {
        WritingStep(PutFloat24, values, i, data, whole);
        var _ :- Float24(values[i]);
      }
      r := Success(());
    }

    // -- styles

    /** write_color. */
    method WriteColor(c: Rgba, alpha: bool, gray: bool) returns (r: Done)
      modifies this
      ensures Did(old(data), PutColor(c, alpha, gray), r)
    {
      var _ :- U8(c.r);
      if !gray {
        var _ :- U8s([c.g, c.b]);
      }
      if alpha {
        var _ :- U8(c.a);
      }
      r := Success(());
    }

    method WriteStop(stop: Stop, alpha: bool, gray: bool) returns (r: Done)
      modifies this
      ensures Did(old(data), PutStop(alpha, gray)(stop), r)
    {
      var _ :- U8(stop.offset);
      var _ :- WriteColor(stop.color, alpha, gray);
      r := Success(());
    }

    method WriteStops(stops: seq<Stop>, alpha: bool, gray: bool) returns (r: Done)
      modifies this
      ensures Did(old(data), PutMany(PutStop(alpha, gray), stops), r)
    {
      ghost var put := PutStop(alpha, gray);
      ghost var rest := PutMany(put, stops);
      ghost var whole: Written := if rest.Failure? then rest else Success(data + rest.value);
      WritingMany(put, stops, data);
      assert stops[0..] == stops;
      for i := 0 to |stops|
        invariant Writing(put, stops[i..], data, whole)
      {
        WritingStep(put, stops, i, data, whole);
        var _ :- WriteStop(stops[i], alpha, gray);
      }
      r := Success(());
    }

    method WriteGradientMatrix(matrix: Matrix, identity: bool) returns (r: Done)
      requires identity == NearIdentity(matrix, 6)
      modifies this
      ensures Did(old(data), PutGradientMatrix(matrix), r)
    {
      if identity {
        assert data + [] == data;
        r := Success(());
      } else {
        r := Float24s(matrix);
      }
    }

    method WriteGradient(kind: int, matrix: Matrix, stops: seq<Stop>) returns (r: Done)
      modifies this
      ensures Did(old(data), PutGradient(kind, matrix, stops), r)
    {
      var alpha, gray, identity := AnyAlpha(stops), AllGray(stops), NearIdentity(matrix, 6);
      if |stops| > 255 {
        return Failure(TooMany);
      }
      var _ :- U8(kind);
      data := data + [GradientFlags(identity, alpha, gray), |stops|];
      var _ :- WriteGradientMatrix(matrix, identity);
      var _ :- WriteStops(stops, alpha, gray);
      Gathered(old(data), [kind], [GradientFlags(identity, alpha, gray), |stops|], PutGradientMatrix(matrix).value,
        PutMany(PutStop(alpha, gray), stops).value);
      r := Success(());
    }

    method WriteStyle(style: Style) returns (r: Done)
      modifies this
      ensures Did(old(data), PutStyle(style), r)
    {
      match style
      case Gradient(kind, matrix, stops) =>
        data := data + [STYLE_GRADIENT];
        r := WriteGradient(kind, matrix, stops);
      case Solid(c) =>
        var gray, alpha := c.Gray(), c.a < 255;
        data := data + [SolidKind(gray, alpha)];
        r := WriteColor(c, alpha, gray);
    }

    // -- paths

    method WritePoints(points: seq<Point>, plain: bool)
      modifies this
      ensures data == old(data) + if plain then PlainCoords(points) else LineCoords(points)
    {
      ghost var before := data;
      ghost var whole := if plain then PlainCoords(points) else LineCoords(points);
      assert points[0..] == points;
      for i := 0 to |points|
        invariant data + (if plain then PlainCoords(points[i..]) else LineCoords(points[i..])) == before + whole
      {
        assert points[i..][0] == points[i] && points[i..][1..] == points[i + 1..];
        var numbers := if plain then points[i].Coords() else [points[i].x, points[i].y];
        Associate(data, PutCoords(numbers),
                  if plain then PlainCoords(points[i + 1..]) else LineCoords(points[i + 1..]));
        Coords(numbers);
      }
      assert data + [] == data;
    }

    method WriteCommands(commands: seq<int>)
      requires forall i | 0 <= i < |commands| :: 0 <= commands[i] < 4
      modifies this
      ensures data == old(data) + PackCommands(commands)
    {
      ghost var before, rest := data, commands;
      var i := 0;
      while i < |commands|
        invariant 0 <= i && rest == if i < |commands| then commands[i..] else []
        invariant data + PackCommands(rest) == before + PackCommands(commands)
      {
        var four := if i + 4 <= |commands| then commands[i..i + 4] else commands[i..];
        PackHead(rest);
        assert four == if |rest| <= 4 then rest else rest[..4];
        Associate(data, [PackFour(four)], PackCommands(if |rest| <= 4 then [] else rest[4..]));
        var packed := PackByte(four);
        data := data + [packed];
        i := i + 4;
        rest := if |rest| <= 4 then [] else rest[4..];
      }
      assert data + [] == data;
    }

    /** The command of a point, its numbers written to this writer. */
    method WriteCommand(last: Position, p: Point) returns (command: int)
      modifies this
      ensures command == Command(last, p) && data == old(data) + PutCoords(CommandNumbers(last, p))
    {
      if p.IsLine() {
        if p.x == last.x {
          command := V_LINE;
          Coords([p.y]);
        } else if p.y == last.y {
          command := H_LINE;
          Coords([p.x]);
        } else {
          command := LINE;
          Coords([p.x, p.y]);
        }
      } else {
        command := CURVE;
        Coords(p.Coords());
      }
    }

    method WriteCommandForm(points: seq<Point>)
      modifies this
      ensures data == old(data) + (PackCommands(Commands(ORIGIN, points)) + CommandCoords(ORIGIN, points))
    {
      var commands: seq<int> := [];
      var coords := new Writer();
      var last := ORIGIN;
      ghost var rest := points;
      for i := 0 to |points|
        invariant fresh(coords) && data == old(data) && rest == points[i..]
        invariant commands + Commands(last, rest) == Commands(ORIGIN, points)
        invariant coords.data + CommandCoords(last, rest) == CommandCoords(ORIGIN, points)
      {
        var p := points[i];
        assert rest[0] == p && rest[1..] == points[i + 1..];
        CommandTail(commands, coords.data, last, rest);
        var command := coords.WriteCommand(last, p);
        commands := commands + [command];
        last := At(p);
        rest := rest[1..];
      }
      assert commands + [] == commands && coords.data + [] == coords.data;
      WriteCommands(commands);
      Associate(old(data), PackCommands(commands), coords.data);
      data := data + coords.data;
    }

    method WritePath(path: Path) returns (r: Done)
      modifies this
      ensures Did(old(data), PutPath(path), r)
    {
      var points := path.points;
      if |points| > 255 {
        return Failure(TooMany);
      }
      var straight, line, curve := CountPoints(points);
      var flags := Bit(path.closed, PATH_FLAG_CLOSED);
      if |points| + straight * 2 + line * 4 + curve * 12 < |points| * 12 {
        flags := flags + if curve == 0 then PATH_FLAG_NO_CURVES else PATH_FLAG_USES_COMMANDS;
      }
      Associate(data, [flags, |points|], PathBody(points));
      data := data + [flags, |points|];
      PathFlagsRead(path);
      if Flag(flags, PATH_FLAG_NO_CURVES) {
        WritePoints(points, false);
      } else if Flag(flags, PATH_FLAG_USES_COMMANDS) {
        WriteCommandForm(points);
      } else {
        WritePoints(points, true);
      }
      r := Success(());
    }

    // -- shapes

    method WriteTransformer(t: Transformer) returns (r: Done)
      modifies this
      ensures Did(old(data), PutTransformer(t), r)
    {
      match t
      case AffineTransformer(_) =>
        r := Failure(CannotWrite);
      case Contour(width, join, miter) =>
        data := data + [TRANSFORMER_CONTOUR];
        r := U8s([width + 128, join, miter]);
      case Perspective(matrix) =>
        data := data + [TRANSFORMER_PERSPECTIVE];
        r := Float24s(matrix);
      case Stroke(width, join, cap, miter) =>
        data := data + [TRANSFORMER_STROKE];
        r := U8s([width + 128, StrokeOptions(join, cap), miter]);
    }

    method WriteTransformers(ts: seq<Transformer>) returns (r: Done)
      modifies this
      ensures Did(old(data), PutTransformers(ts), r)
    {
      if ts == [] {
        assert data + [] == data;
        return Success(());
      }
      var _ :- U8(|ts|);
      ghost var rest := PutMany(PutTransformer, ts);
      ghost var whole: Written := if rest.Failure? then rest else Success(data + rest.value);
      WritingMany(PutTransformer, ts, data);
      assert ts[0..] == ts;
      for i := 0 to |ts|
        invariant Writing(PutTransformer, ts[i..], data, whole)
      {
        WritingStep(PutTransformer, ts, i, data, whole);
        var _ :- WriteTransformer(ts[i]);
      }
      r := Success(());
    }

    method WriteMatrix(matrix: Option<Matrix>) returns (r: Done)
      modifies this
      ensures Did(old(data), PutMatrix(matrix), r)
    {
      match FormOf(matrix)
      case NoMatrix =>
        assert data + [] == data;
        r := Success(());
      case Full =>
        r := Float24s(matrix.value);
      case Translation =>
        Coords([matrix.value[4], matrix.value[5]]);
        r := Success(());
    }

    method WriteLod(lod: Option<Lod>) returns (r: Done)
      modifies this
      ensures Did(old(data), PutLod(lod), r)
    {
      if HasLod(lod) {
        r := U8s([lod.value.least, lod.value.most]);
      } else {
        assert data + [] == data;
        r := Success(());
      }
    }

    method WriteShape(shape: Shape) returns (r: Done)
      modifies this
      ensures Did(old(data), PutShape(shape), r)
    {
      if |shape.paths| > 255 || |shape.transformers| > 255 {
        return Failure(TooMany);
      }
      data := data + [SHAPE_PATH_SOURCE];
      var _ :- U8(shape.style);
      data := data + [|shape.paths|];
      var _ :- U8s(shape.paths);
      data := data + [ShapeFlags(shape)];
      var _ :- WriteMatrix(shape.matrix);
      var _ :- WriteLod(shape.lod);
      var _ :- WriteTransformers(shape.transformers);
      GatheredShape(old(data), [SHAPE_PATH_SOURCE], PutByte(shape.style).value, [|shape.paths|],
        PutMany(PutByte, shape.paths).value, [ShapeFlags(shape)], PutMatrix(shape.matrix).value,
        PutLod(shape.lod).value, PutTransformers(shape.transformers).value);
      r := Success(());
    }

    // -- the three tables

    method WriteCount(count: int)
      requires 0 <= count < 256
      modifies this
      ensures data == old(data) + [count]
    {
      data := data + [count];
    }

    method WriteTables(icon: Icon) returns (r: Done)
      requires data == [] && |icon.styles| <= 255 && |icon.paths| <= 255 && |icon.shapes| <= 255
      modifies this
      ensures if r.Success? then Encode(icon) == Success(data) else Encode(icon) == Failure(r.error)
    {
      data := MAGIC_BYTES;
      WriteCount(|icon.styles|);
      var _ :- WriteStyles(icon.styles);
      Associate(MAGIC_BYTES, [|icon.styles|], PutMany(PutStyle, icon.styles).value);
      ghost var first := data;
      WriteCount(|icon.paths|);
      var _ :- WritePaths(icon.paths);
      Associate(first, [|icon.paths|], PutMany(PutPath, icon.paths).value);
      ghost var second := data;
      WriteCount(|icon.shapes|);
      var _ :- WriteShapes(icon.shapes);
      Associate(second, [|icon.shapes|], PutMany(PutShape, icon.shapes).value);
      r := Success(());
    }

    method WriteStyles(styles: seq<Style>) returns (r: Done)
      modifies this
      ensures Did(old(data), PutMany(PutStyle, styles), r)
    {
      ghost var rest := PutMany(PutStyle, styles);
      ghost var whole: Written := if rest.Failure? then rest else Success(data + rest.value);
      WritingMany(PutStyle, styles, data);
      assert styles[0..] == styles;
      for i := 0 to |styles|
        invariant Writing(PutStyle, styles[i..], data, whole)
      {
        WritingStep(PutStyle, styles, i, data, whole);
        var _ :- WriteStyle(styles[i]);
      }
      r := Success(());
    }

    method WritePaths(paths: seq<Path>) returns (r: Done)
      modifies this
      ensures Did(old(data), PutMany(PutPath, paths), r)
    {
      ghost var rest := PutMany(PutPath, paths);
      ghost var whole: Written := if rest.Failure? then rest else Success(data + rest.value);
      WritingMany(PutPath, paths, data);
      assert paths[0..] == paths;
      for i := 0 to |paths|
        invariant Writing(PutPath, paths[i..], data, whole)
      {
        WritingStep(PutPath, paths, i, data, whole);
        var _ :- WritePath(paths[i]);
      }
      r := Success(());
    }

    method WriteShapes(shapes: seq<Shape>) returns (r: Done)
      modifies this
      ensures Did(old(data), PutMany(PutShape, shapes), r)
    {
      ghost var rest := PutMany(PutShape, shapes);
      ghost var whole: Written := if rest.Failure? then rest else Success(data + rest.value);
      WritingMany(PutShape, shapes, data);
      assert shapes[0..] == shapes;
      for i := 0 to |shapes|
        invariant Writing(PutShape, shapes[i..], data, whole)
      {
        WritingStep(PutShape, shapes, i, data, whole);
        var _ :- WriteShape(shapes[i]);
      }
      r := Success(());
    }
  }

  /** Moving the first point from what is to come to what is done. */
  lemma {:induction false} CommandTail(commands: seq<int>, coords: Bytes, last: Position, points: seq<Point>)
    requires points != []
    ensures commands + Commands(last, points)
      == (commands + [Command(last, points[0])]) + Commands(At(points[0]), points[1..])
    ensures coords + CommandCoords(last, points)
      == (coords + PutCoords(CommandNumbers(last, points[0]))) + CommandCoords(At(points[0]), points[1..])
  {
    Associate(coords, PutCoords(CommandNumbers(last, points[0])), CommandCoords(At(points[0]), points[1..]));
  }

  lemma {:induction false} Gathered(before: Bytes, a: Bytes, b: Bytes, c: Bytes, d: Bytes)
    ensures before + a + b + c + d == before + (a + b + c + d)
  {
  }

  lemma {:induction false} Shifted(packed: int, shift: int, c: int, rest: int)
    ensures packed + shift * (c + 4 * rest) == (packed + c * shift) + shift * 4 * rest
  {
  }

  lemma {:induction false} PackHead(cs: seq<int>)
    requires cs != [] && forall i | 0 <= i < |cs| :: 0 <= cs[i] < 4
    ensures PackCommands(cs) ==
      [PackFour(if |cs| <= 4 then cs else cs[..4])] + PackCommands(if |cs| <= 4 then [] else cs[4..])
  {
    if |cs| <= 4 {
      assert [PackFour(cs)] + [] == [PackFour(cs)];
    }
  }

  /** The inner loop: byte |= command << (2 * j), no two commands sharing a bit. */
  method PackByte(four: seq<int>) returns (packed: int)
    requires |four| <= 4 && forall i | 0 <= i < |four| :: 0 <= four[i] < 4
    ensures packed == PackFour(four)
  {
    packed := 0;
    var shift := 1;
    assert four[0..] == four;
    for j := 0 to |four|
      invariant packed + shift * PackFour(four[j..]) == PackFour(four)
    {
      assert four[j..][0] == four[j] && four[j..][1..] == four[j + 1..];
      Shifted(packed, shift, four[j], PackFour(four[j + 1..]));
      packed := packed + four[j] * shift;
      shift := shift * 4;
    }
  }

  /** The encoder's first pass over a path's points. */
  method CountPoints(points: seq<Point>) returns (straight: int, line: int, curve: int)
    ensures var cs := Commands(ORIGIN, points);
      straight == CountOf(cs, {H_LINE, V_LINE}) && line == CountOf(cs, {LINE}) && curve == CountOf(cs, {CURVE})
  {
    ghost var cs := Commands(ORIGIN, points);
    straight, line, curve := 0, 0, 0;
    var last := ORIGIN;
    for i := 0 to |points|
      invariant last == if i == 0 then ORIGIN else At(points[i - 1])
      invariant straight == CountOf(cs[..i], {H_LINE, V_LINE})
      invariant line == CountOf(cs[..i], {LINE}) && curve == CountOf(cs[..i], {CURVE})
    {
      var p := points[i];
      CommandAt(ORIGIN, points, i);
      assert cs[..i + 1][..i] == cs[..i];
      if p.IsLine() {
        if p.x == last.x || p.y == last.y {
          straight := straight + 1;
        } else {
          line := line + 1;
        }
      } else {
        curve := curve + 1;
      }
      last := At(p);
    }
    assert cs[..|points|] == cs;
  }

  lemma {:induction false} GatheredShape(before: Bytes, a: Bytes, b: Bytes, c: Bytes, d: Bytes, e: Bytes, f: Bytes,
                                         g: Bytes, h: Bytes)
    ensures before + a + b + c + d + e + f + g + h == before + (a + b + c + d + e + f + g + h)
  {
  }

  /** encode(icon). */
  method EncodeIcon(icon: Icon) returns (r: Written)
    ensures r == Encode(icon)
  {
    if |icon.styles| > 255 || |icon.paths| > 255 || |icon.shapes| > 255 {
      return Failure(TooMany);
    }
    var w := new Writer();
    var done := w.WriteTables(icon);
    r := if done.Success? then Success(w.data) else Failure(done.error);
  }

  /** A file that encode wrote, with anything after it, read by decode. */
  method EncodeThenDecode(icon: Icon, trailing: Bytes) returns (written: Written, read: Result<Icon, HvifError>)
    ensures written.Failure? ==> read == Failure(written.error)
    ensures written.Success? && StylesInRange(icon.shapes, |icon.styles|) ==> read == Success(Norm(icon))
    ensures written.Success? && !StylesInRange(icon.shapes, |icon.styles|) ==>
      read == Failure(MissingStyle(FirstMissing(icon.shapes, |icon.styles|)))
  {
    written := EncodeIcon(icon);
    if written.Failure? {
      return written, Failure(written.error);
    }
    RoundTrip(icon, trailing);
    read := HvifCodec.DecodeIcon(written.value + trailing);
  }
}
