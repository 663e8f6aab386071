/** The reader, the writer, and the loops of decode and encode, each held to the functions of
    HvifFormat. */
module HvifCodec {
  import opened Wrappers
  import opened HvifNumbers
  import opened HvifModel
  import opened HvifCleanUp
  import opened HvifFormat
  import opened Float24

  /** A list being read: with xs read and `left` entries to come from s, it will be `whole`. */
  ghost predicate Reading<T(!new)>(get: Bytes -> Parse<T>, left: nat, xs: seq<T>, s: Bytes, whole: Parse<seq<T>>)
    decreases left
  {
    if left == 0 then whole == Success((xs, s))
    else
      var first := get(s);
      if first.Failure? then whole == Failure(first.error)
      else Reading(get, left - 1, xs + [first.value.0], first.value.1, whole)
  }

  lemma {:induction false} ReadingMany<T(!new)>(get: Bytes -> Parse<T>, n: nat, s: Bytes)
    ensures Reading(get, n, [], s, GetMany(get, n, s))
  {
    ReadingRest(get, n, [], s);
    var rest := GetMany(get, n, s);
    if rest.Success? {
      assert [] + rest.value.0 == rest.value.0;
    }
  }

  lemma {:induction false} ReadingRest<T(!new)>(get: Bytes -> Parse<T>, n: nat, xs: seq<T>, s: Bytes)
    ensures var rest := GetMany(get, n, s);
      Reading(get, n, xs, s, if rest.Failure? then rest else Success((xs + rest.value.0, rest.value.1)))
    decreases n
  {
    if n == 0 {
      assert xs + [] == xs;
    } else if get(s).Success? {
      var (x, s1) := get(s).value;
      ReadingRest(get, n - 1, xs + [x], s1);
      var rest := GetMany(get, n - 1, s1);
      if rest.Success? {
        assert xs + ([x] + rest.value.0) == xs + [x] + rest.value.0;
      }
    }
  }

  lemma {:induction false} ReadingStep<T(!new)>(get: Bytes -> Parse<T>, left: int, xs: seq<T>, s: Bytes,
                                                whole: Parse<seq<T>>)
    requires left > 0 && Reading(get, left, xs, s, whole)
    ensures get(s).Failure? ==> whole == Failure(get(s).error)
    ensures get(s).Success? ==> Reading(get, left - 1, xs + [get(s).value.0], get(s).value.1, whole)
  {
  }

  /** The same for the points of a path in commands. */
  ghost predicate ReadingCommands(commands: Bytes, p: int, count: int, last: Position, points: seq<Point>, s: Bytes,
                                  whole: Parse<seq<Point>>)
    requires 0 <= p <= count <= 4 * |commands|
    decreases count - p
  {
    if p == count then whole == Success((points, s))
    else
      var first := GetCommandPoint(UnpackCommand(commands[p / 4], p % 4), last, s);
      if first.Failure? then whole == Failure(first.error)
      else ReadingCommands(commands, p + 1, count, At(first.value.0), points + [first.value.0], first.value.1, whole)
  }

  lemma {:induction false} ReadingCommandsRest(commands: Bytes, p: int, count: int, last: Position,
                                               points: seq<Point>, s: Bytes)
    requires 0 <= p <= count <= 4 * |commands|
    ensures var rest := GetCommandPoints(commands, p, count, last, s);
      ReadingCommands(commands, p, count, last, points, s,
        if rest.Failure? then rest else Success((points + rest.value.0, rest.value.1)))
    decreases count - p
  {
    if p == count {
      assert points + [] == points;
    } else {
      var first := GetCommandPoint(UnpackCommand(commands[p / 4], p % 4), last, s);
      if first.Success? {
        var (x, s1) := first.value;
        ReadingCommandsRest(commands, p + 1, count, At(x), points + [x], s1);
        var rest := GetCommandPoints(commands, p + 1, count, At(x), s1);
        if rest.Success? {
          assert points + ([x] + rest.value.0) == points + [x] + rest.value.0;
        }
      }
    }
  }

  lemma {:induction false} ReadingAllCommands(commands: Bytes, count: int, s: Bytes)
    requires 0 <= count <= 4 * |commands|
    ensures ReadingCommands(commands, 0, count, ORIGIN, [], s, GetCommandPoints(commands, 0, count, ORIGIN, s))
  {
    ReadingCommandsRest(commands, 0, count, ORIGIN, [], s);
    var rest := GetCommandPoints(commands, 0, count, ORIGIN, s);
    if rest.Success? {
      assert [] + rest.value.0 == rest.value.0;
    }
  }

  class Reader {
    const data: Bytes
    var pos: nat

    constructor (data: Bytes)
      ensures this.data == data && pos == 0 && Remaining() == data
    {
      this.data := data;
      pos := 0;
    }

    /** The bytes not read yet; none when a skip went past the end. */
    ghost function Remaining(): Bytes
      reads this
    {
      Skip(pos, data)
    }

    /** A read did what a parse of the remaining bytes says. */
    ghost predicate Did<T>(p: Parse<T>, r: Result<T, HvifError>)
      reads this
    {
      p == if r.Success? then Success((r.value, Remaining())) else Failure(r.error)
    }

    method U8() returns (r: Result<byte, HvifError>)
      modifies this
      ensures Did(GetByte(old(Remaining())), r)
    {
      if pos >= |data| {
        return Failure(Truncated);
      }
      r := Success(data[pos]);
      pos := pos + 1;
    }

    method U16() returns (r: Result<int, HvifError>)
      modifies this
      ensures Did(GetU16(old(Remaining())), r)
    {
      var low :- U8();
      var high :- U8();
      r := Success(low as int + 256 * high as int);
    }

    method U32() returns (r: Result<int, HvifError>)
      modifies this
      ensures Did(GetU32(old(Remaining())), r)
    {
      var low :- U16();
      var high :- U16();
      r := Success(low + 0x1_0000 * high);
    }

    method SkipBytes(count: nat)
      modifies this
      ensures Remaining() == Skip(count, old(Remaining()))
    {
      pos := pos + count;
    }

    method Coord() returns (r: Result<real, HvifError>)
      modifies this
      ensures Did(GetCoord(old(Remaining())), r)
    {
      var value :- U8();
      if value >= 128 {
        var low :- U8();
        r := Success(DecodeWide(value, low));
      } else {
        r := Success(DecodeNarrow(value));
      }
    }

    method Float24() returns (r: Result<real, HvifError>)
      modifies this
      ensures Did(GetFloat24(old(Remaining())), r)
    {
      var b0 :- U8();
      var b1 :- U8();
      var b2 :- U8();
      r := Success(DecodeFloat24(b0 as int * 0x1_0000 + b1 as int * 0x100 + b2));
    }

    method ReadBytes(n: nat) returns (r: Result<seq<byte>, HvifError>)
      modifies this
      ensures Did(GetMany(GetByte, n, old(Remaining())), r)
    {
      var xs: seq<byte> := [];
      ghost var whole := GetMany(GetByte, n, Remaining());
      ReadingMany(GetByte, n, Remaining());
      for i := 0 to n
        invariant Reading(GetByte, n - i, xs, Remaining(), whole)
      {
        ReadingStep(GetByte, n - i, xs, Remaining(), whole);
        var x :- U8();
        xs := xs + [x];
      }
      r := Success(xs);
    }

    method U32s(n: nat) returns (r: Result<seq<int>, HvifError>)
      modifies this
      ensures Did(GetMany(GetU32, n, old(Remaining())), r)
    {
      var xs := [];
      ghost var whole := GetMany(GetU32, n, Remaining());
      ReadingMany(GetU32, n, Remaining());
      for i := 0 to n
        invariant Reading(GetU32, n - i, xs, Remaining(), whole)
      {
        ReadingStep(GetU32, n - i, xs, Remaining(), whole);
        var x :- U32();
        xs := xs + [x];
      }
      r := Success(xs);
    }

    method Coords(n: nat) returns (r: Result<seq<real>, HvifError>)
      modifies this
      ensures Did(GetMany(GetCoord, n, old(Remaining())), r)
    {
      var xs := [];
      ghost var whole := GetMany(GetCoord, n, Remaining());
      ReadingMany(GetCoord, n, Remaining());
      for i := 0 to n
        invariant Reading(GetCoord, n - i, xs, Remaining(), whole)
      {
        ReadingStep(GetCoord, n - i, xs, Remaining(), whole);
        var x :- Coord();
        xs := xs + [x];
      }
      r := Success(xs);
    }

    method Float24s(n: nat) returns (r: Result<seq<real>, HvifError>)
      modifies this
      ensures Did(GetMany(GetFloat24, n, old(Remaining())), r)
    {
      var xs := [];
      ghost var whole := GetMany(GetFloat24, n, Remaining());
      ReadingMany(GetFloat24, n, Remaining());
      for i := 0 to n
        invariant Reading(GetFloat24, n - i, xs, Remaining(), whole)
      {
        ReadingStep(GetFloat24, n - i, xs, Remaining(), whole);
        var x :- Float24();
        xs := xs + [x];
      }
      r := Success(xs);
    }

    method ReadRgba(alpha: bool, gray: bool) returns (r: Result<Rgba, HvifError>)
      modifies this
      ensures Did(GetRgba(alpha, gray, old(Remaining())), r)
    {
      var red :- U8();
      var g, b := red, red;
      if !gray {
        var gb :- ReadBytes(2);
        g, b := gb[0], gb[1];
      }
      var a: byte := 255;
      if alpha {
        a :- U8();
      }
      r := Success(Rgba(red, g, b, a));
    }

    // -- styles

    method OneStop(alpha: bool, gray: bool) returns (r: Result<Stop, HvifError>)
      modifies this
      ensures Did(GetStop(alpha, gray)(old(Remaining())), r)
    {
      var offset :- U8();
      var color :- ReadRgba(alpha, gray);
      r := Success(Stop(offset, color));
    }

    method Stops(count: nat, alpha: bool, gray: bool) returns (r: Result<seq<Stop>, HvifError>)
      modifies this
      ensures Did(GetMany(GetStop(alpha, gray), count, old(Remaining())), r)
    {
      var get := GetStop(alpha, gray);
      var stops := [];
      ghost var whole := GetMany(get, count, Remaining());
      ReadingMany(get, count, Remaining());
      for i := 0 to count
        invariant Reading(get, count - i, stops, Remaining(), whole)
      {
        ReadingStep(get, count - i, stops, Remaining(), whole);
        var stop :- OneStop(alpha, gray);
        stops := stops + [stop];
      }
      r := Success(stops);
    }

    method SolidStyle(alpha: bool, gray: bool) returns (r: Result<Option<Style>, HvifError>)
      modifies this
      ensures Did(GetSolid(alpha, gray, old(Remaining())), r)
    {
      var color :- ReadRgba(alpha, gray);
      r := Success(Some(Solid(color)));
    }

    method GradientStyle() returns (r: Result<Option<Style>, HvifError>)
      modifies this
      ensures Did(GetGradient(old(Remaining())), r)
    {
      var kind :- U8();
      var flags :- U8();
      var count :- U8();
      var matrix: Matrix := IDENTITY;
      if Flag(flags, GRADIENT_FLAG_TRANSFORM) {
        matrix :- Float24s(6);
      }
      var alpha, gray := !Flag(flags, GRADIENT_FLAG_NO_ALPHA), Flag(flags, GRADIENT_FLAG_GRAYS);
      var stops :- Stops(count, alpha, gray);
      r := Success(Some(Gradient(kind, matrix, SortStops(stops))));
    }

    method ReadStyle() returns (r: Result<Option<Style>, HvifError>)
      modifies this
      ensures Did(GetStyle(old(Remaining())), r)
    {
      var kind :- U8();
      if kind == STYLE_SOLID_COLOR {
        r := SolidStyle(true, false);
      } else if kind == STYLE_SOLID_COLOR_NO_ALPHA {
        r := SolidStyle(false, false);
      } else if kind == STYLE_SOLID_GRAY {
        r := SolidStyle(true, true);
      } else if kind == STYLE_SOLID_GRAY_NO_ALPHA {
        r := SolidStyle(false, true);
      } else if kind == STYLE_GRADIENT {
        r := GradientStyle();
      } else {
        var length :- U16();
        SkipBytes(length);
        r := Success(None);
      }
    }

    // -- paths

    method PlainPoint() returns (r: Result<Point, HvifError>)
      modifies this
      ensures Did(GetPlainPoint(old(Remaining())), r)
    {
      var c :- Coords(6);
      r := Success(Point(c[0], c[1], c[2], c[3], c[4], c[5]));
    }

    method XYPoint() returns (r: Result<Point, HvifError>)
      modifies this
      ensures Did(GetLinePoint(old(Remaining())), r)
    {
      var x :- Coord();
      var y :- Coord();
      r := Success(LinePoint(x, y));
    }

    method CommandPoint(command: int, last: Position) returns (r: Result<Point, HvifError>)
      modifies this
      ensures Did(GetCommandPoint(command, last, old(Remaining())), r)
    {
      if command == H_LINE {
        var x :- Coord();
        r := Success(LinePoint(x, last.y));
      } else if command == V_LINE {
        var y :- Coord();
        r := Success(LinePoint(last.x, y));
      } else if command == LINE {
        r := XYPoint();
      } else {
        r := PlainPoint();
      }
    }

    method CommandPoints(commands: Bytes, count: nat) returns (r: Result<seq<Point>, HvifError>)
      requires count <= 4 * |commands|
      modifies this
      ensures Did(GetCommandPoints(commands, 0, count, ORIGIN, old(Remaining())), r)
    {
      var points := [];
      var last := ORIGIN;
      ghost var whole := GetCommandPoints(commands, 0, count, ORIGIN, Remaining());
      ReadingAllCommands(commands, count, Remaining());
      for p := 0 to count
        invariant ReadingCommands(commands, p, count, last, points, Remaining(), whole)
      {
        var point :- CommandPoint(UnpackCommand(commands[p / 4], p % 4), last);
        points := points + [point];
        last := At(point);
      }
      r := Success(points);
    }

    method LinePoints(count: nat) returns (r: Result<seq<Point>, HvifError>)
      modifies this
      ensures Did(GetMany(GetLinePoint, count, old(Remaining())), r)
    {
      var points := [];
      ghost var whole := GetMany(GetLinePoint, count, Remaining());
      ReadingMany(GetLinePoint, count, Remaining());
      for i := 0 to count
        invariant Reading(GetLinePoint, count - i, points, Remaining(), whole)
      {
        ReadingStep(GetLinePoint, count - i, points, Remaining(), whole);
        var point :- XYPoint();
        points := points + [point];
      }
      r := Success(points);
    }

    method PlainPoints(count: nat) returns (r: Result<seq<Point>, HvifError>)
      modifies this
      ensures Did(GetMany(GetPlainPoint, count, old(Remaining())), r)
    {
      var points := [];
      ghost var whole := GetMany(GetPlainPoint, count, Remaining());
      ReadingMany(GetPlainPoint, count, Remaining());
      for i := 0 to count
        invariant Reading(GetPlainPoint, count - i, points, Remaining(), whole)
      {
        ReadingStep(GetPlainPoint, count - i, points, Remaining(), whole);
        var point :- PlainPoint();
        points := points + [point];
      }
      r := Success(points);
    }

    method Points(flags: byte, count: byte) returns (r: Result<seq<Point>, HvifError>)
      modifies this
      ensures Did(GetPoints(flags, count, old(Remaining())), r)
    {
      if Flag(flags, PATH_FLAG_NO_CURVES) {
        r := LinePoints(count);
      } else if Flag(flags, PATH_FLAG_USES_COMMANDS) {
        var commands :- ReadBytes((count + 3) / 4);
        r := CommandPoints(commands, count);
      } else {
        r := PlainPoints(count);
      }
    }

    method ReadPath() returns (r: Result<Path, HvifError>)
      modifies this
      ensures Did(GetPath(old(Remaining())), r)
    {
      var flags :- U8();
      var count :- U8();
      var points :- Points(flags, count);
      var clean := CleanUpLoop(points);
      r := Success(Path(clean, Flag(flags, PATH_FLAG_CLOSED)));
    }

    // -- shapes

    method ReadTransformer() returns (r: Result<Option<Transformer>, HvifError>)
      modifies this
      ensures Did(GetTransformer(old(Remaining())), r)
    {
      var kind :- U8();
      if kind == TRANSFORMER_AFFINE {
        var bits :- U32s(6);
        r := Success(Some(AffineTransformer(bits)));
      } else if kind == TRANSFORMER_CONTOUR {
        var b :- ReadBytes(3);
        r := Success(Some(Contour(b[0] as int - 128, b[1], b[2])));
      } else if kind == TRANSFORMER_PERSPECTIVE {
        var matrix :- Float24s(9);
        r := Success(Some(Perspective(matrix)));
      } else if kind == TRANSFORMER_STROKE {
        var b :- ReadBytes(3);
        r := Success(Some(Stroke(b[0] as int - 128, b[1] % 16, b[1] / 16, b[2])));
      } else {
        var length :- U16();
        SkipBytes(length);
        r := Success(None);
      }
    }

    method ShapeMatrix(flags: byte) returns (r: Result<Option<Matrix>, HvifError>)
      modifies this
      ensures Did(GetShapeMatrix(flags, old(Remaining())), r)
    {
      if Flag(flags, SHAPE_FLAG_TRANSFORM) {
        var m :- Float24s(6);
        r := Success(Some(m));
      } else if Flag(flags, SHAPE_FLAG_TRANSLATION) {
        var x :- Coord();
        var y :- Coord();
        var m: Matrix := [1.0, 0.0, 0.0, 1.0, x, y];
        r := Success(Some(m));
      } else {
        r := Success(None);
      }
    }

    method ShapeLod(flags: byte) returns (r: Result<Option<Lod>, HvifError>)
      modifies this
      ensures Did(GetLod(flags, old(Remaining())), r)
    {
      if Flag(flags, SHAPE_FLAG_LOD_SCALE) {
        var b :- ReadBytes(2);
        r := Success(Some(Lod(b[0], b[1])));
      } else {
        r := Success(None);
      }
    }

    method ShapeTransformers(flags: byte) returns (r: Result<seq<Transformer>, HvifError>)
      modifies this
      ensures Did(GetTransformers(flags, old(Remaining())), r)
    {
      if !Flag(flags, SHAPE_FLAG_HAS_TRANSFORMERS) {
        return Success([]);
      }
      var count :- U8();
      ghost var found;
      r, found := Transformers(count);
    }

    method Transformers(count: nat) returns (r: Result<seq<Transformer>, HvifError>,
                                             ghost found: seq<Option<Transformer>>)
      modifies this
      ensures GetMany(GetTransformer, count, old(Remaining()))
        == if r.Success? then Success((found, Remaining())) else Failure(r.error)
      ensures r.Success? ==> r.value == Present(found)
    {
      var transformers := [];
      found := [];
      ghost var whole := GetMany(GetTransformer, count, Remaining());
      ReadingMany(GetTransformer, count, Remaining());
      for i := 0 to count
        invariant transformers == Present(found)
        invariant Reading(GetTransformer, count - i, found, Remaining(), whole)
      {
        ReadingStep(GetTransformer, count - i, found, Remaining(), whole);
        var t := ReadTransformer();
        if t.Failure? {
          return Failure(t.error), found;
        }
        PresentOne(found, t.value);
        found := found + [t.value];
        if t.value.Some? {
          transformers := transformers + [t.value.value];
        }
      }
      r := Success(transformers);
    }

    /** styleMap is the source's style_map; table is what it was made from. */
    method ReadOneShape(ghost table: seq<Option<Style>>, styleMap: map<int, int>, pathCount: int)
      returns (r: Result<Option<Shape>, HvifError>)
      requires MapsStyles(styleMap, table)
      modifies this
      ensures Did(GetShape(table, pathCount)(old(Remaining())), r)
    {
      var kind :- U8();
      if kind != SHAPE_PATH_SOURCE {
        var length :- U16();
        SkipBytes(length);
        return Success(None);
      }
      var style :- U8();
      var count :- U8();
      var paths :- ReadBytes(count);
      var flags :- U8();
      var matrix :- ShapeMatrix(flags);
      var lod :- ShapeLod(flags);
      var transformers :- ShapeTransformers(flags);
      if style !in styleMap {
        return Failure(MissingStyle(style));
      }
      r := Success(Some(Shape(styleMap[style], Below(paths, pathCount), matrix,
        Flag(flags, SHAPE_FLAG_HINTING), lod, transformers)));
    }

    // -- the three tables

    method Styles(count: nat) returns (r: Result<(seq<Style>, map<int, int>), HvifError>,
                                       ghost table: seq<Option<Style>>)
      modifies this
      ensures GetMany(GetStyle, count, old(Remaining()))
        == if r.Success? then Success((table, Remaining())) else Failure(r.error)
      ensures r.Success? ==> r.value.0 == Present(table) && MapsStyles(r.value.1, table)
    {
      var styles := [];
      var styleMap: map<int, int> := map[];
      table := [];
      ghost var whole := GetMany(GetStyle, count, Remaining());
      ReadingMany(GetStyle, count, Remaining());
      for i := 0 to count
        invariant |table| == i && ReadingStyles(count - i, table, styles, styleMap, Remaining(), whole)
      {
        ReadingStep(GetStyle, count - i, table, Remaining(), whole);
        ghost var s := Remaining();
        var style := ReadStyle();
        if style.Failure? {
          return Failure(style.error), table;
        }
        OneMoreStyle(count - i, table, styles, styleMap, s, whole, style.value, Remaining());
        table := table + [style.value];
        if style.value.Some? {
          styleMap := styleMap[i := |styles|];
          styles := styles + [style.value.value];
        }
      }
      r := Success((styles, styleMap));
    }

    method Paths(count: nat) returns (r: Result<seq<Path>, HvifError>)
      modifies this
      ensures Did(GetMany(GetPath, count, old(Remaining())), r)
    {
      ReadingMany(GetPath, count, Remaining());
      r := PathLoop(count, GetPath, GetMany(GetPath, count, Remaining()));
    }

    method PathLoop(count: nat, ghost get: Bytes -> Parse<Path>, ghost whole: Parse<seq<Path>>)
      returns (r: Result<seq<Path>, HvifError>)
      requires ReadsPaths(get) && Reading(get, count, [], Remaining(), whole)
      modifies this
      ensures Did(whole, r)
    {
      var paths := [];
      for i := 0 to count
        invariant Reading(get, count - i, paths, Remaining(), whole)
      {
        ReadingStep(get, count - i, paths, Remaining(), whole);
        var path :- NextPath(get);
        paths := paths + [path];
      }
      r := Success(paths);
    }

    method NextPath(ghost get: Bytes -> Parse<Path>) returns (r: Result<Path, HvifError>)
      requires ReadsPaths(get)
      modifies this
      ensures Did(get(old(Remaining())), r)
    {
      r := ReadPath();
    }

    method Shapes(count: nat, ghost table: seq<Option<Style>>, styleMap: map<int, int>, pathCount: int)
      returns (r: Result<seq<Shape>, HvifError>, ghost found: seq<Option<Shape>>)
      requires MapsStyles(styleMap, table)
      modifies this
      ensures GetMany(GetShape(table, pathCount), count, old(Remaining()))
        == if r.Success? then Success((found, Remaining())) else Failure(r.error)
      ensures r.Success? ==> r.value == Present(found)
    {
      var shapes := [];
      found := [];
      ghost var get := GetShape(table, pathCount);
      ghost var whole := GetMany(get, count, Remaining());
      ReadingMany(get, count, Remaining());
      for i := 0 to count
        invariant shapes == Present(found)
        invariant Reading(get, count - i, found, Remaining(), whole)
      {
        ReadingStep(get, count - i, found, Remaining(), whole);
        var shape := ReadOneShape(table, styleMap, pathCount);
        if shape.Failure? {
          return Failure(shape.error), found;
        }
        PresentOne(found, shape.value);
        found := found + [shape.value];
        if shape.value.Some? {
          shapes := shapes + [shape.value.value];
        }
      }
      r := Success(shapes);
    }
  }

  lemma {:induction false} PresentOne<T>(found: seq<Option<T>>, x: Option<T>)
    ensures Present(found + [x]) == Present(found) + if x.Some? then [x.value] else []
  {
    assert (found + [x])[..|found|] == found;
  }

  /** The map from a style's place in the file to its place among the styles that were read. */
  ghost predicate MapsStyles(styleMap: map<int, int>, table: seq<Option<Style>>) {
    && (forall i :: i in styleMap <==> 0 <= i < |table| && table[i].Some?)
    && (forall i | i in styleMap :: styleMap[i] == |Present(table[..i])|)
  }

  /** The table of styles being read, and the map of the places of those that were. */
  ghost predicate ReadingStyles(left: nat, table: seq<Option<Style>>, styles: seq<Style>, styleMap: map<int, int>,
                                s: Bytes, whole: Parse<seq<Option<Style>>>)
  {
    Reading(GetStyle, left, table, s, whole) && styles == Present(table) && MapsStyles(styleMap, table)
  }

  lemma {:induction false} OneMoreStyle(left: nat, table: seq<Option<Style>>, styles: seq<Style>,
                                        styleMap: map<int, int>, s: Bytes, whole: Parse<seq<Option<Style>>>,
                                        style: Option<Style>, rest: Bytes)
    requires left > 0 && ReadingStyles(left, table, styles, styleMap, s, whole)
    requires GetStyle(s) == Success((style, rest))
    ensures style.None? ==> ReadingStyles(left - 1, table + [style], styles, styleMap, rest, whole)
    ensures style.Some? ==>
      ReadingStyles(left - 1, table + [style], styles + [style.value], styleMap[|table| := |styles|], rest, whole)
  {
    ReadingStep(GetStyle, left, table, s, whole);
    PresentOne(table, style);
    MapsOneMore(styleMap, table, style);
  }

  /** get is GetPath, said so that what a path looks like stays out of the loop over them. */
  ghost predicate ReadsPaths(get: Bytes -> Parse<Path>) {
    forall s: Bytes {:trigger GetPath(s)} :: get(s) == GetPath(s)
  }

  /** decode(data). */
  method DecodeIcon(data: Bytes) returns (r: Result<Icon, HvifError>)
    ensures r == Decode(data)
  {
    var reader := new Reader(data);
    var magic :- reader.U32();
    if magic != MAGIC {
      return Failure(NotHvif);
    }
    var count :- reader.U8();
    var tables, table := reader.Styles(count);
    var found :- tables;
    var (styles, styleMap) := found;
    count :- reader.U8();
    var paths :- reader.Paths(count);
    count :- reader.U8();
    var shapes, _ := reader.Shapes(count, table, styleMap, |paths|);
    if shapes.Failure? {
      return Failure(shapes.error);
    }
    r := Success(Icon(styles, paths, shapes.value));
  }

  lemma {:induction false} MapsOneMore(styleMap: map<int, int>, table: seq<Option<Style>>, style: Option<Style>)
    requires MapsStyles(styleMap, table)
    ensures MapsStyles(if style.Some? then styleMap[|table| := |Present(table)|] else styleMap, table + [style])
  {
    var more := table + [style];
    assert more[..|table|] == table;
    forall i | 0 <= i < |table|
      ensures more[..i] == table[..i]
    {
    }
  }
}
