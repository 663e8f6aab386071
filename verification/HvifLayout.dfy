/** Where everything stands in an HVIF file, byte by byte and bit by bit, in numbers: what the
    reader makes of given bytes, and which bytes the writer chooses. */
module HvifLayout {
  import opened Wrappers
  import opened Binary32
  import opened Float24
  import opened HvifNumbers
  import opened HvifModel
  import opened HvifFormat
  import opened HvifCleanUp

  // -- numbers

  /** A flag is one bit of its byte. */
  lemma {:induction false} FlagIsBit(low: int, bit: int, high: int)
    requires 0 <= low && 0 <= bit < 2 && 0 <= high
    ensures low < 2 ==> (Flag(low + 2 * bit + 4 * high, 2) <==> bit == 1)
    ensures low < 4 ==> (Flag(low + 4 * bit + 8 * high, 4) <==> bit == 1)
    ensures low < 8 ==> (Flag(low + 8 * bit + 16 * high, 8) <==> bit == 1)
    ensures low < 16 ==> (Flag(low + 16 * bit + 32 * high, 16) <==> bit == 1)
    ensures low < 32 ==> (Flag(low + 32 * bit + 64 * high, 32) <==> bit == 1)
  {
    var q := bit + 2 * high;
    if low < 2 {
      QuotientIs(low + 2 * q, 2, q);
    }
    if low < 4 {
      QuotientIs(low + 4 * q, 4, q);
    }
    if low < 8 {
      QuotientIs(low + 8 * q, 8, q);
    }
    if low < 16 {
      QuotientIs(low + 16 * q, 16, q);
    }
    if low < 32 {
      QuotientIs(low + 32 * q, 32, q);
    }
  }

  lemma {:induction false} QuotientIs(a: int, d: int, q: int)
    requires d >= 1 && d * q <= a < d * q + d
    ensures a / d == q
  {
    var p := a / d;
    assert d * p <= a < d * p + d;
    if p > q {
      AtLeast(d, p - q);
    } else if p < q {
      AtLeast(d, q - p);
    }
  }

  lemma {:induction false} AtLeast(d: int, k: int)
    requires d >= 1 && k >= 1
    ensures d * k >= d
  {
  }

  lemma {:induction false} Take(front: Bytes, t: Bytes)
    requires front != []
    ensures GetByte(front + t) == Success((front[0], front[1..] + t))
  {
    assert (front + t)[1..] == front[1..] + t;
  }

  lemma {:induction false} NoneLeft(t: Bytes)
    ensures [] + t == t
  {
  }

  /** Four bytes at the front, one after the other. */
  lemma {:induction false} TakeFour(a: byte, b: byte, c: byte, d: byte, t: Bytes)
    ensures GetByte([a, b, c, d] + t) == Success((a, [b, c, d] + t))
    ensures GetByte([b, c, d] + t) == Success((b, [c, d] + t))
    ensures GetByte([c, d] + t) == Success((c, [d] + t))
    ensures GetByte([d] + t) == Success((d, t))
  {
    Take([a, b, c, d], t);
    Take([b, c, d], t);
    Take([c, d], t);
    Take([d], t);
    assert [a, b, c, d][1..] == [b, c, d] && [b, c, d][1..] == [c, d] && [c, d][1..] == [d];
    NoneLeft(t);
  }

  /** The upper byte of a count comes last, of a float's three bytes first. */
  lemma {:induction false} ReadsNumbers(a: byte, b: byte, c: byte, d: byte, t: Bytes)
    ensures GetU16([c, d] + t) == Success((c as int + d as int * 256, t))
    ensures GetU32([a, b, c, d] + t)
      == Success((a as int + b as int * 256 + c as int * 65536 + d as int * 16777216, t))
    ensures GetFloat24([b, c, d] + t)
      == Success((DecodeFloat24(b as int * 65536 + c as int * 256 + d as int), t))
  {
    TakeFour(a, b, c, d, t);
  }

  /** 24 bits: a sign, six bits of exponent from 2^-32 up, seventeen of fraction. */
  lemma {:induction false} Float24Is(sign: int, exponent: int, fraction: int)
    requires 0 <= sign < 2 && 0 <= exponent < 64 && 0 <= fraction < 131072
    ensures var code := sign * 8388608 + exponent * 131072 + fraction;
      DecodeFloat24(code) == if code == 0 then 0.0
        else (if sign == 1 then -1.0 else 1.0) * ((131072 + fraction) as real * Pow2(exponent - 32 - 17))
  {
    var code := sign * 8388608 + exponent * 131072 + fraction;
    assert code / 8388608 == sign && code % 8388608 == exponent * 131072 + fraction;
    assert code % 8388608 / 131072 == exponent && code % 131072 == fraction;
    if code != 0 {
      SixSteps(exponent - 32 - 23);
      Scaled(fraction, Pow2(exponent - 32 - 23), Pow2(exponent - 32 - 17));
    }
  }

  lemma {:induction false} SixSteps(k: int)
    ensures Pow2(k + 6) == 64.0 * Pow2(k)
  {
    Pow2Step(k);
    Pow2Step(k + 1);
    Pow2Step(k + 2);
    Pow2Step(k + 3);
    Pow2Step(k + 4);
    Pow2Step(k + 5);
  }

  lemma {:induction false} Scaled(fraction: int, small: real, large: real)
    requires large == 64.0 * small
    ensures Times(8388608 + fraction * 64, small) == (131072 + fraction) as real * large
  {
  }

  /** A coordinate: one byte for the whole numbers from -32 to 95, else two for steps of 1/102. */
  lemma {:induction false} ReadsCoordinates(b: byte, low: byte, t: Bytes)
    ensures b < 128 ==> GetCoord([b] + t) == Success(((b as int - 32) as real, t))
    ensures b >= 128 ==>
      GetCoord([b, low] + t) == Success((((b as int - 128) * 256 + low as int) as real / 102.0 - 128.0, t))
  {
    TakeFour(b, low, b, low, t);
    Take([b], t);
    NoneLeft(t);
    assert [b][1..] == [];
  }

  // -- the points of a path

  /** Command 0 reads an x and keeps the y, 1 reads a y and keeps the x, 2 reads both, 3 a point
      with its handles. */
  lemma {:induction false} ReadsCommands(last: Position, s: Bytes)
    ensures GetCoord(s).Success? ==>
      var (v, rest) := GetCoord(s).value;
      && GetCommandPoint(0, last, s) == Success((Point(v, last.y, v, last.y, v, last.y), rest))
      && GetCommandPoint(1, last, s) == Success((Point(last.x, v, last.x, v, last.x, v), rest))
    ensures GetMany(GetCoord, 2, s).Success? ==>
      var (c, rest) := GetMany(GetCoord, 2, s).value;
      GetCommandPoint(2, last, s) == Success((Point(c[0], c[1], c[0], c[1], c[0], c[1]), rest))
    ensures GetMany(GetCoord, 6, s).Success? ==>
      var (c, rest) := GetMany(GetCoord, 6, s).value;
      GetCommandPoint(3, last, s) == Success((Point(c[0], c[1], c[2], c[3], c[4], c[5]), rest))
  {
    TwoCoords(s);
  }

  lemma {:induction false} TwoCoords(s: Bytes)
    ensures GetMany(GetCoord, 2, s).Success? <==>
      GetCoord(s).Success? && GetCoord(GetCoord(s).value.1).Success?
    ensures GetMany(GetCoord, 2, s).Success? ==>
      var (x, r) := GetCoord(s).value;
      var (y, rest) := GetCoord(r).value;
      GetMany(GetCoord, 2, s) == Success(([x, y], rest))
  {
    if GetCoord(s).Success? {
      var (x, r) := GetCoord(s).value;
      ManyOne(GetCoord, r);
      if GetCoord(r).Success? {
        assert [x] + [GetCoord(r).value.0] == [x, GetCoord(r).value.0];
      }
    }
  }

  lemma {:induction false} ManyOne<T>(get: Bytes -> Parse<T>, s: Bytes)
    ensures GetMany(get, 1, s) ==
      if get(s).Failure? then Failure(get(s).error) else Success(([get(s).value.0], get(s).value.1))
  {
    if get(s).Success? {
      var (x, r) := get(s).value;
      assert GetMany(get, 0, r) == Success(([], r));
      assert [x] + [] == [x];
    }
  }

  /** Four commands in a byte, the first in the lowest two bits. */
  lemma {:induction false} UnpacksFour(c0: int, c1: int, c2: int, c3: int)
    requires 0 <= c0 < 4 && 0 <= c1 < 4 && 0 <= c2 < 4 && 0 <= c3 < 4
    ensures var b := c0 + 4 * c1 + 16 * c2 + 64 * c3;
      && UnpackCommand(b, 0) == c0 && UnpackCommand(b, 1) == c1
      && UnpackCommand(b, 2) == c2 && UnpackCommand(b, 3) == c3
    ensures PackFour([c0, c1, c2, c3]) == c0 + 4 * c1 + 16 * c2 + 64 * c3
    ensures PackFour([c0, c1, c2]) == c0 + 4 * c1 + 16 * c2
    ensures PackFour([c0, c1]) == c0 + 4 * c1 && PackFour([c0]) == c0
  {
    var b := c0 + 4 * c1 + 16 * c2 + 64 * c3;
    assert b / 4 == c1 + 4 * c2 + 16 * c3 && b / 4 / 4 == c2 + 4 * c3 && b / 4 / 4 / 4 == c3;
    assert UnpackCommand(b, 2) == UnpackCommand(b / 4, 1) == UnpackCommand(b / 4 / 4, 0);
    assert UnpackCommand(b, 3) == UnpackCommand(b / 4, 2) == UnpackCommand(b / 4 / 4, 1);
    assert UnpackCommand(b / 4 / 4, 1) == UnpackCommand(b / 4 / 4 / 4, 0);
    assert [c0, c1, c2, c3][1..] == [c1, c2, c3] && [c1, c2, c3][1..] == [c2, c3] && [c2, c3][1..] == [c3];
    assert [c0, c1, c2][1..] == [c1, c2] && [c1, c2][1..] == [c2] && [c0, c1][1..] == [c1];
    assert PackFour([]) == 0 && PackFour([c3]) == c3 && PackFour([c2]) == c2 && PackFour([c1]) == c1;
    assert PackFour([c2, c3]) == c2 + 4 * c3 && PackFour([c1, c2]) == c1 + 4 * c2;
  }

  /** A path: its flags, its number of points, and the points in the form bits 3 and 2 say, pairs
      or commands; bit 1 says that it is closed. */
  lemma {:induction false} ReadsPath(flags: byte, count: byte, s: Bytes)
    ensures var points :=
        if Flag(flags, 8) then GetMany(GetLinePoint, count, s)
        else if Flag(flags, 4) then
          var (commands, r) :- GetMany(GetByte, (count + 3) / 4, s);
          GetCommandPoints(commands, 0, count, ORIGIN, r)
        else GetMany(GetPlainPoint, count, s);
      GetPath([flags, count] + s) == if points.Failure? then Failure(points.error)
        else Success((Path(CleanUp(points.value.0), Flag(flags, 2)), points.value.1))
    ensures ORIGIN == Position(0.0, 0.0)
  {
    Take([flags, count], s);
    Take([count], s);
    assert [flags, count][1..] == [count] && [count][1..] == [];
    NoneLeft(s);
  }

  /** A path of two points in commands: to (10, 20), and on to x = 30. */
  lemma {:induction false} ReadsHorizontalLine()
    ensures GetPath([4, 2, 2, 42, 52, 62])
      == Success((Path([LinePoint(10.0, 20.0), LinePoint(30.0, 20.0)], false), []))
  {
    var t: Bytes := [42, 52, 62];
    var points := [LinePoint(10.0, 20.0), LinePoint(30.0, 20.0)];
    assert [4, 2] + ([2] + t) == [4, 2, 2, 42, 52, 62];
    ReadsPacked(2, [2], t);
    ReadsLine(t);
    CleanUpKeepsClean(points);
  }

  /** An open path in commands, of four points at most. */
  lemma {:induction false} ReadsPacked(count: byte, commands: Bytes, t: Bytes)
    requires 1 <= count <= 4 && |commands| == 1
    ensures GetPath([4, count] + (commands + t)) ==
      var points := GetCommandPoints(commands, 0, count as int, ORIGIN, t);
      if points.Failure? then Failure(points.error)
      else Success((Path(CleanUp(points.value.0), false), points.value.1))
  {
    assert Flag(4, 4) && !Flag(4, 8) && !Flag(4, 2);
    ReadsPath(4, count, commands + t);
    assert commands == [commands[0]];
    OneByte(commands[0], t);
  }

  lemma {:induction false} OneByte(b: byte, t: Bytes)
    ensures GetMany(GetByte, 1, [b] + t) == Success(([b], t))
  {
    Take([b], t);
    assert [b][1..] + t == t;
    ManyOne(GetByte, [b] + t);
  }

  lemma {:induction false} ReadsLine(t: Bytes)
    requires t == [42, 52, 62]
    ensures GetCommandPoints([2], 0, 2, ORIGIN, t)
      == Success(([LinePoint(10.0, 20.0), LinePoint(30.0, 20.0)], []))
  {
    UnpacksFour(2, 0, 0, 0);
    ReadsCoordinates(42, 0, [52, 62]);
    ReadsCoordinates(52, 0, [62]);
    ReadsCoordinates(62, 0, []);
    assert t == [42] + [52, 62] && [52, 62] == [52] + [62] && [62] == [62] + [];
    TwoCoords(t);
    ReadsCommands(ORIGIN, t);
    ReadsCommands(Position(10.0, 20.0), [62]);
    var first, second := LinePoint(10.0, 20.0), LinePoint(30.0, 20.0);
    assert GetCommandPoints([2], 2, 2, Position(30.0, 20.0), []) == Success(([], []));
    assert GetCommandPoint(UnpackCommand(2, 1), Position(10.0, 20.0), [62]) == Success((second, []));
    assert [second] + [] == [second] && [first] + [second] == [first, second];
    assert GetCommandPoints([2], 1, 2, Position(10.0, 20.0), [62]) == Success(([second], []));
    assert GetCommandPoint(UnpackCommand(2, 0), ORIGIN, t) == Success((first, [62]));
  }

  // -- styles

  lemma {:induction false} ReadsColors(r: byte, g: byte, b: byte, a: byte, t: Bytes)
    ensures GetRgba(true, false, [r, g, b, a] + t) == Success((Rgba(r, g, b, a), t))
    ensures GetRgba(false, false, [g, b, a] + t) == Success((Rgba(g, b, a, 255), t))
    ensures GetRgba(true, true, [b, a] + t) == Success((Rgba(b, b, b, a), t))
    ensures GetRgba(false, true, [a] + t) == Success((Rgba(a, a, a, 255), t))
  {
    TakeFour(r, g, b, a, t);
    TwoBytes(g, b, [a] + t);
    TwoBytes(b, a, t);
    assert [g, b] + ([a] + t) == [g, b, a] + t;
  }

  lemma {:induction false} TwoBytes(a: byte, b: byte, t: Bytes)
    ensures GetMany(GetByte, 2, [a, b] + t) == Success(([a, b], t))
  {
    TakeFour(a, b, a, b, t);
    ManyOne(GetByte, [b] + t);
    assert [a] + [b] == [a, b];
  }

  /** Style kinds 1 to 5: colour, gradient, colour without alpha, gray, gray without alpha. */
  lemma {:induction false} ReadsSolids(r: byte, g: byte, b: byte, a: byte, t: Bytes)
    ensures GetStyle([1, r, g, b, a] + t) == Success((Some(Solid(Rgba(r, g, b, a))), t))
    ensures GetStyle([3, g, b, a] + t) == Success((Some(Solid(Rgba(g, b, a, 255))), t))
    ensures GetStyle([4, b, a] + t) == Success((Some(Solid(Rgba(b, b, b, a))), t))
    ensures GetStyle([5, a] + t) == Success((Some(Solid(Rgba(a, a, a, 255))), t))
  {
    ReadsColors(r, g, b, a, t);
    Take([1, r, g, b, a], t);
    Take([3, g, b, a], t);
    Take([4, b, a], t);
    Take([5, a], t);
    assert [1, r, g, b, a][1..] == [r, g, b, a] && [3, g, b, a][1..] == [g, b, a];
    assert [4, b, a][1..] == [b, a] && [5, a][1..] == [a];
  }

  /** A gradient: its kind, its flags, its number of stops; with bit 1 six floats; then the stops,
      without alpha for bit 2 and gray for bit 4. */
  lemma {:induction false} ReadsGradient(kind: byte, flags: byte, count: byte, s: Bytes)
    ensures var matrix := if Flag(flags, 2) then GetMany(GetFloat24, 6, s) else Success((IDENTITY, s));
      GetStyle([2, kind, flags, count] + s) ==
        if matrix.Failure? then Failure(matrix.error)
        else
          var (m, s) := matrix.value;
          var (stops, s) :- GetMany(GetStop(!Flag(flags, 4), Flag(flags, 16)), count, s);
          Success((Some(Gradient(kind, m, SortStops(stops))), s))
    ensures IDENTITY == [1.0, 0.0, 0.0, 1.0, 0.0, 0.0]
  {
    TakeFour(2, kind, flags, count, s);
  }

  /** A stop: its offset before its colour. */
  lemma {:induction false} ReadsStop(alpha: bool, gray: bool, offset: byte, s: Bytes)
    ensures GetStop(alpha, gray)([offset] + s) ==
      if GetRgba(alpha, gray, s).Failure? then Failure(GetRgba(alpha, gray, s).error)
      else Success((Stop(offset, GetRgba(alpha, gray, s).value.0), GetRgba(alpha, gray, s).value.1))
  {
    Take([offset], s);
    assert [offset][1..] + s == s;
  }

  /** Any other kind is passed over, by the length that follows it. */
  lemma {:induction false} SkipsOthers(kind: byte, low: byte, high: byte, skipped: Bytes, t: Bytes,
                                       table: seq<Option<Style>>, paths: int)
    requires |skipped| == low as int + high as int * 256
    ensures kind !in [1, 2, 3, 4, 5] ==> GetStyle([kind, low, high] + (skipped + t)) == Success((None, t))
    ensures kind != 10 ==> ReadShape(table, paths, [kind, low, high] + (skipped + t)) == Success((None, t))
    ensures kind !in [20, 21, 22, 23] ==> GetTransformer([kind, low, high] + (skipped + t)) == Success((None, t))
  {
    TakeFour(kind, kind, low, high, skipped + t);
    ReadsNumbers(kind, kind, low, high, skipped + t);
    assert Skip(|skipped|, skipped + t) == t;
    assert (skipped + t)[|skipped|..] == t;
  }

  // -- shapes

  /** Transformer kinds 20 to 23: affine, contour, perspective, stroke. */
  lemma {:induction false} ReadsTransformers(a: byte, b: byte, c: byte, s: Bytes)
    ensures GetTransformer([21, a, b, c] + s) == Success((Some(Contour(a as int - 128, b, c)), s))
    ensures GetTransformer([23, a, b, c] + s)
      == Success((Some(Stroke(a as int - 128, b as int % 16, b as int / 16, c)), s))
    ensures GetMany(GetU32, 6, s).Success? ==>
      GetTransformer([20] + s) == Success((Some(AffineTransformer(GetMany(GetU32, 6, s).value.0)),
                                           GetMany(GetU32, 6, s).value.1))
    ensures GetMany(GetFloat24, 9, s).Success? ==>
      GetTransformer([22] + s) == Success((Some(Perspective(GetMany(GetFloat24, 9, s).value.0)),
                                           GetMany(GetFloat24, 9, s).value.1))
  {
    TakeFour(21, a, b, c, s);
    TakeFour(23, a, b, c, s);
    ThreeBytes(a, b, c, s);
    Take([20], s);
    Take([22], s);
    assert [20][1..] + s == s && [22][1..] + s == s;
  }

  lemma {:induction false} ThreeBytes(a: byte, b: byte, c: byte, t: Bytes)
    ensures GetMany(GetByte, 3, [a, b, c] + t) == Success(([a, b, c], t))
  {
    TakeFour(a, a, b, c, t);
    TwoBytes(b, c, t);
    assert [a] + [b, c] == [a, b, c];
  }

  /** What a shape's flags say: bit 1 six floats, else bit 5 a move; bit 3 a level of detail, the
      lower end first; bit 4 a count of transformers. */
  lemma {:induction false} ReadsShapeParts(flags: byte, a: byte, b: byte, s: Bytes)
    ensures GetMany(GetFloat24, 6, s).Success? && Flag(flags, 2) ==>
      GetShapeMatrix(flags, s) == Success((Some(GetMany(GetFloat24, 6, s).value.0), GetMany(GetFloat24, 6, s).value.1))
    ensures GetMany(GetCoord, 2, s).Success? && !Flag(flags, 2) && Flag(flags, 32) ==>
      var (c, rest) := GetMany(GetCoord, 2, s).value;
      GetShapeMatrix(flags, s) == Success((Some([1.0, 0.0, 0.0, 1.0, c[0], c[1]]), rest))
    ensures !Flag(flags, 2) && !Flag(flags, 32) ==> GetShapeMatrix(flags, s) == Success((None, s))
    ensures GetLod(flags, [a, b] + s) ==
      if Flag(flags, 8) then Success((Some(Lod(a, b)), s)) else Success((None, [a, b] + s))
    ensures !Flag(flags, 16) ==> GetTransformers(flags, s) == Success(([], s))
    ensures Flag(flags, 16) && GetMany(GetTransformer, a, s).Success? ==>
      GetTransformers(flags, [a] + s)
        == Success((Present(GetMany(GetTransformer, a, s).value.0), GetMany(GetTransformer, a, s).value.1))
  {
    TwoCoords(s);
    TwoBytes(a, b, s);
    Take([a], s);
    assert [a][1..] + s == s;
  }

  /** A shape, kind 10: its style, its paths by number, its flags, of which bit 2 is hinting. */
  lemma {:induction false} ReadsShape(table: seq<Option<Style>>, paths: int, style: byte, count: byte, flags: byte,
                                      used: Bytes, s: Bytes)
    requires GetMany(GetByte, count, used + ([flags] + s)) == Success((used, [flags] + s))
    requires style < |table| && table[style].Some?
    ensures GetShapeMatrix(flags, s).Success? ==>
      var (matrix, r1) := GetShapeMatrix(flags, s).value;
      GetLod(flags, r1).Success? ==>
        var (lod, r2) := GetLod(flags, r1).value;
        GetTransformers(flags, r2).Success? ==>
          var (ts, t) := GetTransformers(flags, r2).value;
          ReadShape(table, paths, [10, style, count] + (used + ([flags] + s)))
            == Success((Some(Shape(|Present(table[..style])|, Below(used, paths), matrix, Flag(flags, 4), lod, ts)), t))
  {
    TakeFour(10, 10, style, count, used + ([flags] + s));
    Take([flags], s);
    assert [flags][1..] + s == s;
  }

  // -- icons

  /** "ncif", then styles, paths and shapes, each with their number before them. */
  lemma {:induction false} ReadsIcon(a: byte, b: byte, c: byte, d: byte, s: Bytes)
    ensures [a, b, c, d] != [0x6E, 0x63, 0x69, 0x66] ==> Decode([a, b, c, d] + s) == Failure(NotHvif)
    ensures Decode([0x6E, 0x63, 0x69, 0x66] + s) ==
      var (count, s) :- GetByte(s);
      var (table, s) :- GetMany(GetStyle, count, s);
      var (count, s) :- GetByte(s);
      var (paths, s) :- GetMany(GetPath, count, s);
      var (count, s) :- GetByte(s);
      var (shapes, s) :- GetMany(GetShape(table, |paths|), count, s);
      Success(Icon(Present(table), paths, Present(shapes)))
  {
    ReadsNumbers(a, b, c, d, s);
    ReadsNumbers(0x6E, 0x63, 0x69, 0x66, s);
    MagicIs(a as int, b as int, c as int, d as int);
  }

  lemma {:induction false} MagicIs(a: int, b: int, c: int, d: int)
    requires 0 <= a < 256 && 0 <= b < 256 && 0 <= c < 256 && 0 <= d < 256
    ensures a + b * 256 + c * 65536 + d * 16777216 == 0x6669636E <==> a == 0x6E && b == 0x63 && c == 0x69 && d == 0x66
  {
  }

  /** A gray style, a closed path of two points without curves, a shape of both with hinting. */
  const SMALL_ICON: Icon := Icon(
    [Solid(Rgba(127, 127, 127, 255))],
    [Path([LinePoint(0.0, 0.0), LinePoint(10.0, 20.0)], true)],
    [Shape(0, [0], None, true, None, [])])

  const SMALL_FILE: Bytes :=
    [0x6E, 0x63, 0x69, 0x66, 1, 5, 127, 1, 10, 2, 32, 32, 42, 52, 1, 10, 0, 1, 0, 4]

  lemma {:induction false} ReadsSmallStyle(t: Bytes)
    ensures GetMany(GetStyle, 1, [5, 127] + t) == Success(([Some(SMALL_ICON.styles[0])], t))
  {
    ReadsSolids(0, 0, 0, 127, t);
    ManyOne(GetStyle, [5, 127] + t);
  }

  lemma {:induction false} ReadsPair(x: byte, y: byte, t: Bytes)
    requires x < 128 && y < 128
    ensures GetLinePoint([x, y] + t)
      == Success((LinePoint((x as int - 32) as real, (y as int - 32) as real), t))
  {
    ReadsCoordinates(x, 0, [y] + t);
    ReadsCoordinates(y, 0, t);
    assert [x] + ([y] + t) == [x, y] + t;
  }

  /** A closed path without curves. */
  lemma {:induction false} ReadsClosed(count: byte, s: Bytes)
    ensures GetPath([10, count] + s) ==
      var points := GetMany(GetLinePoint, count as int, s);
      if points.Failure? then Failure(points.error)
      else Success((Path(CleanUp(points.value.0), true), points.value.1))
  {
    assert Flag(10, 8) && Flag(10, 2);
    ReadsPath(10, count, s);
  }

  lemma {:induction false} ReadsSmallPath(t: Bytes)
    ensures GetMany(GetPath, 1, [10, 2, 32, 32, 42, 52] + t) == Success((SMALL_ICON.paths, t))
  {
    var s := [32, 32] + ([42, 52] + t);
    assert [10, 2, 32, 32, 42, 52] + t == [10, 2] + s;
    ReadsClosed(2, s);
    ReadsPair(32, 32, [42, 52] + t);
    ReadsPair(42, 52, t);
    ManyOne(GetLinePoint, [42, 52] + t);
    var points := SMALL_ICON.paths[0].points;
    assert [points[0]] + [points[1]] == points;
    assert GetMany(GetLinePoint, 2, s) == Success((points, t));
    CleanUpKeepsClean(points);
    ManyOne(GetPath, [10, 2] + s);
  }

  lemma {:induction false} ReadsSmallShape(t: Bytes)
    ensures GetMany(GetShape([Some(SMALL_ICON.styles[0])], 1), 1, [10, 0, 1, 0, 4] + t)
      == Success(([Some(SMALL_ICON.shapes[0])], t))
  {
    var table := [Some(SMALL_ICON.styles[0])];
    OneByte(0, [4] + t);
    ReadsShapeParts(4, 0, 0, t);
    ReadsShape(table, 1, 0, 1, 4, [0], t);
    assert [10, 0, 1] + ([0] + ([4] + t)) == [10, 0, 1, 0, 4] + t;
    assert Present(table[..0]) == [];
    var used: Bytes := [0];
    assert used[..0] == [] && Below(used, 1) == [0];
    assert !Flag(4, 2) && !Flag(4, 8) && !Flag(4, 16) && !Flag(4, 32) && Flag(4, 4);
    assert GetLod(4, t) == Success((None, t));
    ManyOne(GetShape(table, 1), [10, 0, 1, 0, 4] + t);
  }

  /** These bytes are that icon. */
  lemma {:induction false} ReadsSmallFile()
    ensures Decode(SMALL_FILE) == Success(SMALL_ICON)
  {
    var s3 := [10, 0, 1, 0, 4] + [];
    var s2 := [10, 2, 32, 32, 42, 52] + ([1] + s3);
    var s1 := [5, 127] + ([1] + s2);
    assert SMALL_FILE == [0x6E, 0x63, 0x69, 0x66] + ([1] + s1);
    ReadsIcon(0, 0, 0, 0, [1] + s1);
    ReadsSmallStyle([1] + s2);
    ReadsSmallPath([1] + s3);
    ReadsSmallShape([]);
    TakeOne(1, s1);
    TakeOne(1, s2);
    TakeOne(1, s3);
    PresentOne(SMALL_ICON.styles[0]);
    PresentOne(SMALL_ICON.shapes[0]);
  }

  lemma {:induction false} TakeOne(b: byte, t: Bytes)
    ensures GetByte([b] + t) == Success((b, t))
  {
    Take([b], t);
    assert [b][1..] + t == t;
  }

  lemma {:induction false} PresentOne<T>(x: T)
    ensures Present([Some(x)]) == [x]
  {
    assert Present<T>([]) == [];
    assert [Some(x)][..0] == [];
  }

  // -- what the writer chooses

  predicate IsColor(c: Rgba) {
    0 <= c.r < 256 && 0 <= c.g < 256 && 0 <= c.b < 256 && 0 <= c.a < 256
  }

  lemma {:induction false} PutsTwo(a: int, b: int)
    requires 0 <= a < 256 && 0 <= b < 256
    ensures PutMany(PutByte, [a, b]) == Success([a, b])
  {
    assert [a, b][1..] == [b] && [b][1..] == [];
    assert PutMany(PutByte, []) == Success([]);
    assert PutMany(PutByte, [b]) == Success([b] + []);
    assert [a] + ([b] + []) == [a, b];
  }

  lemma {:induction false} WritesColors(c: Rgba, alpha: bool, gray: bool)
    requires IsColor(c)
    ensures PutColor(c, alpha, gray) == Success(
      (if gray then [c.r] else [c.r, c.g, c.b]) + if alpha then [c.a] else [])
  {
    PutsTwo(c.g, c.b);
    assert [c.r] + [] == [c.r] && [c.r] + [c.g, c.b] == [c.r, c.g, c.b];
  }

  /** Kind 5 for opaque grays, 4 for other grays, 3 for other opaque colours, 1 for the rest. */
  lemma {:induction false} WritesSolids(c: Rgba)
    requires IsColor(c)
    ensures PutStyle(Solid(c)) == Success(
      if c.r == c.g == c.b then (if c.a == 255 then [5, c.r] else [4, c.r, c.a])
      else if c.a == 255 then [3, c.r, c.g, c.b] else [1, c.r, c.g, c.b, c.a])
  {
    WritesColors(c, c.a < 255, c.Gray());
    assert [3] + ([c.r, c.g, c.b] + []) == [3, c.r, c.g, c.b];
    assert [1] + ([c.r, c.g, c.b] + [c.a]) == [1, c.r, c.g, c.b, c.a];
    assert [5] + ([c.r] + []) == [5, c.r] && [4] + ([c.r] + [c.a]) == [4, c.r, c.a];
  }

  /** A gradient's flags: 2 when its matrix is written, which one near the identity is not; 4 when
      all its stops are opaque; 16 when all are gray. */
  lemma {:induction false} WritesGradient(kind: byte, matrix: Matrix, stops: seq<Stop>)
    requires |stops| <= 255
    ensures var near, alpha, gray := NearIdentity(matrix, 6), AnyAlpha(stops), AllGray(stops);
      var floats := if near then Success([]) else PutMany(PutFloat24, matrix);
      var body := PutMany(PutStop(alpha, gray), stops);
      floats.Success? && body.Success? ==>
        PutStyle(Gradient(kind, matrix, stops)) == Success([2] + ([kind]
          + [(if near then 0 else 2) + (if alpha then 0 else 4) + (if gray then 16 else 0), |stops|]
          + floats.value + body.value))
  {
  }

  lemma {:induction false} WhichFlags(matrix: Matrix, stops: seq<Stop>)
    ensures NearIdentity(matrix, 6) == forall i | 0 <= i < 6 ::
      -0.0000001 < matrix[i] - (if i == 0 || i == 3 then 1.0 else 0.0) < 0.0000001
    ensures AnyAlpha(stops) == !forall i | 0 <= i < |stops| :: stops[i].color.a >= 255
    ensures AllGray(stops) == forall i | 0 <= i < |stops| :: stops[i].color.r == stops[i].color.g == stops[i].color.b
  {
  }

  /** A stop: its offset, then its colour. */
  lemma {:induction false} WritesStop(alpha: bool, gray: bool, stop: Stop)
    requires IsColor(stop.color) && 0 <= stop.offset < 256
    ensures PutStop(alpha, gray)(stop) == Success([stop.offset]
      + ((if gray then [stop.color.r] else [stop.color.r, stop.color.g, stop.color.b])
         + if alpha then [stop.color.a] else []))
  {
    WritesColors(stop.color, alpha, gray);
  }

  /** Command 1 for a point above or below the last one, 0 for one beside it, 2 for any other
      without handles, 3 for one with handles; and the numbers that are then written. */
  lemma {:induction false} WritesCommands(last: Position, x: real, y: real, p: Point)
    ensures x == last.x ==>
      Command(last, LinePoint(x, y)) == 1 && CommandNumbers(last, LinePoint(x, y)) == [y]
    ensures x != last.x && y == last.y ==>
      Command(last, LinePoint(x, y)) == 0 && CommandNumbers(last, LinePoint(x, y)) == [x]
    ensures x != last.x && y != last.y ==>
      Command(last, LinePoint(x, y)) == 2 && CommandNumbers(last, LinePoint(x, y)) == [x, y]
    ensures p != LinePoint(p.x, p.y) ==>
      Command(last, p) == 3 && CommandNumbers(last, p) == [p.x, p.y, p.inX, p.inY, p.outX, p.outY]
  {
  }

  /** How many numbers these points need as commands. */
  function NumbersOf(last: Position, points: seq<Point>): nat
    decreases |points|
  {
    if points == [] then 0 else |CommandNumbers(last, points[0])| + NumbersOf(At(points[0]), points[1..])
  }

  lemma {:induction false} CountOfOne(c: int, cs: seq<int>, which: set<int>)
    ensures CountOf([c] + cs, which) == (if c in which then 1 else 0) + CountOf(cs, which)
  {
    if cs == [] {
      assert [c] + cs == [c] && [c][..0] == [];
    } else {
      CountOfOne(c, cs[..|cs| - 1], which);
      assert ([c] + cs)[..|cs|] == [c] + cs[..|cs| - 1];
    }
  }

  lemma {:induction false} NumbersAreCounted(last: Position, points: seq<Point>)
    ensures var cs := Commands(last, points);
      NumbersOf(last, points) == CountOf(cs, {0, 1}) + 2 * CountOf(cs, {2}) + 6 * CountOf(cs, {3})
    decreases |points|
  {
    if points != [] {
      var cs := Commands(At(points[0]), points[1..]);
      NumbersAreCounted(At(points[0]), points[1..]);
      CountOfOne(Command(last, points[0]), cs, {0, 1});
      CountOfOne(Command(last, points[0]), cs, {2});
      CountOfOne(Command(last, points[0]), cs, {3});
    }
  }

  lemma {:induction false} NoCurvesMeans(last: Position, points: seq<Point>)
    ensures CountOf(Commands(last, points), {3}) == 0 <==> forall i | 0 <= i < |points| :: points[i].IsLine()
    decreases |points|
  {
    if points != [] {
      CountOfOne(Command(last, points[0]), Commands(At(points[0]), points[1..]), {3});
      NoCurvesMeans(At(points[0]), points[1..]);
      assert points == [points[0]] + points[1..];
    }
  }

  /** A path's flags: 2 when it is closed; and, when a byte a point and two a number for commands
      are fewer than twelve a point, 8 if no point has handles and 4 otherwise. */
  lemma {:induction false} WritesPath(path: Path)
    requires |path.points| <= 255
    ensures var n := |path.points|;
      var short := n + 2 * NumbersOf(Position(0.0, 0.0), path.points) < 12 * n;
      var lines := forall i | 0 <= i < n :: path.points[i].IsLine();
      && PathFlags(path) ==
           (if path.closed then 2 else 0) + (if short && lines then 8 else 0) + (if short && !lines then 4 else 0)
      && (!short ==> PutPath(path) == Success([PathFlags(path), n] + PlainCoords(path.points)))
      && (short && lines ==> PutPath(path) == Success([PathFlags(path), n] + LineCoords(path.points)))
      && (short && !lines ==> PutPath(path) == Success([PathFlags(path), n]
            + (PackCommands(Commands(Position(0.0, 0.0), path.points))
               + CommandCoords(Position(0.0, 0.0), path.points))))
  {
    NumbersAreCounted(Position(0.0, 0.0), path.points);
    NoCurvesMeans(Position(0.0, 0.0), path.points);
  }

  /** Which matrix is not written, which as a move; 1e-7 itself is near enough to leave out. */
  lemma {:induction false} MatrixForms(m: Matrix)
    ensures var offsets := [m[0] - 1.0, m[1], m[2], m[3] - 1.0, m[4], m[5]];
      && (FormOf(Some(m)) == NoMatrix <==> forall i | 0 <= i < 6 :: -0.0000001 <= offsets[i] <= 0.0000001)
      && (FormOf(Some(m)) == Translation <==>
            FormOf(Some(m)) != NoMatrix && forall i | 0 <= i < 4 :: -0.0000001 < offsets[i] < 0.0000001)
    ensures FormOf(None) == NoMatrix
  {
    var offsets := [m[0] - 1.0, m[1], m[2], m[3] - 1.0, m[4], m[5]];
    assert forall i | 0 <= i < 6 :: m[i] - IDENTITY[i] == offsets[i];
  }

  /** A shape: kind 10, its style, its paths, and the flags 2 for floats, 4 for hinting, 8 for a
      level of detail that is not all of them, 16 for transformers, 32 for a move. */
  lemma {:induction false} WritesShape(shape: Shape)
    requires PutShape(shape).Success?
    ensures var form := FormOf(shape.matrix);
      var flags := (if form == Full then 2 else 0) + (if shape.hinting then 4 else 0)
        + (if shape.lod.Some? && shape.lod.value != Lod(0, 255) then 8 else 0)
        + (if shape.transformers != [] then 16 else 0) + (if form == Translation then 32 else 0);
      var matrix := match form
        case NoMatrix => Success([])
        case Translation => Success(PutCoords([shape.matrix.value[4], shape.matrix.value[5]]))
        case Full => PutMany(PutFloat24, shape.matrix.value);
      var lod := if shape.lod.Some? && shape.lod.value != Lod(0, 255)
        then PutMany(PutByte, [shape.lod.value.least, shape.lod.value.most]) else Success([]);
      var ts := PutTransformers(shape.transformers);
      && matrix.Success? && lod.Success? && ts.Success? && PutMany(PutByte, shape.paths).Success?
      && PutShape(shape).value == [10] + [shape.style] + [|shape.paths|] + PutMany(PutByte, shape.paths).value
        + [flags] + matrix.value + lod.value + ts.value
  {
  }

  /** A contour, kind 21: its width from -128 up, its join, its miter limit; a stroke, kind 23,
      with its cap above its join. */
  lemma {:induction false} WritesTransformers(width: int, join: int, cap: int, miter: int)
    requires -128 <= width < 128 && 0 <= join < 256 && 0 <= miter < 256
    ensures PutTransformer(Contour(width, join, miter)) == Success([21, width + 128, join, miter])
    ensures join < 16 && 0 <= cap < 16 ==>
      PutTransformer(Stroke(width, join, cap, miter)) == Success([23, width + 128, join + 16 * cap, miter])
  {
    PutsThree(width + 128, join, miter);
    assert [21] + [width + 128, join, miter] == [21, width + 128, join, miter];
    if join < 16 && 0 <= cap < 16 {
      OrIsSum(join, cap);
      PutsThree(width + 128, join + 16 * cap, miter);
      assert [23] + [width + 128, join + 16 * cap, miter] == [23, width + 128, join + 16 * cap, miter];
    }
  }

  lemma {:induction false} PutsThree(a: int, b: int, c: int)
    requires 0 <= a < 256 && 0 <= b < 256 && 0 <= c < 256
    ensures PutMany(PutByte, [a, b, c]) == Success([a, b, c])
  {
    PutsTwo(b, c);
    assert [a, b, c][1..] == [b, c];
    assert [a] + [b, c] == [a, b, c];
  }

  lemma {:induction false} OrIsSum(low: int, high: int)
    requires 0 <= low < 16 && 0 <= high < 16
    ensures StrokeOptions(low, high) == low + 16 * high
  {
    FourTimes(1);
    FourTimes(high);
    OrWithDoubled(4, low, high);
  }

  function Doubled(k: nat, n: int): int {
    if k == 0 then n else 2 * Doubled(k - 1, n)
  }

  lemma {:induction false} FourTimes(n: int)
    ensures Doubled(4, n) == 16 * n
  {
    assert Doubled(2, n) == 2 * Doubled(1, n) == 4 * n;
    assert Doubled(4, n) == 2 * Doubled(3, n) == 4 * Doubled(2, n);
  }

  /** Bits below and bits above do not meet. */
  lemma {:induction false} OrWithDoubled(k: nat, low: int, high: int)
    requires 0 <= low < Doubled(k, 1) && 0 <= high
    ensures Doubled(k, high) >= 0 && Or(low, Doubled(k, high)) == low + Doubled(k, high)
  {
    if k > 0 {
      var d := Doubled(k - 1, high);
      OrWithDoubled(k - 1, low / 2, high);
      assert Doubled(k, high) == 2 * d && 2 * d / 2 == d && low / 2 < Doubled(k - 1, 1);
      OrHalves(low, 2 * d);
    }
  }

  lemma {:induction false} OrHalves(a: int, b: int)
    requires 0 <= a && 0 <= b && b % 2 == 0
    ensures Or(a, b) == 2 * Or(a / 2, b / 2) + a % 2
  {
    if a == 0 {
      assert Or(0, b / 2) == b / 2;
    }
  }

  /** A perspective, kind 22: nine floats. An affine one cannot be written. */
  lemma {:induction false} WritesPerspective(m: Perspective9, bits: seq<int>)
    requires PutMany(PutFloat24, m).Success?
    ensures PutTransformer(Perspective(m)) == Success([22] + PutMany(PutFloat24, m).value)
    ensures PutTransformer(AffineTransformer(bits)) == Failure(CannotWrite)
  {
  }

  lemma {:induction false} BytesOf(code: int)
    requires 0 <= code < 0x1000000
    ensures code / 0x1_0000 * 65536 + code / 0x100 % 0x100 * 256 + code % 0x100 == code
    ensures 0 <= code / 0x1_0000 < 256 && 0 <= code / 0x100 % 0x100 < 256 && 0 <= code % 0x100 < 256
  {
    var a := code / 256;
    assert code / 0x1_0000 == a / 256;
  }

  /** 24 bits with the upper byte first. */
  lemma {:induction false} WritesFloats(v: real)
    ensures EncodeFloat24(v).Success? ==>
      PutFloat24(v).Success? && |PutFloat24(v).value| == 3
      && var b := PutFloat24(v).value;
         b[0] as int * 65536 + b[1] as int * 256 + b[2] as int == EncodeFloat24(v).value
  {
    if EncodeFloat24(v).Success? {
      CodeInRange(v);
      BytesOf(EncodeFloat24(v).value);
    }
  }

  /** A coordinate in one byte when it is nearly whole and small, else in two with the upper first. */
  lemma {:induction false} WritesCoordinates(v: real)
    ensures var c := if v < -128.0 then -128.0 else if v > 192.0 then 192.0 else v;
      var n := Rounding.RoundHalfEven(c);
      var steps := Rounding.RoundHalfEven((c + 128.0) * 102.0);
      if -0.005 < c - n as real < 0.005 && -32 <= n <= 95 then EncodeCoord(v) == [n + 32]
      else 0 <= steps <= 32640 && EncodeCoord(v) == [128 + steps / 256, steps % 256]
  {
    var c := Clamp(v);
    if !IsWholeUnit(c) {
      HighByte(HundredAndTwoths(c));
    }
  }

  lemma {:induction false} HighByte(steps: int)
    requires 0 <= steps <= 32640
    ensures (steps + 32768) / 256 == 128 + steps / 256 && (steps + 32768) % 256 == steps % 256
  {
  }

  /** And the icon above is written as those bytes. */
  lemma {:induction false} WritesSmallFile()
    ensures Encode(SMALL_ICON) == Success(SMALL_FILE)
  {
    WritesSmallTables();
    ThreeTables([5, 127], [10, 2, 32, 32, 42, 52], [10, 0, 1, 0, 4]);
    SmallFileJoins();
  }

  lemma {:induction false} SmallFileJoins()
    ensures [0x6E, 0x63, 0x69, 0x66, 1] + [5, 127] + [1] + [10, 2, 32, 32, 42, 52] + [1] + [10, 0, 1, 0, 4]
      == SMALL_FILE
  {
  }

  lemma {:induction false} ThreeTables(styles: Bytes, paths: Bytes, shapes: Bytes)
    ensures MAGIC_BYTES + Table(1, styles) + Table(1, paths) + Table(1, shapes)
      == [0x6E, 0x63, 0x69, 0x66, 1] + styles + [1] + paths + [1] + shapes
  {
    assert MAGIC_BYTES + ([1] + styles) == [0x6E, 0x63, 0x69, 0x66, 1] + styles;
  }

  lemma {:induction false} WritesSmallTables()
    ensures PutMany(PutStyle, SMALL_ICON.styles) == Success([5, 127])
    ensures PutMany(PutPath, SMALL_ICON.paths) == Success([10, 2, 32, 32, 42, 52])
    ensures PutMany(PutShape, SMALL_ICON.shapes) == Success([10, 0, 1, 0, 4])
  {
    PutsOne(PutStyle, SMALL_ICON.styles[0]);
    PutsOne(PutPath, SMALL_ICON.paths[0]);
    PutsOne(PutShape, SMALL_ICON.shapes[0]);
    WritesSolids(Rgba(127, 127, 127, 255));
    WritesSmallPath();
    WritesSmallShape();
  }

  lemma {:induction false} PutsOne<T>(put: T -> Written, x: T)
    ensures PutMany(put, [x]) == put(x)
  {
    assert PutMany(put, []) == Success([]);
    assert [x][1..] == [];
    if put(x).Success? {
      assert put(x).value + [] == put(x).value;
    }
  }

  lemma {:induction false} WritesSmallPath()
    ensures PutPath(SMALL_ICON.paths[0]) == Success([10, 2, 32, 32, 42, 52])
  {
    var path := SMALL_ICON.paths[0];
    WritesPath(path);
    SmallNumbers(path.points);
    SmallCoords(path.points);
    assert forall i | 0 <= i < |path.points| :: path.points[i].IsLine();
    assert PathFlags(path) == 10;
    assert [10, 2] + [32, 32, 42, 52] == [10, 2, 32, 32, 42, 52];
  }

  lemma {:induction false} SmallNumbers(points: seq<Point>)
    requires points == [LinePoint(0.0, 0.0), LinePoint(10.0, 20.0)]
    ensures NumbersOf(Position(0.0, 0.0), points) == 3
  {
    var o := Position(0.0, 0.0);
    WritesCommands(o, 0.0, 0.0, points[0]);
    WritesCommands(o, 10.0, 20.0, points[1]);
    assert points[1..] == [points[1]] && [points[1]][1..] == [];
    assert NumbersOf(o, [points[1]]) == 2 + NumbersOf(Position(10.0, 20.0), []);
  }

  lemma {:induction false} SmallCoords(points: seq<Point>)
    requires points == [LinePoint(0.0, 0.0), LinePoint(10.0, 20.0)]
    ensures LineCoords(points) == [32, 32, 42, 52]
  {
    WritesWhole(0);
    WritesWhole(10);
    WritesWhole(20);
    PutsCoords(0.0, 0.0);
    PutsCoords(10.0, 20.0);
    assert points[1..] == [points[1]] && [points[1]][1..] == [] && LineCoords([]) == [];
    assert LineCoords([points[1]]) == [42, 52] + [];
    assert LineCoords(points) == [32, 32] + [42, 52];
  }

  lemma {:induction false} PutsCoords(x: real, y: real)
    ensures PutCoords([x, y]) == EncodeCoord(x) + EncodeCoord(y)
  {
    assert [x, y][1..] == [y] && [y][1..] == [] && PutCoords([]) == [];
    assert PutCoords([y]) == EncodeCoord(y) + [];
  }

  lemma {:induction false} WritesWhole(n: int)
    requires -32 <= n <= 95
    ensures EncodeCoord(n as real) == [n + 32]
  {
    Rounding.RoundIsUnique(n as real, n);
  }

  lemma {:induction false} WritesSmallShape()
    ensures PutShape(SMALL_ICON.shapes[0]) == Success([10, 0, 1, 0, 4])
  {
    var shape := SMALL_ICON.shapes[0];
    PutsOne(PutByte, 0);
    assert PutMany(PutByte, shape.paths) == Success([0]);
    assert PutShape(shape).Success?;
    WritesShape(shape);
    assert [10] + [0] + [1] + [0] + [4] + [] + [] + [] == [10, 0, 1, 0, 4];
  }
}
