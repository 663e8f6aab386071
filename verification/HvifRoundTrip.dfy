/** Decoding what was encoded: part by part, then the whole icon. */
module HvifRoundTrip {
  import opened Wrappers
  import opened HvifNumbers
  import opened HvifModel
  import opened HvifFormat
  import opened HvifNorm
  import opened Float24

  /** A list comes back entry by entry when each entry does. */
  lemma {:induction false} ManyRoundTrip<T(!new), U(!new)>(put: T -> Written, get: Bytes -> Parse<U>, norm: T -> U,
                                                           xs: seq<T>, t: Bytes)
    requires PutMany(put, xs).Success?
    requires forall x, rest: Bytes | x in xs && put(x).Success? :: get(put(x).value + rest) == Success((norm(x), rest))
    ensures GetMany(get, |xs|, PutMany(put, xs).value + t) == Success((Map(norm, xs), t))
  {
    if xs != [] {
      ManyRoundTrip(put, get, norm, xs[1..], t);
      var first, rest := put(xs[0]).value, PutMany(put, xs[1..]).value;
      assert first + rest + t == first + (rest + t);
    } else {
      assert [] + t == t;
    }
  }

  /** One entry read, the others to come. */
  lemma {:induction false} ManyStep<T(!new)>(get: Bytes -> Parse<T>, n: int, s: Bytes)
    requires n > 0
    ensures GetMany(get, n, s) ==
      var first := get(s);
      if first.Failure? then Failure(first.error)
      else
        var rest := GetMany(get, n - 1, first.value.1);
        if rest.Failure? then Failure(rest.error) else Success(([first.value.0] + rest.value.0, rest.value.1))
  {
  }

  lemma {:induction false} Associate(a: Bytes, b: Bytes, c: Bytes)
    ensures a + (b + c) == a + b + c
  {
  }

  // -- numbers

  lemma {:induction false} ByteRoundTrip(v: int, t: Bytes)
    requires PutByte(v).Success?
    ensures GetByte(PutByte(v).value + t) == Success((v, t))
  {
    assert ([v] + t)[1..] == t;
  }

  lemma {:induction false} BytesRoundTrip(vs: seq<int>, t: Bytes)
    requires PutMany(PutByte, vs).Success?
    ensures PutMany(PutByte, vs).value == vs
    ensures GetMany(GetByte, |vs|, PutMany(PutByte, vs).value + t) == Success((vs, t))
  {
    if vs != [] {
      BytesRoundTrip(vs[1..], t);
      var rest := PutMany(PutByte, vs[1..]).value;
      assert [vs[0]] + rest + t == [vs[0]] + (rest + t);
      ByteRoundTrip(vs[0], rest + t);
      assert [vs[0]] + vs[1..] == vs;
    } else {
      assert [] + t == t;
    }
  }

  lemma {:induction false} TakeByte(b: byte, rest: Bytes)
    ensures GetByte([b] + rest) == Success((b, rest))
  {
    assert ([b] + rest)[1..] == rest;
  }

  lemma {:induction false} CoordRoundTrip(v: real, t: Bytes)
    ensures GetCoord(EncodeCoord(v) + t) == Success((QuantizeCoord(v), t))
  {
    CoordDecodes(v);
    var code := EncodeCoord(v);
    var s := code + t;
    assert s[1..] == code[1..] + t;
    if |code| == 2 {
      assert s[1..][1..] == t;
    }
  }

  lemma {:induction false} CoordsRoundTrip(vs: seq<real>, t: Bytes)
    ensures GetMany(GetCoord, |vs|, PutCoords(vs) + t) == Success((Map(QuantizeCoord, vs), t))
  {
    if vs != [] {
      CoordsRoundTrip(vs[1..], t);
      assert PutCoords(vs) + t == EncodeCoord(vs[0]) + (PutCoords(vs[1..]) + t);
      CoordRoundTrip(vs[0], PutCoords(vs[1..]) + t);
    } else {
      assert [] + t == t;
    }
  }

  lemma {:induction false} ThreeBytes(b0: byte, b1: byte, b2: byte, t: Bytes)
    ensures GetFloat24([b0, b1, b2] + t) == Success((DecodeFloat24(b0 * 0x1_0000 + b1 * 0x100 + b2), t))
  {
    var s := [b0, b1, b2] + t;
    assert s[1..] == [b1, b2] + t;
    assert s[1..][1..] == [b2] + t;
    assert s[1..][1..][1..] == t;
  }

  lemma {:induction false} SplitBytes(code: int)
    ensures code / 0x1_0000 * 0x1_0000 + code / 0x100 % 0x100 * 0x100 + code % 0x100 == code
  {
  }

  lemma {:induction false} Float24RoundTrip(v: real, t: Bytes)
    requires PutFloat24(v).Success?
    ensures GetFloat24(PutFloat24(v).value + t) == Success((NormNumber(v), t))
  {
    CodeInRange(v);
    var code := EncodeFloat24(v).value;
    ThreeBytes(code / 0x1_0000, code / 0x100 % 0x100, code % 0x100, t);
    SplitBytes(code);
  }

  lemma {:induction false} FloatsRoundTrip(vs: seq<real>, t: Bytes)
    requires PutMany(PutFloat24, vs).Success?
    ensures GetMany(GetFloat24, |vs|, PutMany(PutFloat24, vs).value + t) == Success((Map(NormNumber, vs), t))
  {
    forall v, rest: Bytes | v in vs && PutFloat24(v).Success?
      ensures GetFloat24(PutFloat24(v).value + rest) == Success((NormNumber(v), rest))
    {
      Float24RoundTrip(v, rest);
    }
    ManyRoundTrip(PutFloat24, GetFloat24, NormNumber, vs, t);
  }

  // -- colors and styles

  lemma {:induction false} ColorRoundTrip(c: Rgba, alpha: bool, gray: bool, t: Bytes)
    requires PutColor(c, alpha, gray).Success?
    requires (c.a < 255 ==> alpha) && (gray ==> c.Gray())
    ensures GetRgba(alpha, gray, PutColor(c, alpha, gray).value + t) == Success((NormColor(c), t))
  {
    var gb := if gray then [] else PutMany(PutByte, [c.g, c.b]).value;
    var a: Bytes := if alpha then [c.a] else [];
    assert PutColor(c, alpha, gray).value + t == [c.r] + (gb + (a + t));
    if !gray {
      BytesRoundTrip([c.g, c.b], a + t);
    } else {
      assert gb + (a + t) == a + t;
    }
    AlphaReads(c, alpha, a, t);
    ColorReads(alpha, gray, c.r, [c.g, c.b], gb + (a + t), a + t, NormColor(c).a, t);
  }

  lemma {:induction false} AlphaReads(c: Rgba, alpha: bool, a: Bytes, t: Bytes)
    requires (c.a < 255 ==> alpha) && (alpha ==> 0 <= c.a < 256) && a == if alpha then [c.a] else []
    ensures (if alpha then GetByte(a + t) else Success((255, a + t))) == Success((NormColor(c).a, t))
  {
    if alpha {
      assert (a + t)[1..] == t;
    } else {
      assert a + t == t;
    }
  }

  lemma {:induction false} ColorReads(alpha: bool, gray: bool, r: byte, gb: seq<byte>, s: Bytes, s2: Bytes, a: byte,
                                      t: Bytes)
    requires |gb| == 2
    requires (if gray then Success(([r, r], s)) else GetMany(GetByte, 2, s)) == Success((gb, s2))
    requires (if alpha then GetByte(s2) else Success((255, s2))) == Success((a, t))
    ensures GetRgba(alpha, gray, [r] + s) == Success((Rgba(r, gb[0], gb[1], a), t))
  {
    assert ([r] + s)[1..] == s;
  }

  lemma {:induction false} StopRoundTrip(stop: Stop, alpha: bool, gray: bool, t: Bytes)
    requires PutStop(alpha, gray)(stop).Success?
    requires (stop.color.a < 255 ==> alpha) && (gray ==> stop.color.Gray())
    ensures GetStop(alpha, gray)(PutStop(alpha, gray)(stop).value + t) == Success((NormStop(stop), t))
  {
    var color := PutColor(stop.color, alpha, gray).value;
    ColorRoundTrip(stop.color, alpha, gray, t);
    TakeByte(stop.offset, color + t);
    assert [stop.offset] + color + t == [stop.offset] + (color + t);
    StopReads(alpha, gray, [stop.offset] + (color + t), stop.offset, color + t, NormColor(stop.color), t);
  }

  lemma {:induction false} StopReads(alpha: bool, gray: bool, s: Bytes, offset: byte, s1: Bytes, color: Rgba, t: Bytes)
    requires GetByte(s) == Success((offset, s1)) && GetRgba(alpha, gray, s1) == Success((color, t))
    ensures GetStop(alpha, gray)(s) == Success((Stop(offset, color), t))
  {
  }

  lemma {:induction false} StopsRoundTrip(stops: seq<Stop>, t: Bytes)
    requires var alpha, gray := AnyAlpha(stops), AllGray(stops); PutMany(PutStop(alpha, gray), stops).Success?
    ensures var alpha, gray := AnyAlpha(stops), AllGray(stops);
      GetMany(GetStop(alpha, gray), |stops|, PutMany(PutStop(alpha, gray), stops).value + t)
        == Success((Map(NormStop, stops), t))
  {
    var alpha, gray := AnyAlpha(stops), AllGray(stops);
    forall x, rest: Bytes | x in stops && PutStop(alpha, gray)(x).Success?
      ensures GetStop(alpha, gray)(PutStop(alpha, gray)(x).value + rest) == Success((NormStop(x), rest))
    {
      StopRoundTrip(x, alpha, gray, rest);
    }
    ManyRoundTrip(PutStop(alpha, gray), GetStop(alpha, gray), NormStop, stops, t);
  }

  lemma {:induction false} GradientFlagsRead(identity: bool, alpha: bool, gray: bool)
    ensures var flags := GradientFlags(identity, alpha, gray);
      && Flag(flags, GRADIENT_FLAG_TRANSFORM) == !identity
      && Flag(flags, GRADIENT_FLAG_NO_ALPHA) == !alpha
      && Flag(flags, GRADIENT_FLAG_GRAYS) == gray
  {
  }

  lemma {:induction false} MatrixRoundTrip(matrix: Matrix, t: Bytes)
    requires PutMany(PutFloat24, matrix).Success?
    ensures GetMatrix(PutMany(PutFloat24, matrix).value + t) == Success((Map(NormNumber, matrix), t))
  {
    FloatsRoundTrip(matrix, t);
  }

  lemma {:induction false} GradientMatrixRoundTrip(flags: byte, matrix: Matrix, t: Bytes)
    requires PutGradientMatrix(matrix).Success?
    requires Flag(flags, GRADIENT_FLAG_TRANSFORM) == !NearIdentity(matrix, 6)
    ensures GetGradientMatrix(flags, PutGradientMatrix(matrix).value + t) == Success((NormGradientMatrix(matrix), t))
  {
    if NearIdentity(matrix, 6) {
      assert [] + t == t;
    } else {
      MatrixRoundTrip(matrix, t);
    }
  }

  lemma {:induction false} GradientReads(kind: byte, flags: byte, count: byte, s1: Bytes, matrix: Matrix, s2: Bytes,
                                         stops: seq<Stop>, t: Bytes)
    requires GetGradientMatrix(flags, s1) == Success((matrix, s2))
    requires GetMany(GetStop(!Flag(flags, GRADIENT_FLAG_NO_ALPHA), Flag(flags, GRADIENT_FLAG_GRAYS)), count, s2)
      == Success((stops, t))
    ensures GetGradient([kind] + ([flags] + ([count] + s1)))
      == Success((Some(Gradient(kind, matrix, SortStops(stops))), t))
  {
    TakeByte(kind, [flags] + ([count] + s1));
    TakeByte(flags, [count] + s1);
    TakeByte(count, s1);
  }

  lemma {:induction false} Regroup(k: byte, flags: byte, count: byte, m: Bytes, st: Bytes, t: Bytes)
    ensures [k] + [flags, count] + m + st + t == [k] + ([flags] + ([count] + (m + (st + t))))
  {
  }

  lemma {:induction false} GradientWrites(kind: int, matrix: Matrix, stops: seq<Stop>, t: Bytes)
    requires PutGradient(kind, matrix, stops).Success?
    ensures var alpha, gray := AnyAlpha(stops), AllGray(stops);
      && 0 <= kind < 256 && |stops| < 256
      && PutGradientMatrix(matrix).Success? && PutMany(PutStop(alpha, gray), stops).Success?
      && PutGradient(kind, matrix, stops).value + t
        == [kind] + ([GradientFlags(NearIdentity(matrix, 6), alpha, gray)] + ([|stops|]
          + (PutGradientMatrix(matrix).value + (PutMany(PutStop(alpha, gray), stops).value + t))))
  {
    var alpha, gray := AnyAlpha(stops), AllGray(stops);
    var flags := GradientFlags(NearIdentity(matrix, 6), alpha, gray);
    Regroup(kind, flags, |stops|, PutGradientMatrix(matrix).value, PutMany(PutStop(alpha, gray), stops).value, t);
  }

  lemma {:induction false} GradientRoundTrip(kind: int, matrix: Matrix, stops: seq<Stop>, t: Bytes)
    requires PutGradient(kind, matrix, stops).Success?
    ensures GetGradient(PutGradient(kind, matrix, stops).value + t)
      == Success((Some(NormStyle(Gradient(kind, matrix, stops))), t))
  {
    GradientWrites(kind, matrix, stops, t);
    var alpha, gray := AnyAlpha(stops), AllGray(stops);
    var m := PutGradientMatrix(matrix).value;
    var st := PutMany(PutStop(alpha, gray), stops).value;
    var flags := GradientFlags(NearIdentity(matrix, 6), alpha, gray);
    GradientFlagsRead(NearIdentity(matrix, 6), alpha, gray);
    GradientMatrixRoundTrip(flags, matrix, st + t);
    StopsRoundTrip(stops, t);
    GradientReads(kind, flags, |stops|, m + (st + t), NormGradientMatrix(matrix), st + t, Map(NormStop, stops), t);
  }

  lemma {:induction false} StyleKinds(gray: bool, alpha: bool, rest: Bytes)
    ensures GetStyle([SolidKind(gray, alpha)] + rest) == GetSolid(alpha, gray, rest)
    ensures GetStyle([STYLE_GRADIENT] + rest) == GetGradient(rest)
  {
    assert ([SolidKind(gray, alpha)] + rest)[1..] == rest;
    assert ([STYLE_GRADIENT] + rest)[1..] == rest;
  }

  lemma {:induction false} StyleRoundTrip(style: Style, t: Bytes)
    requires PutStyle(style).Success?
    ensures GetStyle(PutStyle(style).value + t) == Success((Some(NormStyle(style)), t))
  {
    match style
    case Solid(c) =>
      var rest := PutSolid(c).value + t;
      assert PutStyle(style).value + t == [SolidKind(c.Gray(), c.a < 255)] + rest;
      StyleKinds(c.Gray(), c.a < 255, rest);
      ColorRoundTrip(c, c.a < 255, c.Gray(), t);
    case Gradient(kind, matrix, stops) =>
      var rest := PutGradient(kind, matrix, stops).value + t;
      assert PutStyle(style).value + t == [STYLE_GRADIENT] + rest;
      StyleKinds(false, false, rest);
      GradientRoundTrip(kind, matrix, stops, t);
  }
}
