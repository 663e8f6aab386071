/** The two lossy number codes of HVIF: coordinates in one or two bytes, and 24-bit floats
    cut from IEEE 754 binary32. */
module HvifNumbers {
  import opened Rounding

  type byte = b: int | 0 <= b < 256

  // -- coordinates

  const SHORT_FORM: int := 0x8000

  function Clamp(v: real): (c: real)
    ensures -128.0 <= c <= 192.0
    ensures -128.0 <= v <= 192.0 ==> c == v
  {
    if v < -128.0 then -128.0 else if v > 192.0 then 192.0 else v
  }

  function Distance(x: real, y: real): real {
    if x < y then y - x else x - y
  }

  /** Whether a clamped coordinate is written as one byte: close to an integer in -32..95. */
  predicate IsWholeUnit(v: real) {
    var nearest := RoundHalfEven(v);
    Distance(v, nearest as real) < 0.005 && -32 <= nearest <= 95
  }

  function HundredAndTwoths(v: real): (n: int)
    requires -128.0 <= v <= 192.0
    ensures 0 <= n <= 32640
  {
    RoundHalfEven((v + 128.0) * 102.0)
  }

  function EncodeCoord(value: real): seq<byte> {
    var v := Clamp(value);
    if IsWholeUnit(v) then [RoundHalfEven(v) + 32]
    else
      var short := HundredAndTwoths(v) + SHORT_FORM;
      [short / 256, short % 256]
  }

  function DecodeWide(high: byte, low: byte): real {
    ((high % 128) * 256 + low) as real / 102.0 - 128.0
  }

  function DecodeNarrow(b: byte): real {
    (b - 32) as real
  }

  /** What is left of a coordinate after one trip through the file. */
  function QuantizeCoord(value: real): real {
    var v := Clamp(value);
    if IsWholeUnit(v) then RoundHalfEven(v) as real
    else HundredAndTwoths(v) as real / 102.0 - 128.0
  }

  /** The decoder's two branches on what the encoder wrote give the quantised value. */
  lemma {:induction false} CoordDecodes(value: real)
    ensures var bytes := EncodeCoord(value);
      if |bytes| == 1 then bytes[0] < 128 && DecodeNarrow(bytes[0]) == QuantizeCoord(value)
      else |bytes| == 2 && bytes[0] >= 128 && DecodeWide(bytes[0], bytes[1]) == QuantizeCoord(value)
  {
    var v := Clamp(value);
    if !IsWholeUnit(v) {
      var n := HundredAndTwoths(v);
      var high, low := (n + SHORT_FORM) / 256, (n + SHORT_FORM) % 256;
      assert high % 128 == n / 256 && low == n % 256;
    }
  }

  /** The two-byte form is never used for a value an exact unit would have carried: half a step
      of 1/102 is less than the 0.005 that selects the one-byte form. */
  lemma {:induction false} WideIsNotWhole(v: real)
    requires -128.0 <= v <= 192.0 && !IsWholeUnit(v)
    ensures var q := HundredAndTwoths(v) as real / 102.0 - 128.0;
      !IsWholeUnit(q) && Clamp(q) == q && HundredAndTwoths(q) == HundredAndTwoths(v)
  {
    var n := HundredAndTwoths(v);
    var q := n as real / 102.0 - 128.0;
    assert (q + 128.0) * 102.0 == n as real;
    var w := RoundHalfEven(q);
    if IsWholeUnit(q) {
      assert n == 102 * (w + 128) by {
        assert -0.52 < n as real - 102.0 * (w as real + 128.0) < 0.52;
      }
      assert Distance(v, w as real) < 0.005;
      RoundIsUnique(v, w);
      assert false;
    }
  }

  /** A coordinate loses precision once only. */
  lemma {:induction false} CoordCodeIsCanonical(value: real)
    ensures EncodeCoord(QuantizeCoord(value)) == EncodeCoord(value)
    ensures QuantizeCoord(QuantizeCoord(value)) == QuantizeCoord(value)
  {
    var v := Clamp(value);
    if IsWholeUnit(v) {
      RoundIsUnique(RoundHalfEven(v) as real, RoundHalfEven(v));
    } else {
      WideIsNotWhole(v);
    }
  }

  /** ... and no more than five thousandths of a unit. */
  lemma {:induction false} CoordError(value: real)
    ensures Distance(QuantizeCoord(value), Clamp(value)) <= 0.005
    ensures -128.0 <= QuantizeCoord(value) <= 192.0
  {
    var v := Clamp(value);
    if !IsWholeUnit(v) {
      var n := HundredAndTwoths(v);
      assert -0.5 <= (v + 128.0) * 102.0 - n as real <= 0.5;
    }
  }
}
