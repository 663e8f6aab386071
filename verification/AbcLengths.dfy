/** How long notes, chords and rests last as they are written: a multiplier, slashes, the unit and
    the meter, in ticks of which a whole note has 1920. */
module AbcLengths {
  import opened Wrappers
  import opened AbcTimeline

  const PLAIN: Length := Length(None, [])

  /** Outside tuplets and marks. */
  ghost predicate Free(st: State) {
    Ready(st) && st.ctx.tupletLeft <= 0 && st.ctx.broken == 0
  }

  function ClockOf(st: State): int
    requires st.current in st.voices
  {
    st.voices[st.current].tick
  }

  lemma {:induction false} RunOne(st: State, t: Token)
    requires Ready(st) && Proper(t)
    ensures Run(st, [t]) == Step(st, t)
  {
    assert [t][..0] == [] && Run(st, []) == st;
  }

  lemma {:induction false} RunMore(st: State, tokens: seq<Token>, t: Token)
    requires Ready(st) && (forall u | u in tokens :: Proper(u)) && Proper(t)
    ensures Run(st, tokens + [t]) == Step(Run(st, tokens), t)
  {
    assert (tokens + [t])[..|tokens|] == tokens;
  }

  /** The same token so many times. */
  predicate AllAre(tokens: seq<Token>, t: Token) {
    forall i | 0 <= i < |tokens| :: tokens[i] == t
  }

  lemma {:induction false} LastOfAll(tokens: seq<Token>, t: Token)
    requires AllAre(tokens, t) && tokens != []
    ensures AllAre(tokens[..|tokens| - 1], t) && tokens == tokens[..|tokens| - 1] + [t]
  {
  }

  // -- multipliers

  /** A plain note takes the unit, and leaves the voice's unit as it was. */
  lemma {:induction false} PlainNote(st: State, pitch: Pitch)
    requires Free(st) && 0 <= pitch.letter < 7
    ensures var r := Step(st, NoteToken(pitch, PLAIN));
      && Free(r) && r.current == st.current
      && ClockOf(r) == ClockOf(st) + UnitTicks(st.voices[st.current])
      && UnitTicks(r.voices[r.current]) == UnitTicks(st.voices[st.current])
  {
    StepIsReady(st, NoteToken(pitch, PLAIN));
  }

  /** As far on as so many units, in the same voice with the same unit. */
  ghost predicate On(st: State, r: State, k: nat)
    requires Ready(st)
  {
    && Free(r) && r.current == st.current
    && ClockOf(r) == ClockOf(st) + k * UnitTicks(st.voices[st.current])
    && UnitTicks(r.voices[r.current]) == UnitTicks(st.voices[st.current])
  }

  lemma {:induction false} OneMorePlain(st: State, before: State, pitch: Pitch, k: nat)
    requires Ready(st) && 0 <= pitch.letter < 7 && On(st, before, k)
    ensures On(st, Step(before, NoteToken(pitch, PLAIN)), k + 1)
  {
    PlainNote(before, pitch);
    Distributes(k + 1, UnitTicks(st.voices[st.current]));
  }

  lemma {:induction false} PlainNotes(st: State, pitch: Pitch, tokens: seq<Token>)
    requires Free(st) && 0 <= pitch.letter < 7 && AllAre(tokens, NoteToken(pitch, PLAIN))
    ensures (forall u | u in tokens :: Proper(u)) && On(st, Run(st, tokens), |tokens|)
  {
    if tokens != [] {
      var init := tokens[..|tokens| - 1];
      LastOfAll(tokens, NoteToken(pitch, PLAIN));
      PlainNotes(st, pitch, init);
      PlainAtEnd(st, init, pitch, |init|);
    } else {
      assert Run(st, []) == st;
    }
  }

  lemma {:induction false} PlainAtEnd(st: State, tokens: seq<Token>, pitch: Pitch, k: nat)
    requires Ready(st) && 0 <= pitch.letter < 7 && (forall u | u in tokens :: Proper(u)) && On(st, Run(st, tokens), k)
    ensures On(st, Run(st, tokens + [NoteToken(pitch, PLAIN)]), k + 1)
  {
    RunMore(st, tokens, NoteToken(pitch, PLAIN));
    OneMorePlain(st, Run(st, tokens), pitch, k);
  }

  lemma {:induction false} Distributes(k: int, u: int)
    ensures k * u == (k - 1) * u + u
  {
  }

  lemma {:induction false} AtLeastU(k: int, u: int)
    requires k >= 1 && u >= 1
    ensures k * u >= 1
  {
  }

  /** A note with a multiplier takes as long as that many notes without one. */
  lemma {:induction false} LongNote(st: State, pitch: Pitch, tokens: seq<Token>)
    requires Free(st) && 0 <= pitch.letter < 7 && tokens != [] && AllAre(tokens, NoteToken(pitch, PLAIN))
    ensures forall u | u in tokens :: Proper(u)
    ensures ClockOf(Step(st, NoteToken(pitch, Length(Some(|tokens|), [])))) == ClockOf(Run(st, tokens))
  {
    PlainNotes(st, pitch, tokens);
    MultipliedNote(st, pitch, |tokens|);
  }

  lemma {:induction false} MultipliedNote(st: State, pitch: Pitch, k: nat)
    requires Free(st) && 0 <= pitch.letter < 7 && k >= 1
    ensures ClockOf(Step(st, NoteToken(pitch, Length(Some(k), []))))
      == ClockOf(st) + k * UnitTicks(st.voices[st.current])
  {
    var u := UnitTicks(st.voices[st.current]);
    AtLeastU(k, u);
    assert Quotient(u * k, 1) == u * k;
  }

  /** And so does a rest, of which a whole bar is one too. */
  lemma {:induction false} LongRest(st: State, wholeBar: bool, k: nat)
    requires Free(st) && k >= 1
    ensures var base := if wholeBar then BarTicks(st.voices[st.current]) else UnitTicks(st.voices[st.current]);
      base >= 1 ==>
        ClockOf(Step(st, RestToken(wholeBar, Length(Some(k), [])))) == ClockOf(st) + k * base
        && ClockOf(Step(st, RestToken(wholeBar, PLAIN))) == ClockOf(st) + base
  {
    var base := if wholeBar then BarTicks(st.voices[st.current]) else UnitTicks(st.voices[st.current]);
    if base >= 1 {
      AtLeastU(k, base);
      assert Quotient(base * k, 1) == base * k;
    }
  }

  // -- slashes

  /** A bare slash is the same as /2, each more halves again, and /0 is /1. */
  lemma {:induction false} Slashes(slashes: seq<Option<nat>>, n: nat)
    ensures Divisor([]) == 1
    ensures Divisor(slashes + [None]) == 2 * Divisor(slashes)
    ensures Divisor(slashes + [None]) == Divisor(slashes + [Some(2)])
    ensures n >= 1 ==> Divisor(slashes + [Some(n)]) == n * Divisor(slashes)
    ensures Divisor(slashes + [Some(0)]) == Divisor(slashes)
  {
    assert (slashes + [None])[..|slashes|] == slashes;
    assert (slashes + [Some(n)])[..|slashes|] == slashes;
    assert (slashes + [Some(2)])[..|slashes|] == slashes;
    assert (slashes + [Some(0)])[..|slashes|] == slashes;
  }

  /** With slashes a length is what is written divided by them, towards zero, but a tick at least. */
  lemma {:induction false} DividedLength(mul: Option<nat>, slashes: seq<Option<nat>>, unit: int)
    requires unit >= 1 && (mul.Some? || slashes != [])
    ensures var r, d := ReadDuration(Length(mul, slashes), unit), Divisor(slashes);
      var written := unit * if mul.Some? then mul.value else 1;
      r.Some? && ((r.value == 1 && written < 2 * d) || Covers(r.value, d, written))
  {
    var d := Divisor(slashes);
    var written := unit * if mul.Some? then mul.value else 1;
    NotNegative(unit, if mul.Some? then mul.value else 1);
    DivisionCovers(written, d);
  }

  /** written / d is r, with what is left over dropped. */
  predicate Covers(r: int, d: int, written: int) {
    r * d <= written < (r + 1) * d
  }

  lemma {:induction false} NotNegative(a: int, b: int)
    requires a >= 0 && b >= 0
    ensures a * b >= 0
  {
  }

  lemma {:induction false} DivisionCovers(written: int, d: int)
    requires written >= 0 && d >= 1
    ensures Covers(written / d, d, written) && written / d >= 0
    ensures written / d == 0 ==> written < d
  {
    var q := written / d;
    Distributes(q + 1, d);
    WithRest(written, d);
  }

  lemma {:induction false} WithRest(n: int, d: int)
    requires d >= 1
    ensures n == n / d * d + n % d && 0 <= n % d < d
  {
  }

  /** What a note, alone or in a chord, or a rest then lasts. */
  lemma {:induction false} LastsAsWritten(st: State, pitch: Pitch, length: Length)
    requires Free(st) && 0 <= pitch.letter < 7 && !st.ctx.pendingTie
    ensures var unit := UnitTicks(st.voices[st.current]);
      var d := if ReadDuration(length, unit).Some? then ReadDuration(length, unit).value else unit;
      var r := Step(st, NoteToken(pitch, length));
      && |r.notes| == |st.notes| + 1 && r.notes[..|st.notes|] == st.notes
      && r.notes[|st.notes|].tick == ClockOf(st) && r.notes[|st.notes|].duration == d
      && ClockOf(r) == ClockOf(st) + d
      && ClockOf(Step(st, RestToken(false, length))) == ClockOf(st) + d
      && ClockOf(Step(st, ChordToken([(pitch, PLAIN)], length))) == ClockOf(st) + d
      && ClockOf(Step(st, ChordToken([(pitch, length)], PLAIN))) == ClockOf(st) + d
  {
    assert ChordPitches(st.voices[st.current], []) == ([], st.voices[st.current]);
  }

  // -- units and meters

  /** L: sets the length of a plain note, as a part of 1920 ticks; nothing before it is sounding. */
  lemma {:induction false} UnitField(st: State, pitch: Pitch, num: int, den: int)
    requires Free(st) && 0 <= pitch.letter < 7 && num >= 0 && den >= 1
    ensures var r := Step(st, UnitToken(num, den));
      && Free(r) && ClockOf(r) == ClockOf(st) && r.current == st.current && r.notes == st.notes
      && ClockOf(Step(r, NoteToken(pitch, PLAIN)))
           == ClockOf(st) + AtLeastOne(1920 * num / den)
  {
    StepIsReady(st, UnitToken(num, den));
    PlainNote(Step(st, UnitToken(num, den)), pitch);
  }

  /** M: sets the length of a bar, and, until there is an L:, a plain note's: a sixteenth under
      three quarters, else an eighth. */
  lemma {:induction false} MeterField(st: State, pitch: Pitch, num: int, den: int)
    requires Free(st) && 0 <= pitch.letter < 7 && num >= 0 && den >= 1
    ensures var r := Step(st, MeterToken(num, den));
      && Free(r) && ClockOf(r) == ClockOf(st) && r.current == st.current
      && ClockOf(Step(r, RestToken(true, PLAIN))) == ClockOf(st) + AtLeastOne(1920 * num / den)
      && ClockOf(Step(r, NoteToken(pitch, PLAIN))) == ClockOf(st)
           + if st.unitSet then UnitTicks(st.voices[st.current]) else if 4 * num < 3 * den then 120 else 240
  {
    StepIsReady(st, MeterToken(num, den));
    var r := Step(st, MeterToken(num, den));
    PlainNote(r, pitch);
    BarRest(r);
  }

  lemma {:induction false} BarRest(st: State)
    requires Free(st)
    ensures ClockOf(Step(st, RestToken(true, PLAIN))) == ClockOf(st) + AtLeastOne(BarTicks(st.voices[st.current]))
  {
  }

  /** At the start a plain note is an eighth, and A2 a quarter. */
  lemma {:induction false} FirstNotes(pitch: Pitch)
    requires 0 <= pitch.letter < 7
    ensures Free(START) && ClockOf(START) == 0
    ensures ClockOf(Step(START, NoteToken(pitch, PLAIN))) == 240
    ensures ClockOf(Step(START, NoteToken(pitch, Length(Some(2), [])))) == 480
    ensures ClockOf(Step(START, NoteToken(pitch, Length(Some(3), [Some(2)])))) == 360
    ensures ClockOf(Step(START, NoteToken(pitch, Length(None, [None, None])))) == 60
    ensures ClockOf(Step(START, RestToken(true, PLAIN))) == 1920
  {
    assert UnitTicks(NEW_VOICE) == 240;
    var bare: seq<Option<nat>> := [None];
    Slashes([], 2);
    Slashes(bare, 2);
    assert [] + [Some(2)] == [Some(2)] && [] + bare == bare && bare + [None] == [None, None];
  }
}
