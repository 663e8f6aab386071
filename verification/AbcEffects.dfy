/** What the marks and fields of a tune do to the notes around them. */
module AbcEffects {
  import opened Wrappers
  import opened AbcTimeline
  import opened AbcLengths
  import opened AbcPitches

  // -- ties

  /** Of two notes with a tie between them there is one, as long as both, when they sound the same,
      and otherwise there are both. */
  lemma {:induction false} TiedNotes(st: State, letter: int, octave: int, other: int, a: Length, b: Length)
    requires Free(st) && 0 <= letter < 7 && 0 <= other < 7 && !st.ctx.pendingTie
    ensures Ready(Step(st, NoteToken(Natural(letter, octave), a)))
    ensures var first := Step(st, NoteToken(Natural(letter, octave), a));
      var tied, n := Step(first, TieToken), |st.notes|;
      && Ready(tied)
      && var next := NoteToken(Natural(other, octave), b);
         var r, plain := Step(tied, next), Step(first, next);
         && ClockOf(r) == ClockOf(plain) && !r.ctx.pendingTie
         && (NextMidi(first, other, octave) == NextMidi(st, letter, octave) ==>
               |r.notes| == n + 1 && r.notes[n] == first.notes[n].(duration := ClockOf(r) - ClockOf(st)))
         && ((forall i | 0 <= i <= n :: first.notes[i].midi != NextMidi(first, other, octave)) ==>
               r.notes == plain.notes)
  {
    var first := Step(st, NoteToken(Natural(letter, octave), a));
    StepIsReady(st, NoteToken(Natural(letter, octave), a));
    StepIsReady(first, TieToken);
    var v := first.voices[first.current];
    assert first.notes[..|st.notes|] == st.notes;
    if forall i | 0 <= i < |first.notes| :: first.notes[i].midi != NextMidi(first, other, octave) {
      NoneTied(first.notes, first.current, NextMidi(first, other, octave), v.tick);
    }
  }

  lemma {:induction false} NoneTied(notes: seq<Note>, voice: int, midi: int, tick: int)
    requires forall i | 0 <= i < |notes| :: notes[i].midi != midi
    ensures TiedTo(notes, voice, midi, tick).None?
  {
    if notes != [] {
      NoneTied(notes[..|notes| - 1], voice, midi, tick);
    }
  }

  // -- broken rhythm

  /** Two plain notes of `unit` ticks with a mark between them: after > the first is the longer,
      after < the second, by half for one mark and by three quarters for two. */
  lemma {:induction false} BrokenNotes(st: State, letter: int, octave: int, right: bool, count: int)
    requires Free(st) && 0 <= letter < 7 && !st.ctx.pendingTie && 1 <= count <= 2
    requires UnitTicks(st.voices[st.current]) % 4 == 0
    ensures var t := NoteToken(Natural(letter, octave), PLAIN);
      var first := Step(st, t);
      && Ready(first) && Ready(Step(first, BrokenToken(right, count)))
      && var r, n := Step(Step(first, BrokenToken(right, count)), t), |st.notes|;
         var unit := UnitTicks(st.voices[st.current]);
         var most := if count == 1 then unit + unit / 2 else unit + unit / 2 + unit / 4;
         && |r.notes| == n + 2
         && r.notes[n].duration == (if right then most else 2 * unit - most)
         && r.notes[n + 1].duration == (if right then 2 * unit - most else most)
         && ClockOf(r) == ClockOf(st) + 2 * unit
  {
    var t := NoteToken(Natural(letter, octave), PLAIN);
    StepIsReady(st, t);
    StepIsReady(Step(st, t), BrokenToken(right, count));
    assert PowerOfTwo(1) == 2 && PowerOfTwo(2) == 4;
    Parts(UnitTicks(st.voices[st.current]));
  }

  lemma {:induction false} Parts(unit: int)
    requires unit >= 1 && unit % 4 == 0
    ensures Longer(unit, 1) == unit + unit / 2 && Shorter(unit, 1) == unit - unit / 2
    ensures Longer(unit, 2) == unit + unit / 2 + unit / 4 && Shorter(unit, 2) == unit / 4
  {
    var k := unit / 4;
    assert unit == 4 * k && PowerOfTwo(1) == 2 && PowerOfTwo(2) == 4;
  }

  // -- tuplets

  /** So many notes in the time of: 3 for 2, 4 and 8, 2 for 3 and 6, and for 5, 7 and 9 three in a
      compound meter, else 2; unless the numbers are written. */
  lemma {:induction false} TupletTimes(st: State, p: int, q: Option<nat>, r: Option<nat>)
    requires Ready(st) && p >= 1
    ensures var v, ctx := st.voices[st.current], Step(st, TupletToken(p, q, r)).ctx;
      && ctx.tupletDen == p && ctx.tupletLeft == (if r.Some? then r.value else p)
      && (q.Some? ==> ctx.tupletNum == q.value)
      && (q.None? && p in [2, 4, 8] ==> ctx.tupletNum == 3)
      && (q.None? && p in [3, 6] ==> ctx.tupletNum == 2)
      && (q.None? && p in [5, 7, 9] ==>
            ctx.tupletNum == if v.meterDen == 8 && v.meterNum % 3 == 0 then 3 else 2)
      && (q.None? && p !in [2, 3, 4, 5, 6, 7, 8, 9] ==> ctx.tupletNum == 2)
  {
  }

  /** The first note of one: its length by q, divided by p; and one note fewer is left. */
  lemma {:induction false} TupletShortens(st: State, letter: int, octave: int, p: int, q: nat, r: nat)
    requires Free(st) && 0 <= letter < 7 && !st.ctx.pendingTie && p >= 1 && r >= 1
    ensures var inside := Step(st, TupletToken(p, Some(q), Some(r)));
      && Ready(inside)
      && var after, unit := Step(inside, NoteToken(Natural(letter, octave), PLAIN)), UnitTicks(st.voices[st.current]);
         && ClockOf(after) == ClockOf(st) + AtLeastOne(Quotient(unit * q, p))
         && after.ctx.tupletLeft == r - 1
  {
    StepIsReady(st, TupletToken(p, Some(q), Some(r)));
  }

  // -- voices, bars, settings, lines

  /** A voice that is new begins at 0 with the unit and the key of the first voice, in common time,
      at velocity 100; one that is not goes on where it was. */
  lemma {:induction false} VoiceBegins(st: State, n: int)
    requires Ready(st) && 1 in st.voices
    ensures var r := Step(st, VoiceToken(n));
      && r.current == n && n in r.voices && r.notes == st.notes
      && (forall m | m in st.voices && m != n :: m in r.voices && r.voices[m] == st.voices[m])
      && r.voices[n].accidentals == [99, 99, 99, 99, 99, 99, 99]
      && (n in st.voices ==> r.voices[n] == st.voices[n].(accidentals := r.voices[n].accidentals))
      && (n !in st.voices ==>
            && r.voices[n].tick == 0 && r.voices[n].velocity == 100
            && r.voices[n].meterNum == 4 == r.voices[n].meterDen
            && r.voices[n].unitNum == st.voices[1].unitNum && r.voices[n].unitDen == st.voices[1].unitDen
            && r.voices[n].keySharps == st.voices[1].keySharps)
  {
  }

  /** A bar line is warned of exactly when the voice is past the last whole bar, of 1920 ticks times
      its meter. */
  lemma {:induction false} BarWarns(st: State)
    requires Ready(st)
    ensures var v := st.voices[st.current];
      var bar := Quotient(1920 * v.meterNum, if v.meterDen < 1 then 1 else v.meterDen);
      Step(st, BarToken).warnings == st.warnings
        + if bar > 0 && v.tick % bar != 0 then [(st.current, v.tick)] else []
    ensures ClockOf(Step(st, BarToken)) == ClockOf(st) && Step(st, BarToken).notes == st.notes
  {
  }

  /** A setting is made where its own voice is. */
  lemma {:induction false} SettingTime(st: State, n: int, param: int, value: int)
    requires Ready(st) && 1 in st.voices
    ensures Step(st, ChipToken(n, param, value)).chips
      == st.chips + [ChipSet(if n in st.voices then st.voices[n].tick else 0, n, param, value)]
  {
  }

  /** A new line forgets ties, marks and tuplets, and nothing else. */
  lemma {:induction false} LineForgets(st: State, letter: int, octave: int)
    requires Ready(st) && 0 <= letter < 7
    ensures var r := Step(st, LineToken);
      && Free(r) && !r.ctx.pendingTie && r.ctx.lastNote == -1
      && r.notes == st.notes && r.voices == st.voices && r.current == st.current && r.chips == st.chips
      && Step(r, BrokenToken(true, 1)).notes == r.notes
  {
  }

  /** The notes of a tune have its voices' velocity, 100 from the start. */
  lemma {:induction false} Velocities(st: State, pitch: Pitch, length: Length)
    requires Ready(st) && 0 <= pitch.letter < 7 && !st.ctx.pendingTie
    ensures var r := Step(st, NoteToken(pitch, length));
      |r.notes| == |st.notes| + 1 && r.notes[|st.notes|].velocity == st.voices[st.current].velocity
      && r.notes[|st.notes|].voice == st.current
    ensures START.voices[1].velocity == 100 && START.current == 1 && START.notes == []
  {
  }
}
