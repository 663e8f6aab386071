/** What a letter sounds as: its octave, the key, and the accidentals of the bar so far. */
module AbcPitches {
  import opened Wrappers
  import opened AbcTimeline
  import opened AbcLengths

  /** The letters are C to B, 0 to 6; this one is middle C. */
  const MIDDLE_C: Pitch := Pitch(0, 5, None)

  function Natural(letter: int, octave: int): Pitch {
    Pitch(letter, octave, None)
  }

  /** The semitone of a letter in a key, from C up. */
  function InKey(letter: int, sharps: int): int
    requires 0 <= letter < 7
  {
    Midi(NEW_VOICE.(keySharps := sharps), Natural(letter, 0))
  }

  /** Middle C is 60, and an octave is twelve semitones. */
  lemma {:induction false} Octaves(v: Voice, letter: int, octave: int, alter: Option<int>)
    requires 0 <= letter < 7 && |v.accidentals| == 7
    ensures Midi(NEW_VOICE, MIDDLE_C) == 60
    ensures Midi(v, Pitch(letter, octave + 1, alter)) == Midi(v, Pitch(letter, octave, alter)) + 12
  {
  }

  /** In C the letters ascend within an octave. */
  lemma {:induction false} LettersAscend(letter: int, next: int)
    requires 0 <= letter < next < 7
    ensures 0 <= InKey(letter, 0) < InKey(next, 0) < 12
  {
    assert KeyAlter(0, letter) == 0 && KeyAlter(0, next) == 0;
  }

  /** One sharp more, or one flat less, is the same key a fifth higher: five letters up, counting
      both, stand seven semitones above. With C for a start that is every letter of every key. */
  lemma {:induction false} FifthsApart(letter: int, sharps: int)
    requires 0 <= letter < 7 && -7 <= sharps < 7
    ensures var fifth := (letter + 4) % 7;
      InKey(fifth, sharps + 1) == InKey(letter, sharps) + 7 - if letter < 3 then 0 else 12
  {
    var fifth := (letter + 4) % 7;
    Altered(letter, sharps);
    Altered(fifth, sharps + 1);
    InKeyIs(letter, sharps);
    InKeyIs(fifth, sharps + 1);
    FifthUp(letter, sharps);
  }

  lemma {:induction false} InKeyIs(letter: int, sharps: int)
    requires 0 <= letter < 7
    ensures InKey(letter, sharps) == SEMITONE[letter] + KeyAlter(sharps, letter)
  {
  }

  lemma {:induction false} FifthUp(letter: int, sharps: int)
    requires 0 <= letter < 7
    ensures var fifth := (letter + 4) % 7;
      && 0 <= fifth < 7 && fifth == (if letter < 3 then letter + 4 else letter - 3)
      && Place(fifth) == (if letter == 6 then 0 else Place(letter) + 1)
      && SEMITONE[fifth] == SEMITONE[letter] + 7 - (if letter < 3 then 0 else 12) - (if letter == 6 then 1 else 0)
  {
  }

  /** Where a letter comes in the order F C G D A E B. */
  function Place(letter: int): int {
    if letter == 3 then 0 else if letter == 0 then 1 else if letter == 4 then 2 else if letter == 1 then 3
    else if letter == 5 then 4 else if letter == 2 then 5 else 6
  }

  /** Sharps come in that order, and flats in the opposite one; there are no more than seven. */
  lemma {:induction false} Altered(letter: int, sharps: int)
    requires 0 <= letter < 7
    ensures KeyAlter(sharps, letter) ==
      if Place(letter) < sharps then 1 else if 7 - Place(letter) <= -sharps then -1 else 0
  {
    if sharps > 0 {
      PlacedBefore(letter, Min(sharps, 7));
    } else if sharps < 0 {
      PlacedFrom(letter, 7 - Min(-sharps, 7));
    }
  }

  lemma {:induction false} PlacedBefore(letter: int, n: int)
    requires 0 <= letter < 7 && 0 <= n <= 7
    ensures letter in SHARP_ORDER[..n] <==> Place(letter) < n
  {
    assert SHARP_ORDER[Place(letter)] == letter;
    if letter in SHARP_ORDER[..n] {
      var i :| 0 <= i < n && SHARP_ORDER[..n][i] == letter;
      assert SHARP_ORDER[i] == letter;
    }
    if Place(letter) < n {
      assert SHARP_ORDER[..n][Place(letter)] == letter;
    }
  }

  lemma {:induction false} PlacedFrom(letter: int, n: int)
    requires 0 <= letter < 7 && 0 <= n <= 7
    ensures letter in SHARP_ORDER[n..] <==> Place(letter) >= n
  {
    assert SHARP_ORDER[Place(letter)] == letter;
    if letter in SHARP_ORDER[n..] {
      var i :| 0 <= i < 7 - n && SHARP_ORDER[n..][i] == letter;
      assert SHARP_ORDER[n + i] == letter;
    }
    if Place(letter) >= n {
      assert SHARP_ORDER[n..][Place(letter) - n] == letter;
    }
  }

  // -- accidentals

  function NextMidi(st: State, letter: int, octave: int): int
    requires Ready(st) && 0 <= letter < 7
  {
    Midi(st.voices[st.current], Natural(letter, octave))
  }

  /** An accidental counts from the natural letter, whatever the key, and holds for its letter in
      every octave until the bar ends; other letters keep theirs. */
  lemma {:induction false} AccidentalsHold(st: State, letter: int, octave: int, alter: int, length: Length,
                                           other: int, later: int)
    requires Ready(st) && 0 <= letter < 7 && 0 <= other < 7 && alter != NO_ACCIDENTAL && !st.ctx.pendingTie
    ensures var r := Step(st, NoteToken(Pitch(letter, octave, Some(alter)), length));
      && Ready(r) && r.current == st.current
      && r.notes == st.notes + [r.notes[|st.notes|]]
      && r.notes[|st.notes|].midi == 12 * octave + InKey(letter, 0) + alter
      && NextMidi(r, other, later) ==
           (if other == letter then 12 * later + InKey(letter, 0) + alter else NextMidi(st, other, later))
  {
    StepIsReady(st, NoteToken(Pitch(letter, octave, Some(alter)), length));
    assert KeyAlter(0, letter) == 0;
  }

  /** A bar line, a key and a change of voice end them: what is left is the key's. */
  lemma {:induction false} AccidentalsEnd(st: State, letter: int, octave: int, sharps: int, n: int)
    requires Ready(st) && 0 <= letter < 7
    ensures var r := Step(st, BarToken);
      Ready(r) && NextMidi(r, letter, octave) == 12 * octave + InKey(letter, st.voices[st.current].keySharps)
    ensures var r := Step(st, KeyToken(sharps));
      Ready(r) && NextMidi(r, letter, octave) == 12 * octave + InKey(letter, sharps)
    ensures var r := Step(st, VoiceToken(n));
      Ready(r) && NextMidi(r, letter, octave) == 12 * octave + InKey(letter, r.voices[n].keySharps)
  {
    StepIsReady(st, BarToken);
    StepIsReady(st, KeyToken(sharps));
    StepIsReady(st, VoiceToken(n));
  }

  /** The notes of a chord sound as they would one after another. */
  lemma {:induction false} ChordPitchesInTurn(st: State, p: Pitch, q: Pitch, a: Length, b: Length, outer: Length)
    requires Ready(st) && 0 <= p.letter < 7 && 0 <= q.letter < 7 && !st.ctx.pendingTie
    ensures var first := Step(st, NoteToken(p, a));
      var chord, n := Step(st, ChordToken([(p, a), (q, b)], outer)), |st.notes|;
      && Ready(first) && |first.notes| == n + 1
      && |chord.notes| == n + 2 && chord.notes[..n] == st.notes
      && chord.notes[n].midi == first.notes[n].midi
      && chord.notes[n + 1].midi == Step(first, NoteToken(q, b)).notes[n + 1].midi
      && chord.notes[n].tick == chord.notes[n + 1].tick == ClockOf(st)
      && chord.notes[n].duration == chord.notes[n + 1].duration == ClockOf(chord) - ClockOf(st)
  {
    StepIsReady(st, NoteToken(p, a));
    var members := [(p, a), (q, b)];
    assert members[1..] == [(q, b)] && [(q, b)][1..] == [];
    var v := Remember(st.voices[st.current], p);
    assert ChordPitches(v, [(q, b)]) == ([Midi(Remember(v, q), q)] + [], Remember(v, q));
    assert ChordPitches(st.voices[st.current], members).0 == [Midi(v, p)] + ([Midi(Remember(v, q), q)] + []);
  }
}
