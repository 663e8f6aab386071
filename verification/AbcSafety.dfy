/** What every step of parsing keeps: the notes of a voice are disjoint and in order, and its
    clock is not before their ends. */
module AbcSafety {
  import opened Wrappers
  import opened AbcTimeline

  /** The notes of one voice, in the order written, start where the one before ended or later. */
  ghost predicate Disjoint(notes: seq<Note>) {
    forall i, j | 0 <= i < j < |notes| && notes[i].voice == notes[j].voice :: notes[i].End() <= notes[j].tick
  }

  ghost predicate Lasting(notes: seq<Note>) {
    forall i | 0 <= i < |notes| :: notes[i].duration >= 1 && notes[i].tick >= 0
  }

  ghost predicate Clocked(st: State) {
    && (forall n | n in st.voices :: st.voices[n].tick >= 0)
    && forall i | 0 <= i < |st.notes| ::
         st.notes[i].voice in st.voices && st.notes[i].End() <= st.voices[st.notes[i].voice].tick
  }

  /** No later note has this one's voice. */
  ghost predicate LastOfVoice(notes: seq<Note>, i: int)
    requires 0 <= i < |notes|
  {
    forall j | i < j < |notes| :: notes[j].voice != notes[i].voice
  }

  ghost predicate Safe(st: State) {
    && Ready(st)
    && Lasting(st.notes)
    && Disjoint(st.notes)
    && Clocked(st)
    && (st.ctx.lastNote >= 0 ==> LastOfVoice(st.notes, st.ctx.lastNote))
  }

  /** A tie reaches the last note of its voice and no other: any later one would end after it. */
  lemma {:induction false} TieExtendsLast(st: State, midi: int)
    requires Safe(st)
    ensures var tied := TiedTo(st.notes, st.current, midi, st.voices[st.current].tick);
      tied.Some? ==> LastOfVoice(st.notes, tied.value)
  {
    var tied := TiedTo(st.notes, st.current, midi, st.voices[st.current].tick);
    if tied.Some? {
      forall j | tied.value < j < |st.notes|
        ensures st.notes[j].voice != st.notes[tied.value].voice
      {
        var a, b := st.notes[tied.value], st.notes[j];
        assert b.voice == a.voice ==> a.End() <= b.tick;
        assert b.duration >= 1 && b.End() <= st.voices[b.voice].tick;
      }
    }
  }

  /** The last note of a voice may be given any end its clock allows. */
  lemma {:induction false} LastNoteResized(notes: seq<Note>, i: int, duration: int)
    requires 0 <= i < |notes| && Lasting(notes) && Disjoint(notes) && LastOfVoice(notes, i) && duration >= 1
    ensures var r := notes[i := notes[i].(duration := duration)];
      Lasting(r) && Disjoint(r) && LastOfVoice(r, i)
  {
  }

  lemma {:induction false} SafeNote(st: State, pitch: Pitch, length: Length)
    requires Safe(st) && 0 <= pitch.letter < 7
    ensures Safe(StepNote(st, pitch, length))
  {
    var v := Remember(st.voices[st.current], pitch);
    var midi := Midi(v, pitch);
    var d := Adjusted(Or(ReadDuration(length, UnitTicks(v)), UnitTicks(v)), st.ctx);
    var r := StepNote(st, pitch, length);
    if st.ctx.pendingTie && TiedTo(st.notes, st.current, midi, v.tick).Some? {
      var i := TiedTo(st.notes, st.current, midi, v.tick).value;
      TieExtendsLast(st, midi);
      LastNoteResized(st.notes, i, st.notes[i].duration + d);
      ClockedTie(st, r, i, d);
    } else {
      var note := Note(v.tick, d, st.current, midi, v.velocity);
      SafeAppend(st, note);
      ClockedAppend(st, r, note);
    }
  }

  lemma {:induction false} ClockedTie(st: State, r: State, i: int, d: int)
    requires Safe(st) && d >= 1 && 0 <= i < |st.notes| && st.notes[i].voice == st.current
    requires st.notes[i].End() == st.voices[st.current].tick
    requires r.notes == st.notes[i := st.notes[i].(duration := st.notes[i].duration + d)]
    requires r.voices.Keys == st.voices.Keys
      && forall n | n in st.voices && n != st.current :: r.voices[n] == st.voices[n]
    requires r.voices[st.current].tick == st.voices[st.current].tick + d
    ensures Clocked(r)
  {
  }

  lemma {:induction false} SafeAppend(st: State, note: Note)
    requires Safe(st) && note.voice == st.current && note.duration >= 1 && note.tick == st.voices[st.current].tick
    ensures var notes := st.notes + [note]; Lasting(notes) && Disjoint(notes) && LastOfVoice(notes, |st.notes|)
  {
    var notes := st.notes + [note];
    forall i, j | 0 <= i < j < |notes| && notes[i].voice == notes[j].voice
      ensures notes[i].End() <= notes[j].tick
    {
      if j == |st.notes| {
        assert notes[i] == st.notes[i];
      }
    }
  }

  lemma {:induction false} ClockedAppend(st: State, r: State, note: Note)
    requires Safe(st) && note.voice == st.current && note.duration >= 1 && note.tick == st.voices[st.current].tick
    requires r.notes == st.notes + [note]
    requires r.voices.Keys == st.voices.Keys
      && forall n | n in st.voices && n != st.current :: r.voices[n] == st.voices[n]
    requires r.voices[st.current].tick == note.End()
    ensures Clocked(r)
  {
  }

  /** A broken mark moves its note's end and its voice's clock by the same amount. */
  lemma {:induction false} SafeBroken(st: State, right: bool, count: int)
    requires Safe(st) && count >= 1
    ensures Safe(StepBroken(st, right, count))
  {
    if st.ctx.lastNote >= 0 {
      var i := st.ctx.lastNote;
      var r := StepBroken(st, right, count);
      var now := r.notes[i].duration;
      LastNoteResized(st.notes, i, now);
      ClockedBroken(st, r, i, now);
    }
  }

  lemma {:induction false} ClockedBroken(st: State, r: State, i: int, now: int)
    requires Safe(st) && 0 <= i < |st.notes| && LastOfVoice(st.notes, i) && now >= 1
    requires r.notes == st.notes[i := st.notes[i].(duration := now)]
    requires var owner := st.notes[i].voice;
      r.voices == st.voices[owner := st.voices[owner].(tick := st.voices[owner].tick + now - st.notes[i].duration)]
    ensures Clocked(r)
  {
    var owner := st.notes[i].voice;
    forall j | 0 <= j < |st.notes|
      ensures r.notes[j].End() <= r.voices[r.notes[j].voice].tick
    {
      if j < i && st.notes[j].voice == owner {
        assert st.notes[j].End() <= st.notes[i].tick < r.notes[i].End() <= r.voices[owner].tick;
      }
    }
  }

  lemma {:induction false} SafeRest(st: State, wholeBar: bool, length: Length)
    requires Safe(st)
    ensures Safe(StepRest(st, wholeBar, length))
  {
  }

  predicate ChordFree(t: Token) {
    !t.ChordToken?
  }

  /** Every step of a tune without chords keeps the timeline safe. */
  lemma {:induction false} StepIsSafe(st: State, t: Token)
    requires Safe(st) && Proper(t) && ChordFree(t)
    ensures Safe(Step(st, t))
  {
    StepIsReady(st, t);
    match t
    case NoteToken(pitch, length) => SafeNote(st, pitch, length);
    case RestToken(wholeBar, length) => SafeRest(st, wholeBar, length);
    case BrokenToken(right, count) => SafeBroken(st, right, count);
    case _ =>
  }

  /** At every point of a tune without chords, whatever its ties, tuplets, broken marks, rests
      and changes of voice, key, unit and meter. */
  lemma {:induction false} RunIsSafe(st: State, tokens: seq<Token>)
    requires Safe(st) && forall t | t in tokens :: Proper(t) && ChordFree(t)
    ensures Safe(Run(st, tokens))
  {
    if tokens != [] {
      RunIsSafe(st, tokens[..|tokens| - 1]);
      StepIsSafe(Run(st, tokens[..|tokens| - 1]), tokens[|tokens| - 1]);
    }
  }

  lemma {:induction false} StartIsSafe()
    ensures Safe(START)
  {
  }

  // -- a chord, a mark, a note

  const WHOLE: Length := Length(None, [])
  const CHORD: Token := ChordToken([(Pitch(0, 5, None), WHOLE), (Pitch(2, 5, None), WHOLE)], WHOLE)
  const MARK: Token := BrokenToken(false, 1)
  const NEXT: Token := NoteToken(Pitch(4, 5, None), WHOLE)

  /** Two notes of the first voice, from the start to its clock. */
  ghost predicate TwoNotes(st: State) {
    && Ready(st) && st.current == 1 && 1 in st.voices && st.voices[1].tick == 240 && st.ctx.lastNote == 1
    && |st.notes| == 2 && forall i | 0 <= i < 2 ::
         st.notes[i].voice == 1 && st.notes[i].tick == 0 && st.notes[i].duration == 240
  }

  lemma {:induction false} AfterChord()
    ensures TwoNotes(Step(START, CHORD)) && !Step(START, CHORD).ctx.pendingTie
  {
    assert UnitTicks(NEW_VOICE) == 240;
    var (pitches, v) := ChordPitches(NEW_VOICE, CHORD.members);
    var added := ChordNotes(0, 240, 1, 100, pitches);
    assert added[0] == Note(0, 240, 1, pitches[0], 100) && added[1] == Note(0, 240, 1, pitches[1], 100);
    assert Step(START, CHORD).notes == [] + added;
    StepIsReady(START, CHORD);
  }

  /** The mark halves the last note, and the clock goes back to where that ends. */
  lemma {:induction false} AfterMark(st: State)
    requires TwoNotes(st) && !st.ctx.pendingTie
    ensures var r := Step(st, MARK);
      && Ready(r) && r.current == 1 && 1 in r.voices && r.voices[1].tick == 120 && !r.ctx.pendingTie
      && |r.notes| == 2 && r.notes[0] == st.notes[0]
  {
    assert PowerOfTwo(1) == 2;
    StepIsReady(st, MARK);
  }

  lemma {:induction false} AfterNext(st: State)
    requires Ready(st) && st.current == 1 && 1 in st.voices && !st.ctx.pendingTie
    ensures var r := Step(st, NEXT);
      |r.notes| == |st.notes| + 1 && r.notes[..|st.notes|] == st.notes
      && r.notes[|st.notes|].tick == st.voices[1].tick && r.notes[|st.notes|].voice == 1
  {
  }

  lemma {:induction false} RunOneMore(st: State, tokens: seq<Token>, t: Token)
    requires Ready(st) && (forall u | u in tokens :: Proper(u)) && Proper(t)
    ensures Run(st, tokens + [t]) == Step(Run(st, tokens), t)
  {
    assert (tokens + [t])[..|tokens|] == tokens;
  }

  lemma {:induction false} AfterOne()
    ensures Ready(Run(START, [CHORD])) && TwoNotes(Run(START, [CHORD])) && !Run(START, [CHORD]).ctx.pendingTie
  {
    AfterChord();
    RunOneMore(START, [], CHORD);
    assert [] + [CHORD] == [CHORD];
  }

  lemma {:induction false} AfterTwo()
    ensures var r := Run(START, [CHORD, MARK]);
      && Ready(r) && r.current == 1 && 1 in r.voices && r.voices[1].tick == 120 && !r.ctx.pendingTie
      && |r.notes| == 2 && r.notes[0].voice == 1 && r.notes[0].tick == 0 && r.notes[0].duration == 240
  {
    AfterOne();
    AfterMark(Run(START, [CHORD]));
    RunOneMore(START, [CHORD], MARK);
    assert [CHORD] + [MARK] == [CHORD, MARK];
  }

  /** The last note of a chord that `<` follows gives back time its other notes still sound in:
      in [CE]<G the G starts before the C has ended. */
  lemma {:induction false} ChordThenBroken()
    ensures var tokens := [CHORD, MARK, NEXT];
      && (forall t | t in tokens :: Proper(t))
      && var notes := Run(START, tokens).notes;
         |notes| == 3 && notes[0].voice == notes[2].voice && notes[0].tick < notes[2].tick < notes[0].End()
  {
    AfterTwo();
    AfterNext(Run(START, [CHORD, MARK]));
    RunOneMore(START, [CHORD, MARK], NEXT);
    assert [CHORD, MARK] + [NEXT] == [CHORD, MARK, NEXT];
  }
}
