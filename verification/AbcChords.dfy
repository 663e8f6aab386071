/** What holds with chords as well: their notes may share a tick, and a `<` mark is the one thing
    that can set a clock back before a note has ended. */
module AbcChords {
  import opened AbcTimeline
  import opened AbcSafety

  /** The notes of one voice are apart, or begin together as those of a chord do. */
  ghost predicate Apart(notes: seq<Note>) {
    forall i, j | 0 <= i < j < |notes| && notes[i].voice == notes[j].voice ::
      notes[i].End() <= notes[j].tick || notes[i].tick == notes[j].tick
  }

  /** Later notes of this one's voice begin with it. */
  ghost predicate LastButChord(notes: seq<Note>, i: int)
    requires 0 <= i < |notes|
  {
    forall j | i < j < |notes| && notes[j].voice == notes[i].voice :: notes[j].tick == notes[i].tick
  }

  ghost predicate Sane(st: State) {
    && Ready(st) && Lasting(st.notes) && Apart(st.notes) && Clocked(st)
    && (st.ctx.lastNote >= 0 ==> LastButChord(st.notes, st.ctx.lastNote))
  }

  /** What a mark makes of the note it reaches back to. */
  function Remade(was: int, right: bool, count: nat): int {
    AtLeastOne(if right then Longer(was, count) else Shorter(was, count))
  }

  /** The clock that a mark on the last note sets. */
  function Reset(st: State, right: bool, count: nat): int
    requires Ready(st) && st.ctx.lastNote >= 0
  {
    var last := st.notes[st.ctx.lastNote];
    st.voices[last.voice].tick + Remade(last.duration, right, count) - last.duration
  }

  /** The notes of the last note's chord end by that. */
  ghost predicate NoneOverhangs(st: State, right: bool, count: nat)
    requires Ready(st)
  {
    st.ctx.lastNote >= 0 ==>
      var i := st.ctx.lastNote;
      forall j | 0 <= j < |st.notes| && j != i && st.notes[j].voice == st.notes[i].voice
        && st.notes[j].tick == st.notes[i].tick :: st.notes[j].End() <= Reset(st, right, count)
  }

  /** No other note of the voice can end after it. */
  lemma {:induction false} OthersEndBefore(st: State, right: bool, count: nat, j: int)
    requires Sane(st) && st.ctx.lastNote >= 0 && 0 <= j < |st.notes|
    requires st.notes[j].voice == st.notes[st.ctx.lastNote].voice
    requires st.notes[j].tick != st.notes[st.ctx.lastNote].tick
    ensures st.notes[j].End() <= Reset(st, right, count)
  {
    var i := st.ctx.lastNote;
    assert st.notes[i].End() <= st.voices[st.notes[i].voice].tick;
    if j < i {
      assert st.notes[j].End() <= st.notes[i].tick;
    }
  }

  lemma {:induction false} LongerIsLonger(was: int, count: nat)
    requires was >= 1
    ensures Longer(was, count) >= was
  {
    var half := PowerOfTwo(count);
    AtLeastAsLong(was, half);
  }

  lemma {:induction false} AtLeastAsLong(was: int, half: int)
    requires was >= 1 && half >= 1
    ensures Quotient(was * (2 * half - 1), half) >= was
  {
    Spread(was, half);
    QuotientAtLeast(was * (2 * half - 1), half, was);
  }

  lemma {:induction false} Spread(was: int, half: int)
    requires was >= 1 && half >= 1
    ensures was * (2 * half - 1) >= was * half >= 0
  {
    assert was * (2 * half - 1) == was * half + was * (half - 1);
    NotNegative(was, half);
    NotNegative(was, half - 1);
  }

  lemma {:induction false} NotNegative(a: int, b: int)
    requires a >= 0 && b >= 0
    ensures a * b >= 0
  {
  }

  lemma {:induction false} QuotientAtLeast(n: int, d: int, q: int)
    requires d > 0 && n >= q * d >= 0 && q >= 0
    ensures Quotient(n, d) >= q
  {
    var r := n / d;
    assert n == d * r + n % d;
    assert d * (r - q) > -d;
    if r - q <= -1 {
      Falls(d, r - q);
    }
  }

  lemma {:induction false} Falls(d: int, k: int)
    requires d > 0 && k <= -1
    ensures d * k <= -d
  {
  }

  /** A `>` mark never sets a clock back. */
  lemma {:induction false} RightNeverOverhangs(st: State, count: nat)
    requires Sane(st)
    ensures NoneOverhangs(st, true, count)
  {
    if st.ctx.lastNote >= 0 {
      LongerIsLonger(st.notes[st.ctx.lastNote].duration, count);
    }
  }

  /** A note that ends with the clock is followed in its voice by none but its chord. */
  lemma {:induction false} EndsWithClock(st: State, i: int)
    requires Sane(st) && 0 <= i < |st.notes| && st.notes[i].End() == st.voices[st.notes[i].voice].tick
    ensures LastButChord(st.notes, i)
  {
    forall j | i < j < |st.notes| && st.notes[j].voice == st.notes[i].voice
      ensures st.notes[j].tick == st.notes[i].tick
    {
      assert st.notes[j].End() <= st.voices[st.notes[j].voice].tick;
    }
  }

  lemma {:induction false} Resized(notes: seq<Note>, i: int, duration: int)
    requires 0 <= i < |notes| && Lasting(notes) && Apart(notes) && LastButChord(notes, i) && duration >= 1
    ensures var r := notes[i := notes[i].(duration := duration)];
      Lasting(r) && Apart(r) && LastButChord(r, i)
  {
  }

  /** New notes at the clock, all beginning together. */
  lemma {:induction false} Appended(st: State, more: seq<Note>, length: int)
    requires Sane(st) && length >= 1
    requires forall k | 0 <= k < |more| ::
      more[k].voice == st.current && more[k].tick == st.voices[st.current].tick && more[k].duration == length
    ensures var notes := st.notes + more;
      Lasting(notes) && Apart(notes) && forall k | |st.notes| <= k < |notes| :: LastButChord(notes, k)
  {
    var notes, n := st.notes + more, |st.notes|;
    forall i, j | 0 <= i < j < |notes| && notes[i].voice == notes[j].voice
      ensures notes[i].End() <= notes[j].tick || notes[i].tick == notes[j].tick
    {
      if i < n <= j {
        assert notes[j] == more[j - n] && notes[i] == st.notes[i];
      } else if n <= i {
        assert notes[j] == more[j - n] && notes[i] == more[i - n];
      }
    }
    forall k, j | n <= k < j < |notes|
      ensures notes[j].tick == notes[k].tick
    {
      assert notes[j] == more[j - n] && notes[k] == more[k - n];
    }
  }

  lemma {:induction false} SaneNote(st: State, pitch: Pitch, length: Length)
    requires Sane(st) && 0 <= pitch.letter < 7
    ensures Sane(StepNote(st, pitch, length))
  {
    var v := Remember(st.voices[st.current], pitch);
    var midi := Midi(v, pitch);
    var d := Adjusted(Or(ReadDuration(length, UnitTicks(v)), UnitTicks(v)), st.ctx);
    StepIsReady(st, NoteToken(pitch, length));
    if st.ctx.pendingTie && TiedTo(st.notes, st.current, midi, v.tick).Some? {
      SaneTie(st, StepNote(st, pitch, length), TiedTo(st.notes, st.current, midi, v.tick).value, d);
    } else {
      SaneAdd(st, StepNote(st, pitch, length), Note(v.tick, d, st.current, midi, v.velocity));
    }
  }

  /** The current voice's clock is on by so much, and no other's has moved. */
  ghost predicate ClockOn(st: State, r: State, d: int)
    requires st.current in st.voices
  {
    && r.voices.Keys == st.voices.Keys && (forall n | n in st.voices && n != st.current :: r.voices[n] == st.voices[n])
    && r.voices[st.current].tick == st.voices[st.current].tick + d
  }

  lemma {:induction false} SaneTie(st: State, r: State, i: int, d: int)
    requires Sane(st) && Ready(r) && d >= 1 && ClockOn(st, r, d)
    requires 0 <= i < |st.notes| && st.notes[i].voice == st.current && st.notes[i].End() == st.voices[st.current].tick
    requires r.notes == st.notes[i := st.notes[i].(duration := st.notes[i].duration + d)] && r.ctx.lastNote == i
    ensures Sane(r)
  {
    EndsWithClock(st, i);
    Resized(st.notes, i, st.notes[i].duration + d);
    ClockedAfter(st, r, d);
  }

  lemma {:induction false} SaneAdd(st: State, r: State, note: Note)
    requires Sane(st) && Ready(r) && note.duration >= 1 && ClockOn(st, r, note.duration)
    requires note.voice == st.current && note.tick == st.voices[st.current].tick
    requires r.notes == st.notes + [note] && r.ctx.lastNote == |st.notes|
    ensures Sane(r)
  {
    Appended(st, [note], note.duration);
    ClockedAfter(st, r, note.duration);
  }

  /** The clock goes on by as much as a note at it lasts, or one that ends at it grows. */
  lemma {:induction false} ClockedAfter(st: State, r: State, d: int)
    requires Ready(st) && Clocked(st) && d >= 1
    requires ClockOn(st, r, d)
    requires |st.notes| <= |r.notes|
    requires forall i | 0 <= i < |st.notes| ::
      && r.notes[i].voice == st.notes[i].voice
      && (r.notes[i].End() == st.notes[i].End()
          || (r.notes[i].voice == st.current && r.notes[i].End() == st.voices[st.current].tick + d))
    requires forall i | |st.notes| <= i < |r.notes| ::
      r.notes[i].voice == st.current && r.notes[i].End() == st.voices[st.current].tick + d
    ensures Clocked(r)
  {
  }

  lemma {:induction false} SaneChord(st: State, members: seq<(Pitch, Length)>, outer: Length)
    requires Sane(st) && forall i | 0 <= i < |members| :: 0 <= members[i].0.letter < 7
    ensures Sane(StepChord(st, members, outer))
  {
    var (pitches, v) := ChordPitches(st.voices[st.current], members);
    var unit := UnitTicks(v);
    var memberTicks := if members == [] then 0 else Or(ReadDuration(members[0].1, unit), unit);
    var length := Adjusted(Or(ReadDuration(outer, unit), memberTicks), st.ctx);
    var more := ChordNotes(v.tick, length, st.current, v.velocity, pitches);
    var r := StepChord(st, members, outer);
    StepIsReady(st, ChordToken(members, outer));
    Appended(st, more, length);
    assert r.notes == st.notes + more;
    ClockedAfter(st, r, length);
    if members == [] {
      assert r.notes == st.notes;
    }
  }

  /** A mark keeps it all exactly when the other notes of the chord end by the clock it sets. */
  lemma {:induction false} SaneBroken(st: State, right: bool, count: int)
    requires Sane(st) && count >= 1
    ensures Sane(StepBroken(st, right, count)) <==> NoneOverhangs(st, right, count)
    ensures Clocked(StepBroken(st, right, count)) <==> NoneOverhangs(st, right, count)
  {
    var r := StepBroken(st, right, count);
    StepIsReady(st, BrokenToken(right, count));
    if st.ctx.lastNote >= 0 {
      var i := st.ctx.lastNote;
      var now := Remade(st.notes[i].duration, right, count);
      Resized(st.notes, i, now);
      ClockedMark(st, r, i, now);
      forall j | 0 <= j < |st.notes| && st.notes[j].voice == st.notes[i].voice && st.notes[j].tick != st.notes[i].tick
        ensures st.notes[j].End() <= Reset(st, right, count)
      {
        OthersEndBefore(st, right, count, j);
      }
    }
  }

  lemma {:induction false} ClockedMark(st: State, r: State, i: int, now: int)
    requires Ready(st) && Lasting(st.notes) && Clocked(st) && 0 <= i < |st.notes| && now >= 1
    requires r.notes == st.notes[i := st.notes[i].(duration := now)]
    requires var owner := st.notes[i].voice;
      r.voices == st.voices[owner := st.voices[owner].(tick := st.voices[owner].tick + now - st.notes[i].duration)]
    ensures Clocked(r) <==>
      var owner := st.notes[i].voice;
      var clock := st.voices[owner].tick + now - st.notes[i].duration;
      forall j | 0 <= j < |st.notes| && j != i && st.notes[j].voice == owner :: st.notes[j].End() <= clock
  {
    var owner := st.notes[i].voice;
    var clock := st.voices[owner].tick + now - st.notes[i].duration;
    assert st.notes[i].End() <= st.voices[owner].tick;
    if Clocked(r) {
      forall j | 0 <= j < |st.notes| && j != i && st.notes[j].voice == owner
        ensures st.notes[j].End() <= clock
      {
        assert r.notes[j] == st.notes[j] && r.notes[j].End() <= r.voices[r.notes[j].voice].tick;
      }
    }
  }

  /** Whether a token leaves the timeline sane: every one does but a mark that sets its voice's
      clock back before a note of it has ended. */
  ghost predicate Fits(st: State, t: Token)
    requires Ready(st) && Proper(t)
  {
    t.BrokenToken? && !t.right ==> NoneOverhangs(st, t.right, t.count)
  }

  lemma {:induction false} StepIsSane(st: State, t: Token)
    requires Sane(st) && Proper(t)
    ensures Sane(Step(st, t)) <==> Fits(st, t)
  {
    StepIsReady(st, t);
    match t
    case NoteToken(pitch, length) => SaneNote(st, pitch, length);
    case ChordToken(members, outer) => SaneChord(st, members, outer);
    case BrokenToken(right, count) =>
      SaneBroken(st, right, count);
      if right {
        RightNeverOverhangs(st, count);
      }
    case _ =>
  }

  /** At every point of a run. */
  ghost predicate SaneAlong(st: State, tokens: seq<Token>)
    requires Ready(st) && forall t | t in tokens :: Proper(t)
  {
    Sane(Run(st, tokens)) && (tokens != [] ==> SaneAlong(st, tokens[..|tokens| - 1]))
  }

  ghost predicate FitsAlong(st: State, tokens: seq<Token>)
    requires Ready(st) && forall t | t in tokens :: Proper(t)
  {
    tokens != [] ==>
      var n := |tokens| - 1;
      FitsAlong(st, tokens[..n]) && Fits(Run(st, tokens[..n]), tokens[n])
  }

  /** For every tune, chords and all: the notes of each voice are apart or begin together, and the
      clock is past them, at every point, exactly when no `<` mark sets a clock back too far. */
  lemma {:induction false} RunIsSane(st: State, tokens: seq<Token>)
    requires Sane(st) && forall t | t in tokens :: Proper(t)
    ensures SaneAlong(st, tokens) <==> FitsAlong(st, tokens)
  {
    if tokens != [] {
      var n := |tokens| - 1;
      RunIsSane(st, tokens[..n]);
      if FitsAlong(st, tokens[..n]) {
        StepIsSane(Run(st, tokens[..n]), tokens[n]);
      }
    }
  }

  lemma {:induction false} StartIsSane()
    ensures Sane(START)
  {
  }

  /** And when one does, the next note of the voice does begin before another has ended. */
  lemma {:induction false} OverhangOverlaps(st: State, count: int, pitch: Pitch, length: Length)
    requires Sane(st) && count >= 1 && 0 <= pitch.letter < 7
    requires !NoneOverhangs(st, false, count) && st.current == st.notes[st.ctx.lastNote].voice && !st.ctx.pendingTie
    ensures Ready(StepBroken(st, false, count))
    ensures !Apart(StepNote(StepBroken(st, false, count), pitch, length).notes)
  {
    var marked := StepBroken(st, false, count);
    StepIsReady(st, BrokenToken(false, count));
    var i := st.ctx.lastNote;
    var clock := marked.voices[st.current].tick;
    var j :| 0 <= j < |st.notes| && j != i && st.notes[j].voice == st.current && st.notes[j].End() > clock;
    BeginsBefore(st, i, j, clock);
    var after := StepNote(marked, pitch, length).notes;
    var n := |st.notes|;
    assert |after| == n + 1 && after[j] == st.notes[j] && after[n].tick == clock && after[n].voice == st.current;
    assert after[j].End() > after[n].tick && after[j].tick != after[n].tick;
  }

  lemma {:induction false} BeginsBefore(st: State, i: int, j: int, clock: int)
    requires Sane(st) && 0 <= i < |st.notes| && 0 <= j < |st.notes| && i != j && st.notes[i].voice == st.notes[j].voice
    requires LastButChord(st.notes, i) && clock > st.notes[i].tick
    ensures st.notes[j].tick < clock
  {
    if j < i {
      assert st.notes[j].End() <= st.notes[i].tick || st.notes[j].tick == st.notes[i].tick;
    }
  }
}
