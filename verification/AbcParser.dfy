/** The parser's state as it is updated token by token, held to AbcTimeline. */
module AbcParser {
  import opened Wrappers
  import opened AbcTimeline
  import opened AbcSafety
  import opened AbcChords

  class Parser {
    var voices: map<int, Voice>
    var current: int
    var unitSet: bool
    var notes: seq<Note>
    var chips: seq<ChipSet>
    var warnings: seq<(int, int)>
    var ctx: Ctx

    function Here(): State
      reads this
    {
      State(voices, current, unitSet, notes, chips, warnings, ctx)
    }

    /** In voice 1, its key read. */
    constructor ()
      ensures Here() == START
    {
      voices, current, unitSet := map[1 := NEW_VOICE], 1, false;
      notes, chips, warnings, ctx := [], [], [], NEW_CTX;
    }

    /** voice(n): made on first use. */
    method TheVoice(n: int) returns (v: Voice)
      modifies this`voices
      ensures v == VoiceOf(old(voices), n) && voices == old(voices)[n := v]
    {
      if n in voices {
        assert voices[n := voices[n]] == voices;
        return voices[n];
      }
      v := NEW_VOICE;
      if 1 in voices {
        v := v.(unitNum := voices[1].unitNum, unitDen := voices[1].unitDen, keySharps := voices[1].keySharps);
      }
      voices := voices[n := v];
    }

    method Adjust(ticksIn: int) returns (ticks: int)
      requires ctx.tupletDen > 0
      modifies this`ctx
      ensures ticks == Adjusted(ticksIn, old(ctx)) && ctx == AfterAdjust(old(ctx))
    {
      ticks := ticksIn;
      if ctx.tupletLeft > 0 {
        ticks := Quotient(ticks * ctx.tupletNum, ctx.tupletDen);
        ctx := ctx.(tupletLeft := ctx.tupletLeft - 1);
      }
      if ctx.broken != 0 {
        var half := Half(if ctx.broken > 0 then ctx.broken else -ctx.broken);
        ticks := if ctx.broken > 0 then Quotient(ticks, half) else Quotient(ticks * (2 * half - 1), half);
        ctx := ctx.(broken := 0);
      }
      ticks := AtLeastOne(ticks);
    }

    /** readNote: the accidental recorded, the pitch that sounds. */
    method ReadNote(pitch: Pitch) returns (midi: int)
      requires current in voices && Sound(voices[current]) && 0 <= pitch.letter < 7
      modifies this`voices
      ensures var v := Remember(old(voices)[current], pitch);
        voices == old(voices)[current := v] && midi == Midi(v, pitch)
    {
      var v := voices[current];
      if pitch.alter.Some? {
        v := v.(accidentals := v.accidentals[pitch.letter := pitch.alter.value]);
      }
      voices := voices[current := v];
      var applied := KeyAlter(v.keySharps, pitch.letter);
      var held := v.accidentals[pitch.letter];
      if held != NO_ACCIDENTAL {
        applied := held;
      }
      midi := pitch.octave * 12 + SEMITONE[pitch.letter] + applied;
    }

    /** The last note a tie can reach, searched from the end. */
    method LastTied(midi: int, tick: int) returns (last: Option<int>)
      ensures last == TiedTo(notes, current, midi, tick)
    {
      var i := |notes|;
      assert notes[..i] == notes;
      while i > 0
        invariant 0 <= i <= |notes| && TiedTo(notes[..i], current, midi, tick) == TiedTo(notes, current, midi, tick)
      {
        i := i - 1;
        assert notes[..i + 1][..i] == notes[..i];
        if notes[i].voice == current && notes[i].midi == midi && notes[i].tick + notes[i].duration == tick {
          return Some(i);
        }
      }
      last := None;
    }

    /** A tied note lengthens the one before it, any other is added; it becomes the last note. */
    method AddNote(tied: bool, midi: int, tick: int, d: int, velocity: int)
      modifies this`notes, this`ctx
      ensures var to := if tied then TiedTo(old(notes), current, midi, tick) else None;
        if to.Some? then
          && notes == old(notes)[to.value := old(notes)[to.value].(duration := old(notes)[to.value].duration + d)]
          && ctx == old(ctx).(lastNote := to.value)
        else
          && notes == old(notes) + [Note(tick, d, current, midi, velocity)]
          && ctx == old(ctx).(lastNote := |old(notes)|)
    {
      var last: Option<int> := None;
      if tied {
        last := LastTied(midi, tick);
      }
      if last.Some? {
        notes := notes[last.value := notes[last.value].(duration := notes[last.value].duration + d)];
        ctx := ctx.(lastNote := last.value);
      } else {
        notes := notes + [Note(tick, d, current, midi, velocity)];
        ctx := ctx.(lastNote := |notes| - 1);
      }
    }

    method DoNote(pitch: Pitch, length: Length)
      requires Ready(Here()) && 0 <= pitch.letter < 7
      modifies this
      ensures Here() == StepNote(old(Here()), pitch, length)
    {
      var midi := ReadNote(pitch);
      var v := voices[current];
      var d := Adjust(Or(ReadDuration(length, UnitTicks(v)), UnitTicks(v)));
      AddNote(ctx.pendingTie, midi, v.tick, d, v.velocity);
      ctx := ctx.(pendingTie := false);
      voices := voices[current := v.(tick := v.tick + d)];
    }

    method DoRest(wholeBar: bool, length: Length)
      requires Ready(Here())
      modifies this
      ensures Here() == StepRest(old(Here()), wholeBar, length)
    {
      var v := voices[current];
      var base := if wholeBar then BarTicks(v) else UnitTicks(v);
      var ticks := Adjust(Or(ReadDuration(length, base), base));
      voices := voices[current := v.(tick := v.tick + ticks)];
    }

    /** The members of a chord, read one after the other. */
    method ReadMembers(members: seq<(Pitch, Length)>) returns (pitches: seq<int>)
      requires current in voices && Sound(voices[current])
        && forall i | 0 <= i < |members| :: 0 <= members[i].0.letter < 7
      modifies this`voices
      ensures var (read, v) := ChordPitches(old(voices)[current], members);
        pitches == read && voices == old(voices)[current := v]
    {
      pitches := [];
      ghost var rest := members;
      assert voices == voices[current := voices[current]];
      for i := 0 to |members|
        invariant current in voices && Sound(voices[current]) && rest == members[i..]
        invariant voices == old(voices)[current := voices[current]]
        invariant var (all, v) := ChordPitches(old(voices)[current], members);
          var (more, w) := ChordPitches(voices[current], rest);
          all == pitches + more && v == w
      {
        assert rest[0] == members[i] && rest[1..] == members[i + 1..];
        var midi := ReadNote(members[i].0);
        ghost var more := ChordPitches(voices[current], rest[1..]).0;
        assert pitches + ([midi] + more) == pitches + [midi] + more;
        pitches := pitches + [midi];
        rest := rest[1..];
      }
    }

    method AddChord(tick: int, length: int, velocity: int, pitches: seq<int>)
      modifies this`notes
      ensures notes == old(notes) + ChordNotes(tick, length, current, velocity, pitches)
    {
      for m := 0 to |pitches|
        invariant notes == old(notes) + ChordNotes(tick, length, current, velocity, pitches[..m])
      {
        assert pitches[..m + 1][..m] == pitches[..m];
        notes := notes + [Note(tick, length, current, pitches[m], velocity)];
      }
      assert pitches[..|pitches|] == pitches;
    }

    method DoChord(members: seq<(Pitch, Length)>, outer: Length)
      requires Ready(Here()) && forall i | 0 <= i < |members| :: 0 <= members[i].0.letter < 7
      modifies this
      ensures Here() == StepChord(old(Here()), members, outer)
    {
      var startTick := voices[current].tick;
      var pitches := ReadMembers(members);
      var v := voices[current];
      var unit := UnitTicks(v);
      var memberTicks := if members == [] then 0 else Or(ReadDuration(members[0].1, unit), unit);
      var length := Adjust(Or(ReadDuration(outer, unit), memberTicks));
      AddChord(startTick, length, v.velocity, pitches);
      if members != [] {
        ctx := ctx.(lastNote := |notes| - 1);
      }
      voices := voices[current := v.(tick := startTick + length)];
    }

    method DoBroken(right: bool, count: int)
      requires Ready(Here()) && count >= 1
      modifies this
      ensures Here() == StepBroken(old(Here()), right, count)
    {
      if ctx.lastNote >= 0 {
        var half := Half(count);
        var at := ctx.lastNote;
        var was := notes[at].duration;
        var now := if right then Quotient(was * (2 * half - 1), half) else Quotient(was, half);
        notes := notes[at := notes[at].(duration := AtLeastOne(now))];
        var owner := notes[at].voice;
        voices := voices[owner := voices[owner].(tick := voices[owner].tick + notes[at].duration - was)];
      }
      ctx := ctx.(broken := if right then count else -count);
    }

    method DoTuplet(p: int, q: Option<nat>, r: Option<nat>)
      requires Ready(Here()) && p >= 1
      modifies this
      ensures Here() == StepTuplet(old(Here()), p, q, r)
    {
      var v := voices[current];
      var compound := v.meterDen == 8 && v.meterNum % 3 == 0;
      ctx := ctx.(tupletLeft := if r.Some? then r.value else p,
                  tupletNum := if q.Some? then q.value else TupletDefault(p, compound),
                  tupletDen := p);
    }

    method DoBar()
      requires Ready(Here())
      modifies this
      ensures Here() == StepBar(old(Here()))
    {
      var v := voices[current];
      var bar := BarTicks(v);
      if bar > 0 && v.tick % bar != 0 {
        warnings := warnings + [(current, v.tick)];
      }
      voices := voices[current := v.(accidentals := CLEAR)];
    }

    /** An inline or header field. */
    method ApplyField(t: Token)
      requires Ready(Here()) && Proper(t) && (t.VoiceToken? || t.KeyToken? || t.UnitToken? || t.MeterToken?)
      modifies this
      ensures Here() == Step(old(Here()), t)
    {
      match t
      case VoiceToken(n) =>
        current := n;
        var v := TheVoice(current);
        voices := voices[current := v.(accidentals := CLEAR)];
      case KeyToken(sharps) =>
        var v := TheVoice(current);
        voices := voices[current := v.(keySharps := sharps, accidentals := CLEAR)];
      case UnitToken(num, den) =>
        var v := TheVoice(current);
        voices := voices[current := v.(unitNum := num, unitDen := den)];
        unitSet := true;
      case MeterToken(num, den) =>
        var v := TheVoice(current);
        v := v.(meterNum := num, meterDen := den);
        if !unitSet {
          v := v.(unitNum := 1, unitDen := if 4 * num < 3 * den then 16 else 8);
        }
        voices := voices[current := v];
    }

    method DoToken(t: Token)
      requires Ready(Here()) && Proper(t)
      modifies this
      ensures Here() == Step(old(Here()), t)
    {
      match t
      case NoteToken(pitch, length) => DoNote(pitch, length);
      case RestToken(wholeBar, length) => DoRest(wholeBar, length);
      case ChordToken(members, outer) => DoChord(members, outer);
      case TieToken => ctx := ctx.(pendingTie := true);
      case TupletToken(p, q, r) => DoTuplet(p, q, r);
      case BrokenToken(right, count) => DoBroken(right, count);
      case BarToken => DoBar();
      case ChipToken(n, param, value) =>
        var v := TheVoice(n);
        chips := chips + [ChipSet(v.tick, n, param, value)];
      case LineToken => ctx := NEW_CTX;
      case _ => ApplyField(t);
    }
  }

  /** half: 2, doubled for each mark after the first. */
  method Half(count: int) returns (half: int)
    requires count >= 1
    ensures half == PowerOfTwo(count)
  {
    half := 2;
    for k := 1 to count
      invariant half == PowerOfTwo(k)
    {
      half := half * 2;
    }
  }

  /** The parser run over a tune's tokens: without chords its notes come out safe, and with them
      sane, unless a mark sets a clock back too far. */
  method Parse(tokens: seq<Token>) returns (tune: State)
    requires forall t | t in tokens :: Proper(t)
    ensures Ready(START) && tune == Run(START, tokens)
    ensures (forall t | t in tokens :: ChordFree(t)) ==> Safe(tune)
    ensures FitsAlong(START, tokens) ==> Sane(tune)
  {
    StartIsSafe();
    var parser := new Parser();
    for i := 0 to |tokens|
      invariant Ready(parser.Here()) && parser.Here() == Run(START, tokens[..i])
    {
      assert tokens[..i + 1][..i] == tokens[..i];
      StepIsReady(parser.Here(), tokens[i]);
      parser.DoToken(tokens[i]);
    }
    assert tokens[..|tokens|] == tokens;
    tune := parser.Here();
    if forall t | t in tokens :: ChordFree(t) {
      RunIsSafe(START, tokens);
    }
    StartIsSane();
    RunIsSane(START, tokens);
  }
}
