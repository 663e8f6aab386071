/** The timeline parseABC builds: voice clocks, ties, tuplets and broken rhythm (sections 4.4,
    4.11 and 4.13 of the ABC standard 2.1), over tokens. */
module AbcTimeline {
  import opened Wrappers

  const TICKS_PER_WHOLE: int := 1920
  const NO_ACCIDENTAL: int := 99

  /** Swift's division: towards zero. */
  function Quotient(a: int, b: int): int
    requires b > 0
  {
    if a >= 0 then a / b else -((-a) / b)
  }

  function AtLeastOne(n: int): (r: int)
    ensures r >= 1
  {
    if n < 1 then 1 else n
  }

  // -- the tune

  datatype Note = Note(tick: int, duration: int, voice: int, midi: int, velocity: int) {
    function End(): int {
      tick + duration
    }
  }

  datatype ChipSet = ChipSet(tick: int, voice: int, param: int, value: int)

  datatype Voice = Voice(tick: int, unitNum: int, unitDen: int, meterNum: int, meterDen: int, keySharps: int,
                         velocity: int, accidentals: seq<int>)

  const CLEAR: seq<int> := [99, 99, 99, 99, 99, 99, 99]

  const NEW_VOICE := Voice(0, 1, 8, 4, 4, 0, 100, CLEAR)

  /** What a music line carries from one note to the next. */
  datatype Ctx = Ctx(tupletLeft: int, tupletNum: int, tupletDen: int, broken: int, lastNote: int, pendingTie: bool)

  const NEW_CTX := Ctx(0, 1, 1, 0, -1, false)

  datatype State = State(voices: map<int, Voice>, current: int, unitSet: bool, notes: seq<Note>, chips: seq<ChipSet>,
                         warnings: seq<(int, int)>, ctx: Ctx)

  // -- tokens

  /** The length after a note: a multiplier, and a divisor for each slash that has one. */
  datatype Length = Length(mul: Option<nat>, slashes: seq<Option<nat>>)

  datatype Pitch = Pitch(letter: int, octave: int, alter: Option<int>)

  datatype Token =
    | NoteToken(pitch: Pitch, length: Length)
    | RestToken(wholeBar: bool, length: Length)
    | ChordToken(members: seq<(Pitch, Length)>, outer: Length)
    | TieToken
    | TupletToken(p: int, q: Option<nat>, r: Option<nat>)
    | BrokenToken(right: bool, count: int)      // > when right, < otherwise
    | BarToken
    | VoiceToken(voice: int)
    | KeyToken(sharps: int)
    | UnitToken(num: int, den: int)
    | MeterToken(num: int, den: int)
    | ChipToken(voice: int, param: int, value: int)
    | LineToken                                 // a new music line

  /** What the characters of a tune can give: letters C to B, marks of at least one character,
      fractions over positive numbers, and no tuplet of zero notes, which would divide by zero. */
  predicate Proper(t: Token) {
    match t
    case NoteToken(pitch, _) => 0 <= pitch.letter < 7
    case ChordToken(members, _) => forall i | 0 <= i < |members| :: 0 <= members[i].0.letter < 7
    case TupletToken(p, _, _) => p >= 1
    case BrokenToken(_, count) => count >= 1
    case UnitToken(_, den) => den >= 1
    case MeterToken(_, den) => den >= 1
    case _ => true
  }

  // -- durations

  function UnitTicks(v: Voice): int
    requires v.unitDen > 0
  {
    AtLeastOne(Quotient(TICKS_PER_WHOLE * v.unitNum, v.unitDen))
  }

  function BarTicks(v: Voice): int {
    Quotient(TICKS_PER_WHOLE * v.meterNum, AtLeastOne(v.meterDen))
  }

  /** Each slash divides by its number, at least 1, or halves. */
  function Divisor(slashes: seq<Option<nat>>): (d: int)
    ensures d >= 1
  {
    if slashes == [] then 1
    else
      var last := slashes[|slashes| - 1];
      PositiveProduct(Divisor(slashes[..|slashes| - 1]), if last.Some? then AtLeastOne(last.value) else 2);
      Divisor(slashes[..|slashes| - 1]) * if last.Some? then AtLeastOne(last.value) else 2
  }

  lemma {:induction false} PositiveProduct(a: int, b: int)
    requires a >= 1 && b >= 1
    ensures a * b >= 1
  {
  }

  function ReadDuration(length: Length, unit: int): (r: Option<int>)
    ensures r.Some? ==> r.value >= 1
  {
    if length.mul.None? && length.slashes == [] then None
    else Some(AtLeastOne(Quotient(unit * if length.mul.Some? then length.mul.value else 1, Divisor(length.slashes))))
  }

  function Or(r: Option<int>, default: int): int {
    if r.Some? then r.value else default
  }

  function PowerOfTwo(n: nat): (h: int)
    ensures h >= 1
  {
    if n == 0 then 1 else 2 * PowerOfTwo(n - 1)
  }

  /** The lengthened side of a broken pair, and the shortened one. */
  function Longer(ticks: int, count: nat): int {
    var half := PowerOfTwo(count);
    Quotient(ticks * (2 * half - 1), half)
  }

  function Shorter(ticks: int, count: nat): int {
    Quotient(ticks, PowerOfTwo(count))
  }

  function Adjusted(ticks: int, ctx: Ctx): (r: int)
    requires ctx.tupletDen > 0
    ensures r >= 1
  {
    var ticks := if ctx.tupletLeft > 0 then Quotient(ticks * ctx.tupletNum, ctx.tupletDen) else ticks;
    var ticks := if ctx.broken > 0 then Shorter(ticks, ctx.broken)
                 else if ctx.broken < 0 then Longer(ticks, -ctx.broken)
                 else ticks;
    AtLeastOne(ticks)
  }

  function AfterAdjust(ctx: Ctx): Ctx {
    ctx.(tupletLeft := if ctx.tupletLeft > 0 then ctx.tupletLeft - 1 else ctx.tupletLeft, broken := 0)
  }

  function TupletDefault(p: int, compound: bool): int {
    if p == 2 || p == 4 || p == 8 then 3
    else if p == 3 || p == 6 then 2
    else if p == 5 || p == 7 || p == 9 then (if compound then 3 else 2)
    else 2
  }

  // -- pitch

  const SEMITONE: seq<int> := [0, 2, 4, 5, 7, 9, 11]        // C D E F G A B
  const SHARP_ORDER: seq<int> := [3, 0, 4, 1, 5, 2, 6]      // F C G D A E B

  function Min(a: int, b: int): int {
    if a < b then a else b
  }

  function KeyAlter(sharps: int, letter: int): int {
    if sharps > 0 then (if letter in SHARP_ORDER[..Min(sharps, 7)] then 1 else 0)
    else if sharps < 0 then (if letter in SHARP_ORDER[7 - Min(-sharps, 7)..] then -1 else 0)
    else 0
  }

  /** An explicit accidental governs its letter for the rest of the bar. */
  function Remember(v: Voice, pitch: Pitch): Voice
    requires 0 <= pitch.letter < 7 && |v.accidentals| == 7
  {
    if pitch.alter.Some? then v.(accidentals := v.accidentals[pitch.letter := pitch.alter.value]) else v
  }

  function Midi(v: Voice, pitch: Pitch): int
    requires 0 <= pitch.letter < 7 && |v.accidentals| == 7
  {
    var held := v.accidentals[pitch.letter];
    pitch.octave * 12 + SEMITONE[pitch.letter]
      + if held != NO_ACCIDENTAL then held else KeyAlter(v.keySharps, pitch.letter)
  }

  // -- one token at a time

  ghost predicate Sound(v: Voice) {
    v.unitDen > 0 && |v.accidentals| == 7
  }

  /** The state a token can be read in: its voices make sense, and a key has been read. */
  ghost predicate Ready(st: State) {
    && st.current in st.voices
    && (forall n | n in st.voices :: Sound(st.voices[n]))
    && st.ctx.tupletDen > 0
    && -1 <= st.ctx.lastNote < |st.notes|
    && (st.ctx.lastNote >= 0 ==> st.notes[st.ctx.lastNote].voice in st.voices)
    && (forall i | 0 <= i < |st.notes| :: st.notes[i].voice in st.voices)
  }

  /** voice(n): made on first use, with voice 1's unit and key. */
  function VoiceOf(voices: map<int, Voice>, n: int): Voice {
    if n in voices then voices[n]
    else if 1 in voices then
      NEW_VOICE.(unitNum := voices[1].unitNum, unitDen := voices[1].unitDen, keySharps := voices[1].keySharps)
    else NEW_VOICE
  }

  function Advance(st: State, ticks: int): State
    requires st.current in st.voices
  {
    var v := st.voices[st.current];
    st.(voices := st.voices[st.current := v.(tick := v.tick + ticks)])
  }

  /** The last note of this voice and pitch that ends at this tick. */
  function TiedTo(notes: seq<Note>, voice: int, midi: int, tick: int): (r: Option<int>)
    ensures r.Some? ==> 0 <= r.value < |notes|
    ensures r.Some? ==> notes[r.value].voice == voice && notes[r.value].midi == midi && notes[r.value].End() == tick
  {
    var n := |notes|;
    if n == 0 then None
    else if notes[n - 1].voice == voice && notes[n - 1].midi == midi && notes[n - 1].End() == tick then Some(n - 1)
    else TiedTo(notes[..n - 1], voice, midi, tick)
  }

  function StepNote(st: State, pitch: Pitch, length: Length): State
    requires Ready(st) && 0 <= pitch.letter < 7
  {
    var v := Remember(st.voices[st.current], pitch);
    var midi := Midi(v, pitch);
    var unit := UnitTicks(v);
    var d := Adjusted(Or(ReadDuration(length, unit), unit), st.ctx);
    var ctx := AfterAdjust(st.ctx).(pendingTie := false);
    var tied := if st.ctx.pendingTie then TiedTo(st.notes, st.current, midi, v.tick) else None;
    var voices := st.voices[st.current := v.(tick := v.tick + d)];
    if tied.Some? then
      var i := tied.value;
      st.(voices := voices, ctx := ctx.(lastNote := i),
          notes := st.notes[i := st.notes[i].(duration := st.notes[i].duration + d)])
    else
      st.(voices := voices, ctx := ctx.(lastNote := |st.notes|),
          notes := st.notes + [Note(v.tick, d, st.current, midi, v.velocity)])
  }

  function StepRest(st: State, wholeBar: bool, length: Length): State
    requires Ready(st)
  {
    var v := st.voices[st.current];
    var base := if wholeBar then BarTicks(v) else UnitTicks(v);
    Advance(st.(ctx := AfterAdjust(st.ctx)), Adjusted(Or(ReadDuration(length, base), base), st.ctx))
  }

  /** The pitches of a chord, each seeing the accidentals before it, and the voice after them. */
  function ChordPitches(v: Voice, members: seq<(Pitch, Length)>): (r: (seq<int>, Voice))
    requires Sound(v) && forall i | 0 <= i < |members| :: 0 <= members[i].0.letter < 7
    ensures Sound(r.1) && r.1.tick == v.tick && r.1.unitNum == v.unitNum && r.1.unitDen == v.unitDen
      && r.1.velocity == v.velocity
    ensures |r.0| == |members|
    decreases |members|
  {
    if members == [] then ([], v)
    else
      var v := Remember(v, members[0].0);
      var (rest, last) := ChordPitches(v, members[1..]);
      ([Midi(v, members[0].0)] + rest, last)
  }

  function ChordNotes(tick: int, length: int, voice: int, velocity: int, pitches: seq<int>): (r: seq<Note>)
    ensures |r| == |pitches| && forall i | 0 <= i < |r| :: r[i] == Note(tick, length, voice, pitches[i], velocity)
  {
    if pitches == [] then []
    else
      var last := Note(tick, length, voice, pitches[|pitches| - 1], velocity);
      ChordNotes(tick, length, voice, velocity, pitches[..|pitches| - 1]) + [last]
  }

  function StepChord(st: State, members: seq<(Pitch, Length)>, outer: Length): State
    requires Ready(st) && forall i | 0 <= i < |members| :: 0 <= members[i].0.letter < 7
  {
    var v := st.voices[st.current];
    var (pitches, v) := ChordPitches(v, members);
    var unit := UnitTicks(v);
    var memberTicks := if members == [] then 0 else Or(ReadDuration(members[0].1, unit), unit);
    var length := Adjusted(Or(ReadDuration(outer, unit), memberTicks), st.ctx);
    var ctx := AfterAdjust(st.ctx);
    var notes := st.notes + ChordNotes(v.tick, length, st.current, v.velocity, pitches);
    st.(voices := st.voices[st.current := v.(tick := v.tick + length)],
        notes := notes,
        ctx := if members == [] then ctx else ctx.(lastNote := |notes| - 1))
  }

  /** The mark changes the note before it at once, and leaves its count for the note after. */
  function StepBroken(st: State, right: bool, count: int): State
    requires Ready(st) && count >= 1
  {
    var ctx := st.ctx.(broken := if right then count else -count);
    if st.ctx.lastNote < 0 then st.(ctx := ctx)
    else
      var i := st.ctx.lastNote;
      var was := st.notes[i].duration;
      var now := AtLeastOne(if right then Longer(was, count) else Shorter(was, count));
      var owner := st.notes[i].voice;
      var v := st.voices[owner];
      st.(ctx := ctx, notes := st.notes[i := st.notes[i].(duration := now)],
          voices := st.voices[owner := v.(tick := v.tick + now - was)])
  }

  function StepTuplet(st: State, p: int, q: Option<nat>, r: Option<nat>): State
    requires Ready(st) && p >= 1
  {
    var v := st.voices[st.current];
    var compound := v.meterDen == 8 && v.meterNum % 3 == 0;
    st.(ctx := st.ctx.(
      tupletLeft := if r.Some? then r.value else p,
      tupletNum := if q.Some? then q.value else TupletDefault(p, compound),
      tupletDen := p))
  }

  function StepBar(st: State): State
    requires Ready(st)
  {
    var v := st.voices[st.current];
    var bar := BarTicks(v);
    st.(warnings := st.warnings + (if bar > 0 && v.tick % bar != 0 then [(st.current, v.tick)] else []),
        voices := st.voices[st.current := v.(accidentals := CLEAR)])
  }

  function StepVoice(st: State, n: int): State {
    st.(current := n, voices := st.voices[n := VoiceOf(st.voices, n).(accidentals := CLEAR)])
  }

  function StepMeter(st: State, num: int, den: int): State
    requires st.current in st.voices && den >= 1
  {
    var v := st.voices[st.current].(meterNum := num, meterDen := den);
    var v := if st.unitSet then v else v.(unitNum := 1, unitDen := if 4 * num < 3 * den then 16 else 8);
    st.(voices := st.voices[st.current := v])
  }

  function Step(st: State, t: Token): State
    requires Ready(st) && Proper(t)
  {
    match t
    case NoteToken(pitch, length) => StepNote(st, pitch, length)
    case RestToken(wholeBar, length) => StepRest(st, wholeBar, length)
    case ChordToken(members, outer) => StepChord(st, members, outer)
    case TieToken => st.(ctx := st.ctx.(pendingTie := true))
    case TupletToken(p, q, r) => StepTuplet(st, p, q, r)
    case BrokenToken(right, count) => StepBroken(st, right, count)
    case BarToken => StepBar(st)
    case VoiceToken(n) => StepVoice(st, n)
    case KeyToken(sharps) =>
      st.(voices := st.voices[st.current := st.voices[st.current].(keySharps := sharps, accidentals := CLEAR)])
    case UnitToken(num, den) =>
      st.(unitSet := true, voices := st.voices[st.current := st.voices[st.current].(unitNum := num, unitDen := den)])
    case MeterToken(num, den) => StepMeter(st, num, den)
    case ChipToken(n, param, value) =>
      var v := VoiceOf(st.voices, n);
      st.(voices := st.voices[n := v], chips := st.chips + [ChipSet(v.tick, n, param, value)])
    case LineToken => st.(ctx := NEW_CTX)
  }

  lemma {:induction false} StepIsReady(st: State, t: Token)
    requires Ready(st) && Proper(t)
    ensures Ready(Step(st, t))
  {
  }

  /** A whole run of tokens. */
  ghost function Run(st: State, tokens: seq<Token>): (r: State)
    requires Ready(st) && forall t | t in tokens :: Proper(t)
    ensures Ready(r)
  {
    if tokens == [] then st
    else
      var before := Run(st, tokens[..|tokens| - 1]);
      StepIsReady(before, tokens[|tokens| - 1]);
      Step(before, tokens[|tokens| - 1])
  }

  /** After the first K: field, in voice 1. */
  const START := State(map[1 := NEW_VOICE], 1, false, [], [], [], NEW_CTX)
}
