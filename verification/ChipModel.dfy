/** The synthesiser's arithmetic, one sample at a time: oscillators, noise, envelopes and the
    50 Hz frame. What is done in floating point is left to functions that are not looked into. */
module ChipModel {
  import opened Runs

  type Float(==, 0, !new)

  const SAMPLE_RATE: int := 48000
  const FRAME: int := 960
  const CLOCK: int := 985248
  const FULL: int := 255 * 65536

  datatype Phase = Idle | Attack | Decay | Sustain | Release

  /** The bits of the waveform register. */
  datatype Waves = Waves(tri: bool, saw: bool, pulse: bool, noise: bool)

  const NO_WAVE := Waves(false, false, false, false)

  function WavesOf(register: int): Waves {
    Waves(register % 2 == 1, register / 2 % 2 == 1, register / 4 % 2 == 1, register / 8 % 2 == 1)
  }

  /** acc: 24 bits of phase with 8 fractional. */
  datatype Osc = Osc(acc: int, step: int, pw: int, wave: Waves, lfsr: int, ring: bool, sync: bool, prev: int)

  /** env: the level, 16.16 fixed point. */
  datatype Envelope = Envelope(aInc: nat, dInc: nat, rInc: nat, sus: int, env: int, phase: Phase)

  datatype Voice = Voice(osc: Osc, envelope: Envelope, gate: bool, filtered: bool)

  type Voices = voices: seq<Voice> | |voices| == 3 witness [NEW_VOICE, NEW_VOICE, NEW_VOICE]

  datatype Coefs = Coefs(f: Float, q: Float)

  datatype Filter = Filter(low: Float, band: Float)

  /** The filter's coefficients from the cutoff and resonance, and a sample from what each voice
      puts in, filtered or not. */
  datatype Analog = Analog(coefs: (int, int) -> Coefs,
                           mix: (Filter, Coefs, seq<(int, bool)>, int, int) -> (Filter, Float))

  datatype Core = Core(voices: Voices, cutoff: int, resonance: int, mode: int, volume: int, dirty: bool,
                       coefs: Coefs, filter: Filter)

  datatype State = State(core: Core, tick: int, frame: int)

  /** What runs at each frame: the registers it writes, from what is there and the frame's number. */
  type Routine = (Core, int) -> seq<Poke>

  // -- envelopes

  const ATTACK_MS: seq<int> := [2, 8, 16, 24, 38, 56, 68, 80, 100, 250, 500, 800, 1000, 3000, 5000, 8000]

  /** Envelope steps per sample for a full sweep in this many milliseconds, at least one. */
  function RateIncrement(ms: int): (inc: int)
    requires ms >= 0
    ensures 1 <= inc <= FULL
  {
    var samples := ms * SAMPLE_RATE / 1000;
    if samples < 1 then FULL else if FULL / samples < 1 then 1 else FULL / samples
  }

  /** The decay's or release's increment for a register of 0..15. */
  function SlowIncrement(register: int): int
    requires 0 <= register < 16
  {
    RateIncrement(ATTACK_MS[register] * 3)
  }

  /** A sample of decay or release: the rate divided further as the level falls. */
  function Fall(inc: nat, level: int): nat {
    if level <= 6 then inc / 30
    else if level <= 14 then inc / 16
    else if level <= 26 then inc / 8
    else if level <= 54 then inc / 4
    else if level <= 93 then inc / 2
    else inc
  }

  function AdvanceEnvelope(v: Envelope): (r: Envelope)
    ensures r == v.(env := r.env, phase := r.phase)
  {
    match v.phase
    case Idle => v
    case Sustain => v
    case Attack =>
      var env := v.env + v.aInc;
      if env >= FULL then v.(env := FULL, phase := Decay) else v.(env := env)
    case Decay =>
      var env, floorLevel := v.env - Fall(v.dInc, v.env / 65536), v.sus * 65536;
      if env <= floorLevel then v.(env := floorLevel, phase := Sustain) else v.(env := env)
    case Release =>
      var env := v.env - Fall(v.rInc, v.env / 65536);
      if env <= 0 then v.(env := 0, phase := Idle) else v.(env := env)
  }

  function Level(v: Envelope): int {
    if v.phase == Idle then 0 else v.env / 65536
  }

  // -- oscillators

  const TWO32: int := 0x1_0000_0000

  function Phase24(acc: int): int {
    acc / 256 % 0x1000000
  }

  /** An accumulator of 32 bits after its step. */
  function Raw(v: Osc): int {
    (v.acc + v.step) % TWO32
  }

  predicate Wrapped(v: Osc) {
    Phase24(Raw(v)) < Phase24(v.acc)
  }

  /** The noise register shifted: bits 22 and 17 fed back, 23 bits kept. */
  function Shifted(l: int): int {
    (2 * l + (l / 0x400000 + l / 0x20000) % 2) % 0x800000
  }

  // The four outputs are 12 bits wide.

  function And(a: int, b: int): (r: int)
    requires a >= 0 && b >= 0
    ensures 0 <= r <= a && r <= b
    decreases a + b
  {
    if a == 0 || b == 0 then 0 else 2 * And(a / 2, b / 2) + if a % 2 == 1 && b % 2 == 1 then 1 else 0
  }

  /** The top bit folds the rest over, and ring modulation puts another's top bit in its place. */
  function Triangle(phase: int, ring: int): (out: int)
    ensures 0 <= out < 0x1000
  {
    var folded := if (phase / 0x800000 + ring / 0x800000) % 2 != 0 then 0xFFFFFF - phase else phase;
    folded / 0x800 % 0x1000
  }

  function Saw(phase: int): (out: int)
    ensures 0 <= out < 0x1000
  {
    phase / 0x1000 % 0x1000
  }

  function Pulse(phase: int, pw: int): (out: int)
    ensures 0 <= out < 0x1000
  {
    if phase / 0x1000 >= pw then 0xFFF else 0
  }

  /** Bits 22, 20, 16, 13, 11, 7, 4 and 2 of the register, in the upper eight. */
  function Noise(l: int): (out: int)
    ensures 0 <= out < 0x1000
  {
    l / 0x400000 % 2 * 0x800 + l / 0x100000 % 2 * 0x400 + l / 0x10000 % 2 * 0x200 + l / 0x2000 % 2 * 0x100
    + l / 0x800 % 2 * 0x80 + l / 0x80 % 2 * 0x40 + l / 0x10 % 2 * 0x20 + l / 0x4 % 2 * 0x10
  }

  function Pick(on: bool, out: int): int {
    if on then out else 0xFFF
  }

  /** The waveforms selected, ANDed together. */
  function Waveform(wave: Waves, pw: int, lfsr: int, phase: int, ring: int): (out: int)
    ensures 0 <= out < 0x1000
  {
    if wave == NO_WAVE then 0
    else
      And(And(And(Pick(wave.tri, Triangle(phase, ring)), Pick(wave.saw, Saw(phase))),
              Pick(wave.pulse, Pulse(phase, pw))), Pick(wave.noise, Noise(lfsr)))
  }

  /** The voice that syncs and rings this one. */
  function Source(v: int): (s: int)
    requires 0 <= v < 3
    ensures 0 <= s < 3
  {
    (v + 2) % 3
  }

  /** Hard sync slams the accumulator to zero when the voice before has wrapped. */
  function Synced(v: Osc, sourceWrapped: bool): int {
    if v.sync && sourceWrapped then 0 else Raw(v)
  }

  /** A rising edge of accumulator bit 19. */
  predicate Rising(was: int, acc: int) {
    Phase24(was) / 0x80000 % 2 == 0 && Phase24(acc) / 0x80000 % 2 == 1
  }

  /** A voice at a new accumulator, its noise register shifted on a rising edge. */
  function Moved(v: Osc, acc: int): Osc {
    v.(acc := acc, prev := v.acc, lfsr := if Rising(v.acc, acc) then Shifted(v.lfsr) else v.lfsr)
  }

  function Oscillate(v: Voice, sourceWrapped: bool): Voice {
    v.(osc := Moved(v.osc, Synced(v.osc, sourceWrapped)), envelope := AdvanceEnvelope(v.envelope))
  }

  /** The waveform, 0..4095; ring modulation replaces a bit by the voice before's. */
  function Output(v: Osc, sourceRaw: int): int {
    Waveform(v.wave, v.pw, v.lfsr, Phase24(v.acc), if v.ring then Phase24(sourceRaw) else 0)
  }

  /** What a voice that has moved on puts into the sample: its waveform centred and scaled by its
      envelope. */
  function Put(v: Voice, sourceRaw: int): (int, bool) {
    ((Output(v.osc, sourceRaw) - 2048) * Level(v.envelope), v.filtered)
  }

  function VoiceAfter(voices: Voices, v: int): Voice
    requires 0 <= v < 3
  {
    Oscillate(voices[v], Wrapped(voices[Source(v)].osc))
  }

  function Part(voices: Voices, v: int): (int, bool)
    requires 0 <= v < 3
  {
    Put(VoiceAfter(voices, v), Raw(voices[Source(v)].osc))
  }

  function VoicesAfter(voices: Voices): Voices {
    [VoiceAfter(voices, 0), VoiceAfter(voices, 1), VoiceAfter(voices, 2)]
  }

  function Parts(voices: Voices): seq<(int, bool)> {
    [Part(voices, 0), Part(voices, 1), Part(voices, 2)]
  }

  // -- samples

  function Prepared(a: Analog, c: Core): Core {
    if c.dirty then c.(coefs := a.coefs(c.cutoff, c.resonance), dirty := false) else c
  }

  /** The countdown of one sample, and the routine when it comes round. */
  function Counted(a: Analog, routine: Routine, s: State): State {
    if s.tick - 1 <= 0 then State(Prepared(a, Rewritten(s.core, routine(s.core, s.frame + 1))), FRAME, s.frame + 1)
    else s.(tick := s.tick - 1)
  }

  function Sounded(a: Analog, c: Core): (Core, Float) {
    var (filter, out) := a.mix(c.filter, c.coefs, Parts(c.voices), c.mode, c.volume);
    (c.(voices := VoicesAfter(c.voices), filter := filter), out)
  }

  function Sample(a: Analog, routine: Routine, s: State): (State, Float) {
    var counted := Counted(a, routine, s);
    var (core, out) := Sounded(a, counted.core);
    (counted.(core := core), out)
  }

  function Sampler(a: Analog, routine: Routine): State -> (State, Float) {
    s => Sample(a, routine, s)
  }

  function Samples(a: Analog, routine: Routine, s: State, n: nat): (r: (State, seq<Float>))
    ensures |r.1| == n
  {
    Run(Sampler(a, routine), s, n)
  }

  /** A call of render. */
  function Rendered(a: Analog, routine: Routine, s: State, n: nat): (r: (State, seq<Float>))
    ensures |r.1| == n
  {
    Samples(a, routine, s.(core := Prepared(a, s.core)), n)
  }

  // -- registers

  datatype Write =
    | Frequency(v: int, register: int)
    | PulseWidth(v: int, pw: int)
    | Wave(v: int, wave: int)
    | Ring(v: int, on: bool)
    | Sync(v: int, on: bool)
    | Route(v: int, on: bool)
    | Adsr(v: int, a: int, d: int, s: int, r: int)
    | SustainLevel(v: int, level: int)
    | GateOn(v: int)
    | GateOff(v: int)
    | Volume(volume: int)
    | FilterTo(cutoff: int, resonance: int, mode: int)

  function Clamp(n: int, low: int, high: int): int {
    if n < low then low else if n > high then high else n
  }

  /** n & 15, of a number of either sign. */
  function Nibble(n: int): (r: int)
    ensures 0 <= r < 16
  {
    n % 16
  }

  predicate Addressed(w: Write) {
    w.Volume? || w.FilterTo? || 0 <= w.v < 3
  }

  type Poke = w: Write | Addressed(w) witness Volume(15)

  /** Swift's division is towards zero. */
  function StepOf(register: int): int {
    var n := register * CLOCK * 256;
    if n >= 0 then n / SAMPLE_RATE else -((-n) / SAMPLE_RATE)
  }

  function WriteVoice(v: Voice, w: Write): Voice
    requires !w.Volume? && !w.FilterTo?
  {
    match w
    case Frequency(_, register) => v.(osc := v.osc.(step := StepOf(register)))
    case PulseWidth(_, pw) => v.(osc := v.osc.(pw := pw % 0x1000))
    case Wave(_, wave) => v.(osc := v.osc.(wave := WavesOf(Nibble(wave))))
    case Ring(_, on) => v.(osc := v.osc.(ring := on))
    case Sync(_, on) => v.(osc := v.osc.(sync := on))
    case Route(_, on) => v.(filtered := on)
    case Adsr(_, a, d, s, r) =>
      v.(envelope := v.envelope.(aInc := RateIncrement(ATTACK_MS[Nibble(a)]), dInc := SlowIncrement(Nibble(d)),
                                 sus := Nibble(s) * 17, rInc := SlowIncrement(Nibble(r))))
    case SustainLevel(_, level) => v.(envelope := v.envelope.(sus := Clamp(level, 0, 255)))
    case GateOn(_) => v.(gate := true, envelope := v.envelope.(phase := Attack))
    case GateOff(_) => v.(gate := false, envelope := v.envelope.(phase := Release))
  }

  function Written(c: Core, w: Write): Core
    requires Addressed(w)
  {
    match w
    case Volume(volume) => c.(volume := Clamp(volume, 0, 15))
    case FilterTo(cutoff, resonance, mode) =>
      c.(cutoff := Clamp(cutoff, 0, 0x7FF), resonance := Nibble(resonance), mode := mode % 8, dirty := true)
    case _ => c.(voices := c.voices[w.v := WriteVoice(c.voices[w.v], w)])
  }

  /** Registers written one after the other. */
  function Rewritten(c: Core, ws: seq<Poke>): Core {
    if ws == [] then c else Written(Rewritten(c, ws[..|ws| - 1]), ws[|ws| - 1])
  }

  const NEW_VOICE := Voice(Osc(0, 0, 2048, WavesOf(4), 0x7FFFF8, false, false, 0), Envelope(0, 0, 0, 0, 0, Idle),
                           false, false)

  function NewVoice(): Voice {
    WriteVoice(NEW_VOICE, Adsr(0, 0, 9, 0, 9))
  }

  function NewChip(coefs: Coefs, filter: Filter): State {
    State(Core([NewVoice(), NewVoice(), NewVoice()], 1024, 0, 1, 15, true, coefs, filter), FRAME, 0)
  }
}
