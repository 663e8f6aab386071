/** What the synthesiser's registers mean, in numbers: waveforms, pitch, envelope rates. */
module ChipRegisters {
  import opened ChipModel
  import opened ChipTheorems

  // -- waveforms

  /** A voice that has been given a wave, heard at a phase, without ring modulation. */
  function Heard(v: Voice, wave: int, phase: int): int
    requires 0 <= phase < 0x1000000
  {
    Output(WriteVoice(v, Wave(0, wave)).osc.(acc := phase * 256, ring := false), 0)
  }

  /** Wave 1 rises over the first half of a turn by one step of 4096 for each 2048 of phase, and
      falls over the second as it rose: a triangle. */
  lemma {:induction false} WaveOne(v: Voice, phase: int)
    requires 0 <= phase < 0x800000
    ensures Heard(v, 1, phase) == phase / 2048
    ensures Heard(v, 1, 0xFFFFFF - phase) == Heard(v, 1, phase)
  {
    WaveNibbles();
    PhaseOf(phase);
    PhaseOf(0xFFFFFF - phase);
    assert Nibble(1) == 1;
    TriangleIs(phase, 0);
    TriangleIs(0xFFFFFF - phase, 0);
    OnlyOne(phase, v.osc.pw, v.osc.lfsr);
    OnlyOne(0xFFFFFF - phase, v.osc.pw, v.osc.lfsr);
  }

  lemma {:induction false} HeardIs(v: Voice, wave: int, phase: int)
    requires 0 <= phase < 0x1000000 && 0 <= wave < 16
    ensures Heard(v, wave, phase) == Waveform(WavesOf(wave), v.osc.pw, v.osc.lfsr, phase, 0)
  {
    PhaseOf(phase);
    assert Nibble(wave) == wave;
  }

  lemma {:induction false} PhaseOf(phase: int)
    requires 0 <= phase < 0x1000000
    ensures Phase24(phase * 256) == phase
  {
  }

  /** A wave's four bits: triangle, saw, pulse, noise. */
  lemma {:induction false} WaveBits(t: int, s: int, p: int, n: int)
    requires 0 <= t < 2 && 0 <= s < 2 && 0 <= p < 2 && 0 <= n < 2
    ensures WavesOf(t + 2 * s + 4 * p + 8 * n) == Waves(t == 1, s == 1, p == 1, n == 1)
  {
  }

  lemma {:induction false} WaveNibbles()
    ensures WavesOf(1) == Waves(true, false, false, false) && WavesOf(2) == Waves(false, true, false, false)
    ensures WavesOf(4) == Waves(false, false, true, false) && WavesOf(8) == Waves(false, false, false, true)
    ensures WavesOf(0) == NO_WAVE
  {
  }

  lemma {:induction false} HalfOf(phase: int)
    requires 0 <= phase < 0x1000000
    ensures phase / 0x800000 == if phase < 0x800000 then 0 else 1
    ensures phase / 0x800 % 0x1000 == (if phase < 0x800000 then phase else phase - 0x800000) / 2048
  {
  }

  lemma {:induction false} Folded(phase: int)
    requires 0 <= phase < 0x1000000
    ensures (0xFFFFFF - phase) / 0x800 == 8191 - phase / 0x800
    ensures (0xFFFFFF - phase) / 0x800 % 0x1000 == 4095 - phase / 0x800 % 0x1000
  {
    assert phase == 0x800 * (phase / 0x800) + phase % 0x800;
  }

  /** The top half folds over, and ring modulation swaps the halves. */
  lemma {:induction false} TriangleIs(phase: int, ring: int)
    requires 0 <= phase < 0x1000000 && (ring == 0 || ring == 0x800000)
    ensures var step := (if phase < 0x800000 then phase else phase - 0x800000) / 2048;
      Triangle(phase, ring) == if (phase < 0x800000) == (ring == 0) then step else 4095 - step
  {
    var step := (if phase < 0x800000 then phase else phase - 0x800000) / 2048;
    HalfOf(phase);
    Folded(phase);
  }

  /** Wave 2 rises over the whole turn, by a step of 4096 for each 4096 of phase: a sawtooth. */
  lemma {:induction false} WaveTwo(v: Voice, phase: int)
    requires 0 <= phase < 0x1000000
    ensures Heard(v, 2, phase) == phase / 4096
  {
    HeardIs(v, 2, phase);
    OnlyOne(phase, v.osc.pw, v.osc.lfsr);
    SawIs(phase);
  }

  lemma {:induction false} SawIs(phase: int)
    requires 0 <= phase < 0x1000000
    ensures Saw(phase) == phase / 4096
  {
  }

  lemma {:induction false} SawNeverFalls(v: Voice, phase: int, later: int)
    requires 0 <= phase <= later < 0x1000000
    ensures Heard(v, 2, phase) <= Heard(v, 2, later)
  {
    WaveTwo(v, phase);
    WaveTwo(v, later);
  }

  /** Wave 4 is nothing for pw in 4096 of a turn, and everything after: a pulse. */
  lemma {:induction false} WaveFour(v: Voice, phase: int)
    requires 0 <= phase < 0x1000000
    ensures Heard(v, 4, phase) == if phase / 4096 >= v.osc.pw then 4095 else 0
    ensures Heard(v, 0, phase) == 0
  {
    WaveNibbles();
    PhaseOf(phase);
    OnlyOne(phase, v.osc.pw, v.osc.lfsr);
  }

  /** Wave 8 is eight bits of the noise register: 22, 20, 16, 13, 11, 7, 4 and 2, the first highest. */
  lemma {:induction false} WaveEight(v: Voice, phase: int, bits: seq<int>)
    requires 0 <= phase < 0x1000000 && |bits| == 23 && forall i | 0 <= i < 23 :: 0 <= bits[i] < 2
    requires v.osc.lfsr == Register(bits)
    ensures Heard(v, 8, phase) == 2048 * bits[22] + 1024 * bits[20] + 512 * bits[16] + 256 * bits[13]
      + 128 * bits[11] + 64 * bits[7] + 32 * bits[4] + 16 * bits[2]
  {
    WaveNibbles();
    PhaseOf(phase);
    OnlyOne(phase, v.osc.pw, v.osc.lfsr);
    var l := v.osc.lfsr;
    BitsOf(bits, 22);
    BitsOf(bits, 20);
    BitsOf(bits, 16);
    BitsOf(bits, 13);
    BitsOf(bits, 11);
    BitsOf(bits, 7);
    BitsOf(bits, 4);
    BitsOf(bits, 2);
    Powers();
  }

  /** Bits with the lowest first. */
  function Register(bits: seq<int>): int {
    if bits == [] then 0 else bits[0] + 2 * Register(bits[1..])
  }

  function Power(n: nat): (p: int)
    ensures p >= 1
  {
    if n == 0 then 1 else 2 * Power(n - 1)
  }

  lemma {:induction false} Powers()
    ensures Power(2) == 0x4 && Power(4) == 0x10 && Power(7) == 0x80 && Power(11) == 0x800
    ensures Power(13) == 0x2000 && Power(16) == 0x10000 && Power(17) == 0x20000
    ensures Power(20) == 0x100000 && Power(22) == 0x400000
  {
    assert Power(4) == 0x10;
    assert Power(8) == 0x100;
    assert Power(12) == 0x1000;
    assert Power(16) == 0x10000;
    assert Power(20) == 0x100000;
  }

  lemma {:induction false} BitsOf(bits: seq<int>, n: nat)
    requires n < |bits| && forall i | 0 <= i < |bits| :: 0 <= bits[i] < 2
    ensures Register(bits) >= 0 && Register(bits) / Power(n) % 2 == bits[n]
    decreases n
  {
    if n == 0 {
      RegisterIsNat(bits);
    } else {
      BitsOf(bits[1..], n - 1);
      var rest, p := Register(bits[1..]), Power(n - 1);
      assert rest / p % 2 == bits[n];
      OneFurther(Register(bits), rest, bits[0], Power(n), p);
    }
  }

  lemma {:induction false} OneFurther(register: int, rest: int, bit: int, power: int, p: int)
    requires register == bit + 2 * rest && 0 <= bit < 2 && rest >= 0 && power == 2 * p && p >= 1
    ensures register >= 0 && register / power == rest / p
  {
    HalfFirst(rest, bit, p);
  }

  lemma {:induction false} RegisterIsNat(bits: seq<int>)
    requires forall i | 0 <= i < |bits| :: 0 <= bits[i] < 2
    ensures Register(bits) >= 0
  {
    if bits != [] {
      RegisterIsNat(bits[1..]);
    }
  }

  lemma {:induction false} HalfFirst(n: nat, bit: int, p: int)
    requires 0 <= bit < 2 && p >= 1
    ensures (bit + 2 * n) / (2 * p) == n / p
  {
    var q, r := n / p, n % p;
    assert n == p * q + r;
    assert bit + 2 * n == 2 * p * q + (2 * r + bit) && 0 <= 2 * r + bit < 2 * p;
    QuotientIs(bit + 2 * n, 2 * p, q);
  }

  lemma {:induction false} QuotientIs(a: int, d: int, q: int)
    requires d >= 1 && d * q <= a < d * q + d
    ensures a / d == q
  {
    var p := a / d;
    assert d * p <= a < d * p + d;
    if p > q {
      AtLeastOneMore(d, p - q);
    } else if p < q {
      AtLeastOneMore(d, q - p);
    }
  }

  lemma {:induction false} AtLeastOneMore(d: int, k: int)
    requires d >= 1 && k >= 1
    ensures d * k >= d
  {
  }

  /** ANDed with all ones a number is itself. */
  lemma {:induction false} AndOnes(k: nat, n: int)
    requires 0 <= n < Power(k)
    ensures And(Power(k) - 1, n) == n && And(n, Power(k) - 1) == n
  {
    if k > 0 && n > 0 {
      var p := Power(k - 1);
      AndOnes(k - 1, n / 2);
      assert Power(k) == 2 * p && (2 * p - 1) / 2 == p - 1 && (2 * p - 1) % 2 == 1;
      assert And(2 * p - 1, n) == 2 * And(p - 1, n / 2) + n % 2;
      assert And(n, 2 * p - 1) == 2 * And(n / 2, p - 1) + n % 2;
    }
  }

  lemma {:induction false} AndTwelve(n: int)
    requires 0 <= n < 0x1000
    ensures And(0xFFF, n) == n && And(n, 0xFFF) == n
  {
    assert Power(4) == 16 && Power(8) == 256 && Power(12) == 0x1000;
    AndOnes(12, n);
  }

  lemma {:induction false} OnlyOne(phase: int, pw: int, lfsr: int)
    requires 0 <= phase < 0x1000000
    ensures Waveform(WavesOf(1), pw, lfsr, phase, 0) == Triangle(phase, 0)
    ensures Waveform(WavesOf(2), pw, lfsr, phase, 0) == Saw(phase)
    ensures Waveform(WavesOf(4), pw, lfsr, phase, 0) == Pulse(phase, pw)
    ensures Waveform(WavesOf(8), pw, lfsr, phase, 0) == Noise(lfsr)
    ensures Waveform(WavesOf(0), pw, lfsr, phase, 0) == 0
  {
    WaveNibbles();
    AndTwelve(0xFFF);
    AndTwelve(Triangle(phase, 0));
    AndTwelve(Saw(phase));
    AndTwelve(Pulse(phase, pw));
    AndTwelve(Noise(lfsr));
  }

  /** Waves selected together are ANDed, bit by bit. */
  lemma {:induction false} AndIsBitwise(a: nat, b: nat, n: nat)
    ensures And(a, b) / Power(n) % 2 == if a / Power(n) % 2 == 1 && b / Power(n) % 2 == 1 then 1 else 0
    decreases n
  {
    if a == 0 || b == 0 {
      Nothing(Power(n));
    } else if n > 0 {
      AndIsBitwise(a / 2, b / 2, n - 1);
      HalvesOf(And(a, b), n);
      HalvesOf(a, n);
      HalvesOf(b, n);
      assert And(a, b) / 2 == And(a / 2, b / 2);
    }
  }

  lemma {:induction false} Nothing(p: int)
    requires p >= 1
    ensures 0 / p == 0
  {
  }

  lemma {:induction false} HalvesOf(n: nat, k: nat)
    requires k > 0
    ensures n / Power(k) == n / 2 / Power(k - 1)
  {
    HalfFirst(n / 2, n % 2, Power(k - 1));
  }

  /** So with a pulse a sawtooth is heard while that is high. */
  lemma {:induction false} WaveSix(v: Voice, phase: int)
    requires 0 <= phase < 0x1000000
    ensures Heard(v, 6, phase) == if phase / 4096 >= v.osc.pw then Heard(v, 2, phase) else 0
  {
    HeardIs(v, 6, phase);
    HeardIs(v, 2, phase);
    OnlyOne(phase, v.osc.pw, v.osc.lfsr);
    SawAndPulse(phase, v.osc.pw, v.osc.lfsr);
  }

  lemma {:induction false} SawAndPulse(phase: int, pw: int, lfsr: int)
    ensures Waveform(WavesOf(6), pw, lfsr, phase, 0) == if phase / 4096 >= pw then Saw(phase) else 0
  {
    WaveBits(0, 1, 1, 0);
    AndTwelve(Saw(phase));
    AndTwelve(0);
    assert And(Saw(phase), 0) == 0;
  }

  // -- ring modulation, sync and the noise register

  /** A sample's step: 32 bits of which the upper 24 are phase; it wraps when the phase falls, and
      a voice that is synced begins anew then. */
  lemma {:induction false} OscillatorSteps(v: Osc, wrapped: bool)
    requires 0 <= v.acc < 0x1_0000_0000 && 0 <= v.step < 0x1_0000_0000
    ensures Raw(v) == (if v.acc + v.step < 0x1_0000_0000 then v.acc + v.step else v.acc + v.step - 0x1_0000_0000)
    ensures Wrapped(v) <==> Raw(v) / 256 < v.acc / 256
    ensures Synced(v, wrapped) == if v.sync && wrapped then 0 else Raw(v)
    ensures Moved(v, Raw(v)).acc == Raw(v)
    ensures Moved(v, Raw(v)).lfsr ==
      if v.acc / 0x8000000 % 2 == 0 && Raw(v) / 0x8000000 % 2 == 1 then Shifted(v.lfsr) else v.lfsr
  {
    Bit19(v.acc);
    Bit19(Raw(v));
  }

  /** Voice v moves on from what all were before: synced, it begins anew when the phase of voice
      `source` falls, although that may itself be begun anew. */
  lemma {:induction false} SyncedBy(voices: Voices, v: int, source: int)
    requires (v == 0 && source == 2) || (v == 1 && source == 0) || (v == 2 && source == 1)
    requires forall u | 0 <= u < 3 ::
      0 <= voices[u].osc.acc < 0x1_0000_0000 && 0 <= voices[u].osc.step < 0x1_0000_0000
    ensures var was, other, now := voices[v].osc, voices[source].osc, VoicesAfter(voices)[v].osc;
      && now.acc == (if was.sync && (other.acc + other.step) % 0x1_0000_0000 / 256 < other.acc / 256 then 0
                     else (was.acc + was.step) % 0x1_0000_0000)
      && now.lfsr == (if was.acc / 0x8000000 % 2 == 0 && now.acc / 0x8000000 % 2 == 1 then Shifted(was.lfsr)
                      else was.lfsr)
  {
    OscillatorSteps(voices[v].osc, false);
    OscillatorSteps(voices[source].osc, false);
    Bit19(voices[v].osc.acc);
    Bit19(VoicesAfter(voices)[v].osc.acc);
  }

  /** Voice v's triangle, rung by voice `source`: turned over while that is in the second half of its
      turn, before any sync; heard at the voice's own new phase and level. */
  lemma {:induction false} RungBy(voices: Voices, v: int, source: int)
    requires (v == 0 && source == 2) || (v == 1 && source == 0) || (v == 2 && source == 1)
    requires forall u | 0 <= u < 3 ::
      0 <= voices[u].osc.acc < 0x1_0000_0000 && 0 <= voices[u].osc.step < 0x1_0000_0000
    requires voices[v].osc.wave == WavesOf(1)
    ensures var now, other := VoicesAfter(voices)[v], voices[source].osc;
      var phase := now.osc.acc / 256;
      var step := (if phase < 0x800000 then phase else phase - 0x800000) / 2048;
      var turned := now.osc.ring && (other.acc + other.step) % 0x1_0000_0000 >= 0x8000_0000;
      Parts(voices)[v].0 == ((if (phase < 0x800000) != turned then step else 4095 - step) - 2048) * Level(now.envelope)
  {
    var now, other := VoiceAfter(voices, v), voices[source].osc;
    assert Parts(voices)[v] == Part(voices, v) && VoicesAfter(voices)[v] == now && Source(v) == source;
    RungTriangle(now.osc, Raw(other));
  }

  lemma {:induction false} RungTriangle(o: Osc, raw: int)
    requires 0 <= o.acc < 0x1_0000_0000 && 0 <= raw < 0x1_0000_0000 && o.wave == WavesOf(1)
    ensures var phase := o.acc / 256;
      var step := (if phase < 0x800000 then phase else phase - 0x800000) / 2048;
      Output(o, raw) == if (phase < 0x800000) != (o.ring && raw >= 0x8000_0000) then step else 4095 - step
  {
    Bit19(o.acc);
    Bit19(raw);
    var ring := if o.ring then raw / 256 else 0;
    TopHalf(o.acc / 256, ring);
    TriangleIs(o.acc / 256, if ring < 0x800000 then 0 else 0x800000);
    TriangleAlone(o.pw, o.lfsr, o.acc / 256, ring);
  }

  /** Only the top bit of the other's phase matters. */
  lemma {:induction false} TopHalf(phase: int, ring: int)
    requires 0 <= ring < 0x1000000
    ensures Triangle(phase, ring) == Triangle(phase, if ring < 0x800000 then 0 else 0x800000)
  {
  }

  lemma {:induction false} TriangleAlone(pw: int, lfsr: int, phase: int, ring: int)
    ensures Waveform(WavesOf(1), pw, lfsr, phase, ring) == Triangle(phase, ring)
  {
    WaveNibbles();
    AndTwelve(Triangle(phase, ring));
    assert And(0xFFF, 0xFFF) == 0xFFF by {
      AndTwelve(0xFFF);
    }
  }

  lemma {:induction false} Bit19(acc: int)
    requires 0 <= acc < 0x1_0000_0000
    ensures Phase24(acc) == acc / 256 && Phase24(acc) / 0x80000 % 2 == acc / 0x8000000 % 2
  {
    var p := acc / 256;
    assert acc == 256 * p + acc % 256;
    assert p / 0x80000 == acc / 0x8000000;
  }

  /** The noise register moves up a bit, and its bits 22 and 17 decide the lowest one. */
  lemma {:induction false} RegisterShifts(bits: seq<int>)
    requires |bits| == 23 && forall i | 0 <= i < 23 :: 0 <= bits[i] < 2
    ensures Shifted(Register(bits)) == Register([(bits[22] + bits[17]) % 2] + bits[..22])
  {
    Powers();
    BitsOf(bits, 22);
    BitsOf(bits, 17);
    var l, kept, fed := Register(bits), Register(bits[..22]), (bits[22] + bits[17]) % 2;
    TopBit(bits);
    RegisterIsNat(bits[..22]);
    RegisterBelow(bits[..22]);
    assert ([fed] + bits[..22])[1..] == bits[..22];
    FeedsBack(l, kept, bits[22], bits[17]);
  }

  lemma {:induction false} TopBit(bits: seq<int>)
    requires bits != []
    ensures Register(bits) == Register(bits[..|bits| - 1]) + Power(|bits| - 1) * bits[|bits| - 1]
  {
    if |bits| > 1 {
      TopBit(bits[1..]);
      assert bits[1..][..|bits| - 2] == bits[..|bits| - 1][1..];
    }
  }

  lemma {:induction false} RegisterBelow(bits: seq<int>)
    requires forall i | 0 <= i < |bits| :: 0 <= bits[i] < 2
    ensures Register(bits) < Power(|bits|)
  {
    if bits != [] {
      RegisterBelow(bits[1..]);
    }
  }

  lemma {:induction false} FeedsBack(l: int, kept: int, top: int, tap: int)
    requires 0 <= kept < 0x400000 && 0 <= top < 2 && 0 <= tap < 2 && l == kept + 0x400000 * top
    requires l / 0x400000 % 2 == top && l / 0x20000 % 2 == tap
    ensures Shifted(l) == (top + tap) % 2 + 2 * kept
  {
    assert (l / 0x400000 + l / 0x20000) % 2 == (top + tap) % 2;
    assert 2 * l + (top + tap) % 2 == 0x800000 * top + (2 * kept + (top + tap) % 2);
  }

  /** What a voice puts into a sample: its wave around the middle, times its level. */
  lemma {:induction false} PutsIn(v: Voice, sourceRaw: int)
    ensures Put(v, sourceRaw).0
      == (Output(v.osc, sourceRaw) - 2048) * (if v.envelope.phase == Idle then 0 else v.envelope.env / 65536)
    ensures Put(v, sourceRaw).1 == v.filtered
  {
  }

  // -- pitch

  /** The frequency register is in steps of 985248 / 2^24 Hz: the step a sample takes, of a turn of
      2^32, is that to within one. */
  lemma {:induction false} StepPerSample(register: int)
    requires register >= 0
    ensures 48000 * StepOf(register) <= register * 985248 * 256 < 48000 * (StepOf(register) + 1)
    ensures StepOf(-register) == -StepOf(register)
  {
  }

  // -- envelopes

  const ATTACKS: seq<int> := [2, 8, 16, 24, 38, 56, 68, 80, 100, 250, 500, 800, 1000, 3000, 5000, 8000]

  /** A register's attack takes so many milliseconds, 48 samples each, to 255 levels of 65536, and
      its decay and release three times as long; the sustain register is in steps of 17 levels. */
  lemma {:induction false} RatesOf(v: Voice, a: int, d: int, s: int, r: int)
    requires 0 <= a < 16 && 0 <= d < 16 && 0 <= s < 16 && 0 <= r < 16
    ensures var e := WriteVoice(v, Adsr(0, a, d, s, r)).envelope;
      && e.aInc == AttackRate(a) && e.dInc == SlowRate(d) && e.rInc == SlowRate(r)
      && e.sus == 17 * s && e.env == v.envelope.env && e.phase == v.envelope.phase
  {
    Rates(a);
    Rates(d);
    Rates(r);
    assert Nibble(a) == a && Nibble(d) == d && Nibble(s) == s && Nibble(r) == r;
  }

  lemma {:induction false} Rates(register: int)
    requires 0 <= register < 16
    ensures RateIncrement(ATTACK_MS[register]) == AttackRate(register)
    ensures SlowIncrement(register) == SlowRate(register)
  {
    Rate(register, 1);
    Rate(register, 3);
  }

  function AttackRate(register: int): int
    requires 0 <= register < 16
  {
    255 * 65536 / (48 * ATTACKS[register])
  }

  function SlowRate(register: int): int
    requires 0 <= register < 16
  {
    255 * 65536 / (144 * ATTACKS[register])
  }

  lemma {:induction false} Rate(register: int, times: int)
    requires 0 <= register < 16 && (times == 1 || times == 3)
    ensures RateIncrement(ATTACK_MS[register] * times)
      == if times == 1 then AttackRate(register) else SlowRate(register)
  {
    var samples := 48 * times * ATTACKS[register];
    assert ATTACK_MS[register] * times * 48000 / 1000 == samples;
    assert 1 <= samples <= 1152000 < FULL;
    AtLeastOnce(samples);
  }

  lemma {:induction false} AtLeastOnce(samples: int)
    requires 1 <= samples <= FULL
    ensures FULL / samples >= 1
  {
    var q := FULL / samples;
    assert FULL == samples * q + FULL % samples;
  }

  /** A decay or release is divided at 93, 54, 26, 14 and 6. */
  lemma {:induction false} FallsBySteps(inc: nat)
    ensures Fall(inc, 255) == inc == Fall(inc, 94) && Fall(inc, 93) == inc / 2 == Fall(inc, 55)
    ensures Fall(inc, 54) == inc / 4 == Fall(inc, 27) && Fall(inc, 26) == inc / 8 == Fall(inc, 15)
    ensures Fall(inc, 14) == inc / 16 == Fall(inc, 7) && Fall(inc, 6) == inc / 30 == Fall(inc, 0)
  {
  }

  /** The envelope's phases: up to 255 and then down to the sustain level, where it stays; let go,
      down to nothing. */
  lemma {:induction false} EnvelopePhases(e: Envelope)
    requires SoundEnvelope(e)
    ensures var r := AdvanceEnvelope(e);
      && (e.phase == Attack ==>
            if e.env + e.aInc < 255 * 65536 then r.env == e.env + e.aInc && r.phase == Attack
            else r.env == 255 * 65536 && r.phase == Decay)
      && (e.phase == Decay ==>
            var env := e.env - Fall(e.dInc, e.env / 65536);
            if env > e.sus * 65536 then r.env == env && r.phase == Decay
            else r.env == e.sus * 65536 && r.phase == Sustain)
      && (e.phase == Release ==>
            var env := e.env - Fall(e.rInc, e.env / 65536);
            if env > 0 then r.env == env && r.phase == Release else r.env == 0 && r.phase == Idle)
      && (e.phase == Sustain || e.phase == Idle ==> r == e)
  {
  }

  /** The gate starts an attack or a release from wherever the envelope is. */
  lemma {:induction false} Gates(v: Voice)
    ensures WriteVoice(v, GateOn(0)) == v.(gate := true, envelope := v.envelope.(phase := Attack))
    ensures WriteVoice(v, GateOff(0)) == v.(gate := false, envelope := v.envelope.(phase := Release))
  {
  }

  // -- the other registers

  /** Widths and waves drop the bits above theirs; volume, cutoff and sustain stop at their ends. */
  lemma {:induction false} RegistersFit(c: Core, v: Voice, n: int, resonance: int, mode: int, on: bool)
    ensures WriteVoice(v, PulseWidth(0, n)).osc == v.osc.(pw := n % 4096)
    ensures WriteVoice(v, Wave(0, n)).osc == v.osc.(wave := WavesOf(n % 16))
    ensures WriteVoice(v, SustainLevel(0, n)).envelope
      == v.envelope.(sus := if n < 0 then 0 else if n > 255 then 255 else n)
    ensures Written(c, Volume(n)) == c.(volume := if n < 0 then 0 else if n > 15 then 15 else n)
    ensures Written(c, FilterTo(n, resonance, mode)) == c.(cutoff := if n < 0 then 0 else if n > 2047 then 2047 else n,
      resonance := resonance % 16, mode := mode % 8, dirty := true)
    ensures WriteVoice(v, Ring(0, on)).osc == v.osc.(ring := on) && WriteVoice(v, Sync(0, on)).osc == v.osc.(sync := on)
    ensures WriteVoice(v, Route(0, on)) == v.(filtered := on)
  {
  }

  /** A new chip: a pulse of half a turn on each voice, idle, decaying and releasing by register 9,
      cutoff 1024, low pass, full volume; frames of 960 samples. */
  lemma {:induction false} NewRegisters(coefs: Coefs, filter: Filter)
    ensures var s := NewChip(coefs, filter);
      && s.tick == 960 && s.frame == 0
      && s.core.cutoff == 1024 && s.core.resonance == 0 && s.core.mode == 1 && s.core.volume == 15 && s.core.dirty
      && forall i | 0 <= i < 3 ::
           var v := s.core.voices[i];
           && v.osc.pw == 2048 && v.osc.wave == WavesOf(4) && v.osc.lfsr == 0x7FFFF8 && v.osc.acc == 0 == v.osc.step
           && !v.osc.ring && !v.osc.sync && !v.gate && !v.filtered
           && v.envelope.phase == Idle && v.envelope.env == 0
           && v.envelope.dInc == v.envelope.rInc == 255 * 65536 / 36000
  {
    Rates(0);
    Rates(9);
  }
}
