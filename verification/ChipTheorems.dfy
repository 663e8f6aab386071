/** What holds of the synthesiser after any samples and any register writes. */
module ChipTheorems {
  import opened ChipModel
  import opened Runs

  // -- rendering cut anywhere

  /** No filter setting waits to be worked out once rendering has begun. */
  lemma {:induction false} SamplesStayClean(a: Analog, routine: Routine, s: State, n: nat)
    requires !s.core.dirty
    ensures !Samples(a, routine, s, n).0.core.dirty
  {
    if n > 0 {
      SamplesStayClean(a, routine, s, n - 1);
    }
  }

  /** render(n) and then render(m) is render(n + m): the same samples, the same state. */
  lemma {:induction false} CutAnywhere(a: Analog, routine: Routine, s: State, n: nat, m: nat)
    ensures var (middle, first) := Rendered(a, routine, s, n);
      var (last, second) := Rendered(a, routine, middle, m);
      Rendered(a, routine, s, n + m) == (last, first + second)
  {
    var begun := s.(core := Prepared(a, s.core));
    RunSplits(Sampler(a, routine), begun, n, m);
    SamplesStayClean(a, routine, begun, n);
  }

  // -- frames

  /** Frames are counted by samples alone, whatever the routine does. */
  lemma {:induction false} FramesAreCounted(a: Analog, routine: Routine, s: State, n: nat, before: nat)
    requires s.frame == before / FRAME && s.tick == FRAME - before % FRAME
    ensures var r := Samples(a, routine, s, n).0;
      r.frame == (before + n) / FRAME && r.tick == FRAME - (before + n) % FRAME
  {
    if n > 0 {
      FramesAreCounted(a, routine, s, n - 1, before);
      SampleCounts(a, routine, Samples(a, routine, s, n - 1).0);
      OneMore(before + n - 1);
    }
  }

  lemma {:induction false} SampleCounts(a: Analog, routine: Routine, s: State)
    ensures var r := Sample(a, routine, s).0;
      if s.tick <= 1 then r.tick == FRAME && r.frame == s.frame + 1 else r.tick == s.tick - 1 && r.frame == s.frame
  {
  }

  lemma {:induction false} OneMore(n: nat)
    ensures if n % FRAME == FRAME - 1 then (n + 1) / FRAME == n / FRAME + 1 && (n + 1) % FRAME == 0
            else (n + 1) / FRAME == n / FRAME && (n + 1) % FRAME == n % FRAME + 1
  {
  }

  // -- the noise register

  /** It never falls silent, and keeps its 23 bits. */
  lemma {:induction false} NoiseNeverDies(l: int)
    requires 0 < l < 0x800000
    ensures 0 < Shifted(l) < 0x800000
  {
  }

  function Unshifted(r: int): int {
    r / 2 + (r + r / 0x40000) % 2 * 0x400000
  }

  lemma {:induction false} UnshiftedUndoes(l: int)
    requires 0 <= l < 0x800000
    ensures Unshifted(Shifted(l)) == l
  {
    var top, mid, low := l / 0x400000, l / 0x20000 % 32, l % 0x20000;
    assert l == 0x400000 * top + 0x20000 * mid + low && 0 <= top < 2;
    ShiftedParts(top, mid, low);
  }

  lemma {:induction false} ShiftedParts(top: int, mid: int, low: int)
    requires 0 <= top < 2 && 0 <= mid < 32 && 0 <= low < 0x20000
    ensures var l := 0x400000 * top + 0x20000 * mid + low;
      var r := 2 * (0x20000 * mid + low) + (top + mid) % 2;
      Shifted(l) == r && Unshifted(r) == l
  {
    TopBits(top, mid, low);
    var fed := (top + mid) % 2;
    LowBits(mid, low, fed);
    FedBack(top, mid, fed);
  }

  /** The register's upper bits, and what is left when the top one is shifted out. */
  lemma {:induction false} TopBits(top: int, mid: int, low: int)
    requires 0 <= top < 2 && 0 <= mid < 32 && 0 <= low < 0x20000
    ensures var l := 0x400000 * top + 0x20000 * mid + low;
      Shifted(l) == 2 * (0x20000 * mid + low) + (top + mid) % 2
  {
    var l := 0x400000 * top + 0x20000 * mid + low;
    assert l / 0x400000 == top;
    assert l / 0x20000 == 32 * top + mid;
    assert (top + (32 * top + mid)) % 2 == (top + mid) % 2;
  }

  lemma {:induction false} LowBits(mid: int, low: int, fed: int)
    requires 0 <= mid < 32 && 0 <= low < 0x20000 && 0 <= fed < 2
    ensures var r := 2 * (0x20000 * mid + low) + fed;
      Unshifted(r) == 0x20000 * mid + low + (fed + mid) % 2 * 0x400000
  {
    var r := 2 * (0x20000 * mid + low) + fed;
    assert r / 0x40000 == mid;
    assert r / 2 == 0x20000 * mid + low;
    assert (r + mid) % 2 == (fed + mid) % 2;
  }

  lemma {:induction false} FedBack(top: int, mid: int, fed: int)
    requires 0 <= top < 2 && fed == (top + mid) % 2
    ensures (fed + mid) % 2 == top
  {
  }

  /** Two registers never become one, so each has one before it. */
  lemma {:induction false} ShiftIsInjective(l: int, m: int)
    requires 0 <= l < 0x800000 && 0 <= m < 0x800000
    ensures Shifted(l) == Shifted(m) <==> l == m
  {
    UnshiftedUndoes(l);
    UnshiftedUndoes(m);
  }

  // -- every reachable state

  ghost predicate SoundEnvelope(v: Envelope) {
    && 0 <= v.env <= FULL && (v.phase == Idle ==> v.env == 0)
    && 0 <= v.sus <= 255
    && v.aInc >= 1 && v.dInc >= 1 && v.rInc >= 1
  }

  ghost predicate SoundOsc(v: Osc) {
    0 <= v.acc < TWO32 && 0 < v.lfsr < 0x800000 && 0 <= v.pw < 0x1000
  }

  ghost predicate SoundVoice(v: Voice) {
    SoundEnvelope(v.envelope) && SoundOsc(v.osc)
  }

  ghost predicate SoundCore(c: Core) {
    && (forall v | 0 <= v < 3 :: SoundVoice(c.voices[v]))
    && 0 <= c.cutoff <= 0x7FF && 0 <= c.resonance <= 15 && 0 <= c.mode <= 7 && 0 <= c.volume <= 15
  }

  lemma {:induction false} NewChipIsSound(coefs: Coefs, filter: Filter)
    ensures SoundCore(NewChip(coefs, filter).core)
  {
  }

  lemma {:induction false} WriteIsSound(c: Core, w: Write)
    requires SoundCore(c) && Addressed(w)
    ensures SoundCore(Written(c, w))
  {
    if !w.Volume? && !w.FilterTo? {
      WriteVoiceIsSound(c.voices[w.v], w);
    }
  }

  lemma {:induction false} WriteVoiceIsSound(v: Voice, w: Write)
    requires SoundVoice(v) && Addressed(w) && !w.Volume? && !w.FilterTo?
    ensures SoundVoice(WriteVoice(v, w))
  {
  }

  lemma {:induction false} EnvelopeIsSound(v: Envelope)
    requires SoundEnvelope(v)
    ensures SoundEnvelope(AdvanceEnvelope(v))
  {
  }

  lemma {:induction false} OscillateIsSound(v: Voice, sourceWrapped: bool)
    requires SoundVoice(v)
    ensures SoundVoice(Oscillate(v, sourceWrapped))
  {
    NoiseNeverDies(v.osc.lfsr);
    EnvelopeIsSound(v.envelope);
  }

  lemma {:induction false} SoundedIsSound(a: Analog, c: Core)
    requires SoundCore(c)
    ensures SoundCore(Sounded(a, c).0)
  {
    forall v | 0 <= v < 3
      ensures SoundVoice(VoiceAfter(c.voices, v))
    {
      OscillateIsSound(c.voices[v], Wrapped(c.voices[Source(v)].osc));
    }
  }

  lemma {:induction false} RewrittenIsSound(c: Core, ws: seq<Poke>)
    requires SoundCore(c)
    ensures SoundCore(Rewritten(c, ws))
  {
    if ws != [] {
      RewrittenIsSound(c, ws[..|ws| - 1]);
      WriteIsSound(Rewritten(c, ws[..|ws| - 1]), ws[|ws| - 1]);
    }
  }

  lemma {:induction false} SampleIsSound(a: Analog, routine: Routine, s: State)
    requires SoundCore(s.core)
    ensures SoundCore(Sample(a, routine, s).0.core)
  {
    RewrittenIsSound(s.core, routine(s.core, s.frame + 1));
    SoundedIsSound(a, Counted(a, routine, s).core);
  }

  /** However long a chip runs, its envelopes stay in range and its noise alive. */
  lemma {:induction false} SamplesAreSound(a: Analog, routine: Routine, s: State, n: nat)
    requires SoundCore(s.core)
    ensures SoundCore(Samples(a, routine, s, n).0.core)
  {
    if n > 0 {
      SamplesAreSound(a, routine, s, n - 1);
      var before := Samples(a, routine, s, n - 1).0;
      SampleIsSound(a, routine, before);
    }
  }

  // -- releases

  /** A voice's envelope alone, after n samples. */
  function Enveloped(v: Envelope, n: nat): (r: Envelope)
    ensures r == v.(env := r.env, phase := r.phase)
  {
    if n == 0 then v else AdvanceEnvelope(Enveloped(v, n - 1))
  }

  lemma {:induction false} FallOf(inc: nat, level: int)
    ensures inc >= 30 ==> Fall(inc, level) >= 1
    ensures inc < 30 ==> Fall(inc, level) < 30 && (level <= 6 ==> Fall(inc, level) == 0)
  {
  }

  /** The tail flattens: the lower the level, the slower it falls. */
  lemma {:induction false} TailFlattens(inc: nat, low: int, high: int)
    requires low <= high
    ensures Fall(inc, low) <= Fall(inc, high) <= inc
    ensures high > 93 ==> Fall(inc, high) == inc
  {
  }

  /** A release that steps by 30 or more loses a step each sample, at the least. */
  lemma {:induction false} ReleaseFalls(v: Envelope, n: nat)
    requires v.phase == Release && v.rInc >= 30
    ensures var r := Enveloped(v, n); r.phase == Idle || (r.phase == Release && r.env <= v.env - n)
  {
    if n > 0 {
      ReleaseFalls(v, n - 1);
      FallOf(v.rInc, Enveloped(v, n - 1).env / 65536);
    }
  }

  /** One that steps by less stops short: the last division rounds it to nothing. */
  lemma {:induction false} ReleaseHangs(v: Envelope, n: nat)
    requires v.phase == Release && v.rInc < 30 && v.env > 0
    ensures var r := Enveloped(v, n); r.phase == Release && r.env > 0
  {
    if n > 0 {
      ReleaseHangs(v, n - 1);
      FallOf(v.rInc, Enveloped(v, n - 1).env / 65536);
    }
  }

  ghost predicate Ends(v: Envelope) {
    exists n: nat :: Enveloped(v, n).phase == Idle
  }

  lemma {:induction false} ReleaseEndsByRate(v: Envelope)
    requires SoundEnvelope(v) && v.phase == Release
    ensures Ends(v) <==> v.rInc >= 30 || v.env == 0
  {
    if v.rInc >= 30 {
      ReleaseFalls(v, v.env + 1);
      ReleaseStays(v, v.env + 1);
    } else if v.env == 0 {
      ReleaseStays(v, 1);
      ReleaseOnly(v, 1);
    } else {
      forall n: nat
        ensures Enveloped(v, n).phase == Release
      {
        ReleaseHangs(v, n);
      }
    }
  }

  /** While it is released its envelope is above nothing, after a sample or more. */
  lemma {:induction false} ReleaseStays(v: Envelope, n: nat)
    requires v.phase == Release && n > 0
    ensures Enveloped(v, n).phase == Release ==> Enveloped(v, n).env > 0
  {
    if n > 1 {
      ReleaseStays(v, n - 1);
    }
  }

  lemma {:induction false} ReleaseOnly(v: Envelope, n: nat)
    requires v.phase == Release
    ensures Enveloped(v, n).phase == Idle || (Enveloped(v, n).phase == Release && Enveloped(v, n).env <= v.env)
  {
    if n > 0 {
      ReleaseOnly(v, n - 1);
    }
  }

  /** A released voice falls silent exactly for the release registers 0 to 13, or when it is
      silent already. */
  lemma {:induction false} ReleaseEnds(v: Envelope, register: int)
    requires SoundEnvelope(v) && v.phase == Release && 0 <= register < 16 && v.rInc == SlowIncrement(register)
    ensures Ends(v) <==> register <= 13 || v.env == 0
  {
    SlowIncrements(register);
    ReleaseEndsByRate(v);
  }

  lemma {:induction false} DivideAtLeast(n: nat, d: nat, k: nat)
    requires d > 0 && n >= d * k
    ensures n / d >= k
  {
    var q := n / d;
    assert d * (k - q) == d * k - d * q <= n % d < d;
    if k - q >= 1 {
      TimesAtLeast(d, k - q);
    }
  }

  lemma {:induction false} TimesAtLeast(d: nat, m: nat)
    requires m >= 1
    ensures d * m >= d
  {
  }

  lemma {:induction false} RateOf(ms: nat)
    requires 1 <= ms <= 9000
    ensures RateIncrement(ms) >= 38
  {
    var samples := ms * SAMPLE_RATE / 1000;
    assert samples == ms * 48;
    DivideAtLeast(FULL, samples, 38);
  }

  lemma {:induction false} SlowIncrements(register: int)
    requires 0 <= register < 16
    ensures register <= 13 ==> SlowIncrement(register) >= 38
    ensures register == 14 ==> SlowIncrement(register) == 23
    ensures register == 15 ==> SlowIncrement(register) == 14
  {
    AttackTimes(register);
    SlowestRates();
    if register <= 13 {
      RateOf(ATTACK_MS[register] * 3);
    }
  }

  lemma {:induction false} SlowestRates()
    ensures RateIncrement(5000 * 3) == 23 && RateIncrement(8000 * 3) == 14
  {
    assert 5000 * 3 * SAMPLE_RATE / 1000 == 720000 && 8000 * 3 * SAMPLE_RATE / 1000 == 1152000;
    assert FULL == 720000 * 23 + 151680 && FULL == 1152000 * 14 + 583680;
  }

  lemma {:induction false} AttackTimes(register: int)
    requires 0 <= register < 16
    ensures register <= 13 ==> 2 <= ATTACK_MS[register] <= 3000
    ensures register == 14 ==> ATTACK_MS[register] == 5000
    ensures register == 15 ==> ATTACK_MS[register] == 8000
  {
  }

  lemma {:induction false} SmallestFalls(level: int)
    ensures Fall(23, level) == 0 <==> level <= 6
    ensures Fall(14, level) == 0 <==> level <= 14
  {
  }

  lemma {:induction false} HangsAt(v: Envelope)
    requires SoundEnvelope(v) && v.phase == Release && (v.rInc == 23 || v.rInc == 14)
    ensures AdvanceEnvelope(v) == v <==> v.env > 0 && Level(v) <= (if v.rInc == 23 then 6 else 14)
  {
    SmallestFalls(v.env / 65536);
  }

  /** Where registers 14 and 15 hang: at level 6 and below, at level 14 and below. */
  lemma {:induction false} WhereReleasesHang(v: Envelope, register: int)
    requires SoundEnvelope(v) && v.phase == Release && 14 <= register < 16 && v.rInc == SlowIncrement(register)
    ensures AdvanceEnvelope(v) == v <==> v.env > 0 && Level(v) <= HangLevel(register)
  {
    SlowIncrements(register);
    HangsAt(v);
  }

  /** The level below which a release of this register hangs. */
  function HangLevel(register: int): int {
    if register == 14 then 6 else 14
  }

  /** What such a release steps by. */
  function HangRate(register: int): int {
    if register == 14 then 23 else 14
  }

  /** A sample from which the envelope never changes again, and at what level. */
  ghost predicate RestsAt(v: Envelope, level: int) {
    exists n: nat :: AdvanceEnvelope(Enveloped(v, n)) == Enveloped(v, n) && Level(Enveloped(v, n)) == level
  }

  /** Above it, one step down lands above it or exactly on it. */
  lemma {:induction false} StepsOnto(v: Envelope, register: int)
    requires v.phase == Release && v.rInc == HangRate(register)
    requires v.env / 65536 > HangLevel(register)
    ensures var r := AdvanceEnvelope(v);
      && r.phase == Release && 0 < r.env <= v.env - 1
      && r.env / 65536 >= HangLevel(register)
  {
  }

  lemma {:induction false} ComesDown(v: Envelope, register: int, n: nat)
    requires SoundEnvelope(v) && v.phase == Release && v.rInc == HangRate(register)
    requires v.env / 65536 > HangLevel(register)
    ensures RestsAt(v, HangLevel(register)) ||
      (Enveloped(v, n).phase == Release && Enveloped(v, n).env / 65536 > HangLevel(register)
        && Enveloped(v, n).env <= v.env - n)
  {
    if n > 0 {
      ComesDown(v, register, n - 1);
      var before, after := Enveloped(v, n - 1), Enveloped(v, n);
      if before.phase == Release && before.env / 65536 > HangLevel(register) {
        StepsOnto(before, register);
        if after.env / 65536 == HangLevel(register) {
          SmallestFalls(after.env / 65536);
          assert AdvanceEnvelope(after) == after && Level(after) == HangLevel(register);
        }
      }
    }
  }

  /** A release of register 14 or 15 that is not silent comes to rest: at level 6, or 14, if it
      begins above, and at once if it does not. */
  lemma {:induction false} ReleaseRests(v: Envelope, register: int)
    requires SoundEnvelope(v) && v.phase == Release && v.env > 0
    requires 14 <= register < 16 && v.rInc == SlowIncrement(register)
    ensures RestsAt(v, if Level(v) > HangLevel(register) then HangLevel(register) else Level(v))
  {
    SlowIncrements(register);
    if Level(v) > HangLevel(register) {
      ComesDown(v, register, v.env + 1);
    } else {
      HangsAt(v);
      assert Enveloped(v, 0) == v;
    }
  }

  /** An attack always reaches the top and goes on to its decay: its rate is at least one. */
  lemma {:induction false} AttackPeaks(v: Envelope)
    requires SoundEnvelope(v) && v.phase == Attack
    ensures Peaks(v)
  {
    AttackClimbs(v, FULL + 1);
  }

  ghost predicate Peaks(v: Envelope) {
    exists k: nat :: Enveloped(v, k).phase == Decay && Enveloped(v, k).env == FULL
  }

  lemma {:induction false} AttackClimbs(v: Envelope, n: nat)
    requires SoundEnvelope(v) && v.phase == Attack
    ensures Peaks(v) || (Enveloped(v, n).phase == Attack && v.env + n <= Enveloped(v, n).env <= FULL)
  {
    if n > 0 {
      AttackClimbs(v, n - 1);
      var before, after := Enveloped(v, n - 1), Enveloped(v, n);
      if before.phase == Attack && after.phase != Attack {
        assert after.phase == Decay && after.env == FULL;
      }
    }
  }
}
