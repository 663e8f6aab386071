/** The chip as an object: registers poked one at a time, samples rendered into a buffer. */
module ChipObject {
  import opened Runs
  import opened ChipModel
  import opened ChipTheorems

  lemma {:induction false} SoundedOne(before: Voices, now: Voices, v: int)
    requires 0 <= v < 3 && now == VoicesAfter(before)[..v] + before[v..]
    ensures now[v] == before[v]
    ensures now[v := VoiceAfter(before, v)] == VoicesAfter(before)[..v + 1] + before[v + 1..]
    ensures Parts(before)[..v] + [Part(before, v)] == Parts(before)[..v + 1]
  {
  }

  /** advanceEnvelope, of one voice. */
  method Advanced(was: Envelope) returns (e: Envelope, level: int)
    ensures e == AdvanceEnvelope(was) && level == Level(e)
  {
    e := was;
    if e.phase == Idle {
      return e, 0;
    }
    var env := e.env;
    if e.phase == Attack {
      env := env + e.aInc;
      if env >= FULL {
        env := FULL;
        e := e.(phase := Decay);
      }
    } else if e.phase == Decay {
      env := env - Fall(e.dInc, env / 65536);
      if env <= e.sus * 65536 {
        env := e.sus * 65536;
        e := e.(phase := Sustain);
      }
    } else if e.phase == Release {
      env := env - Fall(e.rInc, env / 65536);
      if env <= 0 {
        env := 0;
        e := e.(phase := Idle);
      }
    }
    e := e.(env := env);
    level := env / 65536;
  }

  /** One oscillator moved on, with its noise register. */
  method Turned(was: Osc, sourceWrapped: bool) returns (o: Osc)
    ensures o == Moved(was, Synced(was, sourceWrapped))
  {
    o := was;
    var acc := Raw(o);
    if o.sync && sourceWrapped {
      acc := 0;
    }
    if Rising(o.acc, acc) {
      o := o.(lfsr := Shifted(o.lfsr));
    }
    o := o.(prev := o.acc, acc := acc);
  }

  class Chip {
    const analog: Analog
    var voices: Voices
    var tick: int
    var cutoff: int
    var resonance: int
    var mode: int
    var volume: int
    var frame: int
    var dirty: bool
    var coefs: Coefs
    var filter: Filter

    function Registers(): Core
      reads this
    {
      Core(voices, cutoff, resonance, mode, volume, dirty, coefs, filter)
    }

    function Here(): State
      reads this
    {
      State(Registers(), tick, frame)
    }

    constructor (analog: Analog, coefs: Coefs, filter: Filter)
      ensures this.analog == analog && Here() == NewChip(coefs, filter)
    {
      this.analog, this.coefs, this.filter := analog, coefs, filter;
      voices := [NewVoice(), NewVoice(), NewVoice()];
      tick, cutoff, resonance, mode, volume, frame, dirty := FRAME, 1024, 0, 1, 15, 0, true;
    }

    // -- registers

    method Poke(v: int, w: Write)
      requires 0 <= v < 3 && !w.Volume? && !w.FilterTo? && w.v == v
      modifies this`voices
      ensures Registers() == Written(old(Registers()), w)
    {
      voices := voices[v := WriteVoice(voices[v], w)];
    }

    method SetVolume(level: int)
      modifies this`volume
      ensures Registers() == Written(old(Registers()), Volume(level))
    {
      volume := Clamp(level, 0, 15);
    }

    method SetFilter(c: int, r: int, m: int)
      modifies this`cutoff, this`resonance, this`mode, this`dirty
      ensures Registers() == Written(old(Registers()), FilterTo(c, r, m))
    {
      cutoff, resonance, mode, dirty := Clamp(c, 0, 0x7FF), Nibble(r), m % 8, true;
    }

    // -- samples

    method RecomputeFilter()
      modifies this`coefs, this`dirty
      ensures Registers() == old(Registers()).(coefs := analog.coefs(cutoff, resonance), dirty := false)
    {
      coefs, dirty := analog.coefs(cutoff, resonance), false;
    }

    /** Any register. */
    method Write(w: Poke)
      modifies this`voices, this`cutoff, this`resonance, this`mode, this`volume, this`dirty
      ensures Registers() == Written(old(Registers()), w)
    {
      match w
      case Volume(level) => SetVolume(level);
      case FilterTo(c, r, m) => SetFilter(c, r, m);
      case _ => Poke(w.v, w);
    }

    method RunRoutine(routine: Routine)
      modifies this`voices, this`cutoff, this`resonance, this`mode, this`volume, this`dirty
      ensures Registers() == Rewritten(old(Registers()), routine(old(Registers()), frame))
    {
      var ws := routine(Registers(), frame);
      for i := 0 to |ws|
        invariant Registers() == Rewritten(old(Registers()), ws[..i])
      {
        assert ws[..i + 1][..i] == ws[..i];
        Write(ws[i]);
      }
      assert ws[..|ws|] == ws;
    }

    method Count(routine: Routine)
      modifies this
      ensures Here() == Counted(analog, routine, old(Here()))
    {
      var countdown := tick - 1;
      if countdown <= 0 {
        countdown := FRAME;
        frame := frame + 1;
        RunRoutine(routine);
        if dirty {
          RecomputeFilter();
        }
      }
      tick := countdown;
    }

    /** The three oscillators moved on together, then each synced, shifted and sounded. */
    method Sound() returns (parts: seq<(int, bool)>)
      modifies this`voices
      ensures voices == VoicesAfter(old(voices)) && parts == Parts(old(voices))
    {
      var before := voices;
      var raw := [Raw(before[0].osc), Raw(before[1].osc), Raw(before[2].osc)];
      var wrapped := [Wrapped(before[0].osc), Wrapped(before[1].osc), Wrapped(before[2].osc)];
      ghost var after, all := VoicesAfter(before), Parts(before);
      parts := [];
      for v := 0 to 3
        invariant parts == all[..v]
        invariant voices == after[..v] + before[v..]
      {
        SoundedOne(before, voices, v);
        var part := SoundOne(v, raw[Source(v)], wrapped[Source(v)]);
        parts := parts + [part];
      }
    }

    method SoundOne(v: int, sourceRaw: int, sourceWrapped: bool) returns (part: (int, bool))
      requires 0 <= v < 3
      modifies this`voices
      ensures voices == old(voices)[v := Oscillate(old(voices)[v], sourceWrapped)] && part == Put(voices[v], sourceRaw)
    {
      var osc := Turned(voices[v].osc, sourceWrapped);
      var w := Output(osc, sourceRaw);
      var envelope, level := Advanced(voices[v].envelope);
      voices := voices[v := voices[v].(osc := osc, envelope := envelope)];
      part := ((w - 2048) * level, voices[v].filtered);
    }

    method OneSample(routine: Routine) returns (out: Float)
      modifies this
      ensures (Here(), out) == Sample(analog, routine, old(Here()))
    {
      Count(routine);
      var parts := Sound();
      var (next, sample) := analog.mix(filter, coefs, parts, mode, volume);
      filter, out := next, sample;
    }

    /** The samples go into the buffer from a place on; nothing else of it changes. */
    method Render(dest: array<Float>, at: nat, frames: nat, routine: Routine)
      requires at + frames <= dest.Length
      modifies this, dest
      ensures var (after, outs) := Rendered(analog, routine, old(Here()), frames);
        Here() == after && dest[..] == old(dest[..at]) + outs + old(dest[at + frames..])
    {
      if dirty {
        RecomputeFilter();
      }
      Fill(dest, at, frames, routine);
    }

    method Fill(dest: array<Float>, at: nat, frames: nat, routine: Routine)
      requires at + frames <= dest.Length
      modifies this, dest
      ensures var (after, outs) := Samples(analog, routine, old(Here()), frames);
        Here() == after && dest[..] == old(dest[..at]) + outs + old(dest[at + frames..])
    {
      ghost var begun, before := Here(), dest[..];
      ghost var outs: seq<Float> := [];
      assert dest[..] == before[..at] + [] + before[at..];
      for i := 0 to frames
        invariant (Here(), outs) == Samples(analog, routine, begun, i)
        invariant dest[..] == before[..at] + outs + before[at + i..]
      {
        ghost var was := Here();
        var out := OneSample(routine);
        dest[at + i] := out;
        SamplesStep(analog, routine, begun, i, was, outs, Here(), out);
        Stored(before, at, i, outs, out, dest[..]);
        outs := outs + [out];
      }
    }
  }

  lemma {:induction false} SamplesStep(a: Analog, routine: Routine, s: State, n: nat, was: State, outs: seq<Float>,
                                       now: State, out: Float)
    requires Samples(a, routine, s, n) == (was, outs) && Sample(a, routine, was) == (now, out)
    ensures Samples(a, routine, s, n + 1) == (now, outs + [out])
  {
  }

  lemma {:induction false} Stored(before: seq<Float>, at: nat, i: nat, outs: seq<Float>, out: Float, now: seq<Float>)
    requires at + i < |before| && |outs| == i
    requires now == (before[..at] + outs + before[at + i..])[at + i := out]
    ensures now == before[..at] + (outs + [out]) + before[at + (i + 1)..]
  {
  }

  /** A register written, or a call of render with its routine. */
  datatype Event = Poked(w: Poke) | Called(frames: nat, routine: Routine)

  function Happened(a: Analog, s: State, event: Event): State {
    match event
    case Poked(w) => s.(core := Written(s.core, w))
    case Called(frames, routine) => Rendered(a, routine, s, frames).0
  }

  function After(a: Analog, s: State, events: seq<Event>): State {
    Fold(Happener(a), s, events)
  }

  function Happener(a: Analog): (State, Event) -> State {
    (s, event) => Happened(a, s, event)
  }

  /** Every reachable state is sound: envelopes in 0..255, accumulators in 32 bits, noise alive in
      23 bits, registers in range. */
  lemma {:induction false} ReachableIsSound(a: Analog, coefs: Coefs, filter: Filter, events: seq<Event>)
    ensures SoundCore(After(a, NewChip(coefs, filter), events).core)
  {
    NewChipIsSound(coefs, filter);
    forall s: State, event: Event | SoundCore(s.core)
      ensures SoundCore(Happener(a)(s, event).core)
    {
      EventIsSound(a, s, event);
    }
    FoldKeeps(Happener(a), (s: State) => SoundCore(s.core), NewChip(coefs, filter), events);
  }

  lemma {:induction false} EventIsSound(a: Analog, s: State, event: Event)
    requires SoundCore(s.core)
    ensures SoundCore(Happened(a, s, event).core)
  {
    match event
    case Poked(w) => WriteIsSound(s.core, w);
    case Called(frames, routine) => SamplesAreSound(a, routine, s.(core := Prepared(a, s.core)), frames);
  }

  // -- the filter

  /** The filter's coefficients are those of its registers, or waiting to be worked out. */
  ghost predicate Tuned(a: Analog, c: Core) {
    c.dirty || c.coefs == a.coefs(c.cutoff, c.resonance)
  }

  /** So they are in every reachable state. */
  lemma {:induction false} ReachableIsTuned(a: Analog, coefs: Coefs, filter: Filter, events: seq<Event>)
    ensures Tuned(a, After(a, NewChip(coefs, filter), events).core)
  {
    forall s: State, event: Event | Tuned(a, s.core)
      ensures Tuned(a, Happener(a)(s, event).core)
    {
      if event.Called? {
        SamplesAreTuned(a, event.routine, s.(core := Prepared(a, s.core)), event.frames);
      }
    }
    FoldKeeps(Happener(a), (s: State) => Tuned(a, s.core), NewChip(coefs, filter), events);
  }

  lemma {:induction false} SamplesAreTuned(a: Analog, routine: Routine, s: State, n: nat)
    requires Tuned(a, s.core) && !s.core.dirty
    ensures var r := Samples(a, routine, s, n).0; Tuned(a, r.core) && !r.core.dirty
  {
    if n > 0 {
      SamplesAreTuned(a, routine, s, n - 1);
      SampleIsTuned(a, routine, Samples(a, routine, s, n - 1).0);
    }
  }

  /** A sample is mixed with the coefficients of the registers as they are in it. When it begins a
      frame the routine has written them, from what they were and the number of that frame. */
  lemma {:induction false} SampleIsTuned(a: Analog, routine: Routine, s: State)
    requires Tuned(a, s.core) && !s.core.dirty
    ensures var (r, out) := Sample(a, routine, s);
      var c := if r.tick == 960 && s.tick <= 1 then Rewritten(s.core, routine(s.core, r.frame)) else s.core;
      && Tuned(a, r.core) && !r.core.dirty
      && r.core.cutoff == c.cutoff && r.core.resonance == c.resonance && r.core.mode == c.mode
      && r.core.volume == c.volume && r.core.voices == VoicesAfter(c.voices)
      && (r.core.filter, out) == a.mix(c.filter, a.coefs(c.cutoff, c.resonance), Parts(c.voices), c.mode, c.volume)
  {
    if s.tick - 1 <= 0 {
      RewrittenIsTuned(a, s.core, routine(s.core, s.frame + 1));
    }
  }

  lemma {:induction false} RewrittenIsTuned(a: Analog, c: Core, ws: seq<Poke>)
    requires Tuned(a, c)
    ensures Tuned(a, Rewritten(c, ws))
  {
    if ws != [] {
      RewrittenIsTuned(a, c, ws[..|ws| - 1]);
    }
  }

  function LengthOf(event: Event): nat {
    if event.Called? then event.frames else 0
  }

  /** All the samples rendered. */
  function TotalOf(events: seq<Event>): nat {
    if events == [] then 0
    else
      var n := |events| - 1;
      TotalOf(events[..n]) + LengthOf(events[n])
  }

  /** After n samples of a new chip, in however many calls and whatever is written in between, the
      frame is n / 960 and the countdown 960 - n mod 960. */
  lemma {:induction false} FrameOfANewChip(a: Analog, coefs: Coefs, filter: Filter, events: seq<Event>)
    ensures var r, n := After(a, NewChip(coefs, filter), events), TotalOf(events);
      r.frame == n / FRAME && r.tick == FRAME - n % FRAME
  {
    if events != [] {
      var n := |events| - 1;
      FrameOfANewChip(a, coefs, filter, events[..n]);
      var before := After(a, NewChip(coefs, filter), events[..n]);
      match events[n]
      case Poked(_) =>
      case Called(frames, routine) =>
        FramesAreCounted(a, routine, before.(core := Prepared(a, before.core)), frames, TotalOf(events[..n]));
    }
  }
}
