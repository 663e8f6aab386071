/** The reference player: steps applied when they are due, samples rendered in spans between them. */
module Player {
  import opened AbcSchedule
  import opened ChipModel
  import opened ChipTheorems
  import opened ChipObject
  import opened Spans

  datatype Adsrs = Adsrs(a: int, d: int, s: int, r: int)

  type Three = s: seq<int> | |s| == 3 witness [0, 0, 0]

  const NEW_ADSR := Adsrs(0, 9, 0, 9)

  type ThreeAdsrs = s: seq<Adsrs> | |s| == 3 witness [NEW_ADSR, NEW_ADSR, NEW_ADSR]

  /** The chip, which note each of its voices plays, and since when. */
  datatype Rig = Rig(chip: State, note: Three, age: Three, adsr: ThreeAdsrs)

  /** The frequency register of a note. */
  type Tuning = int -> int

  const QUIET: Routine := (c, frame) => []

  // -- one step

  /** The first voice that is free, else the first that has died away, else the oldest. */
  function Allocated(note: Three, age: Three, voices: Voices): (v: int)
    ensures 0 <= v < 3
  {
    if note[0] < 0 then 0
    else if note[1] < 0 then 1
    else if note[2] < 0 then 2
    else if voices[0].envelope.phase == Idle then 0
    else if voices[1].envelope.phase == Idle then 1
    else if voices[2].envelope.phase == Idle then 2
    else
      var older := if age[1] < age[0] then 1 else 0;
      if age[2] < age[older] then 2 else older
  }

  /** The first voice that plays a note, or 3. */
  function Playing(note: Three, midi: int): (v: int)
    ensures 0 <= v <= 3
    ensures v < 3 ==> note[v] == midi
    ensures forall u | 0 <= u < v :: note[u] != midi
  {
    if note[0] == midi then 0 else if note[1] == midi then 1 else if note[2] == midi then 2 else 3
  }

  function Wrote(s: State, w: Write): State
    requires Addressed(w)
  {
    s.(core := Written(s.core, w))
  }

  function NotedOn(tuning: Tuning, rig: Rig, midi: int, now: int): Rig
  {
    var v := Allocated(rig.note, rig.age, rig.chip.core.voices);
    var note := rig.note[v := midi];
    rig.(chip := Wrote(Wrote(rig.chip, Frequency(v, tuning(midi))), GateOn(v)),
         note := note,
         age := rig.age[Playing(note, midi) := now])
  }

  function NotedOff(rig: Rig, midi: int): Rig
  {
    var v := Playing(rig.note, midi);
    if v == 3 then rig else rig.(chip := Wrote(rig.chip, GateOff(v)), note := rig.note[v := -1])
  }

  function Shape(e: Adsrs, param: int, value: int): Adsrs {
    if param == 3 then e.(a := value)
    else if param == 4 then e.(d := value)
    else if param == 5 then e.(s := value)
    else e.(r := value)
  }

  function Chipped(rig: Rig, v: int, param: int, value: int): Rig
  {
    var c := rig.chip.core;
    if param == 20 then rig.(chip := Wrote(rig.chip, FilterTo(value, c.resonance, c.mode)))
    else if param == 21 then rig.(chip := Wrote(rig.chip, FilterTo(c.cutoff, value, c.mode)))
    else if param == 22 then rig.(chip := Wrote(rig.chip, FilterTo(c.cutoff, c.resonance, value)))
    else if param == 23 then rig.(chip := Wrote(rig.chip, Volume(value)))
    else if !(0 <= v < 3) then rig
    else if param == 1 then rig.(chip := Wrote(rig.chip, Wave(v, value)))
    else if param == 2 then rig.(chip := Wrote(rig.chip, PulseWidth(v, value)))
    else if param == 7 then rig.(chip := Wrote(rig.chip, Route(v, value != 0)))
    else if 3 <= param <= 6 then
      var e := Shape(rig.adsr[v], param, value);
      rig.(adsr := rig.adsr[v := e], chip := Wrote(rig.chip, Adsr(v, e.a, e.d, e.s, e.r)))
    else rig
  }

  function Applied(tuning: Tuning, rig: Rig, cue: Cue, now: int): Rig
  {
    match cue.kind
    case Chip => Chipped(rig, cue.voice - 1, cue.param, cue.value)
    case NoteOn => NotedOn(tuning, rig, cue.midi, now)
    case NoteOff => NotedOff(rig, cue.midi)
  }

  // -- the tune

  function Spun(a: Analog, rig: Rig, n: nat): (r: (Rig, seq<Float>))
    ensures |r.1| == n
  {
    var (chip, outs) := Rendered(a, QUIET, rig.chip, n);
    (rig.(chip := chip), outs)
  }

  function Synth(a: Analog, tuning: Tuning): Machine<Rig, Cue, Float> {
    Machine((rig, cue, now) => Applied(tuning, rig, cue, now), (cue: Cue) => cue.sample, (rig, n) => Spun(a, rig, n))
  }

  lemma {:induction false} SynthIsCuttable(a: Analog, tuning: Tuning)
    ensures Cuttable(Synth(a, tuning))
  {
    forall rig: Rig, n: nat
      ensures Synth(a, tuning).render(rig, n) == Spun(a, rig, n)
    {
      SynthRenders(a, tuning, rig, n);
    }
    SpunIsCuttable(Synth(a, tuning), a);
  }

  lemma {:induction false} SpunIsCuttable(m: Machine<Rig, Cue, Float>, a: Analog)
    requires forall rig, n: nat :: m.render(rig, n) == Spun(a, rig, n)
    ensures Cuttable(m)
  {
    forall rig: Rig, j: nat, k: nat
      ensures Cut(m, rig, j, k)
    {
      SpunIsCut(m, a, rig, j, k);
    }
  }

  lemma {:induction false} SynthApplies(a: Analog, tuning: Tuning, rig: Rig, cue: Cue, now: int)
    ensures Synth(a, tuning).apply(rig, cue, now) == Applied(tuning, rig, cue, now)
      && Synth(a, tuning).due(cue) == cue.sample
  {
  }

  lemma {:induction false} SynthRenders(a: Analog, tuning: Tuning, rig: Rig, n: nat)
    ensures Synth(a, tuning).render(rig, n) == Spun(a, rig, n)
  {
  }

  lemma {:induction false} SpunIsCut(m: Machine<Rig, Cue, Float>, a: Analog, rig: Rig, j: nat, k: nat)
    requires m.render(rig, j) == Spun(a, rig, j) && m.render(rig, j + k) == Spun(a, rig, j + k)
    requires m.render(Spun(a, rig, j).0, k) == Spun(a, Spun(a, rig, j).0, k)
    ensures Cut(m, rig, j, k)
  {
    CutAnywhere(a, QUIET, rig.chip, j, k);
  }

  /** A schedule comes out in the order the player wants. */
  lemma {:induction false} ScheduleIsInOrder(a: Analog, tuning: Tuning, cues: seq<Cue>, at: seq<nat>, out: seq<Cue>)
    requires Arranged(cues, at, out) && forall i | 0 <= i < |cues| :: cues[i].sample >= 0
    ensures InOrder(Synth(a, tuning), out)
  {
    forall i, j | 0 <= i < j < |out|
      ensures out[i].sample <= out[j].sample
    {
      assert Before(cues, at[i], at[j]);
    }
  }

  // -- voices

  /** A voice with no note, the first; else one that has died away, the first; else the one struck
      longest ago, the first. */
  lemma {:induction false} VoiceTaken(note: Three, age: Three, voices: Voices, v: int)
    requires v == Allocated(note, age, voices)
    ensures (exists u | 0 <= u < 3 :: note[u] < 0) ==> note[v] < 0 && forall u | 0 <= u < v :: note[u] >= 0
    ensures (forall u | 0 <= u < 3 :: note[u] >= 0) && (exists u | 0 <= u < 3 :: voices[u].envelope.phase.Idle?) ==>
      voices[v].envelope.phase.Idle? && forall u | 0 <= u < v :: !voices[u].envelope.phase.Idle?
    ensures (forall u | 0 <= u < 3 :: note[u] >= 0 && !voices[u].envelope.phase.Idle?) ==>
      forall u | 0 <= u < 3 :: age[v] < age[u] || (age[v] == age[u] && v <= u)
  {
  }

  /** Only the voice taken is touched: it gets the note's frequency and its gate opens. */
  lemma {:induction false} Strikes(tuning: Tuning, rig: Rig, cue: Cue, midi: int, now: int)
    requires cue.kind.NoteOn? && cue.midi == midi
    ensures var v, r := Allocated(rig.note, rig.age, rig.chip.core.voices), Applied(tuning, rig, cue, now);
      && (var was, after := rig.chip.core.voices[v], r.chip.core.voices[v];
          && after.osc == was.osc.(step := StepOf(tuning(midi)))
          && after.gate && after.envelope == was.envelope.(phase := Attack) && after.filtered == was.filtered)
      && r.chip == rig.chip.(core := rig.chip.core.(voices := rig.chip.core.voices[v := r.chip.core.voices[v]]))
      && r.note == rig.note[v := midi] && r.adsr == rig.adsr
      && (midi !in rig.note ==> r.age == rig.age[v := now])
  {
  }

  /** The first voice with the note is let go, and nothing else changes. */
  lemma {:induction false} LetsGo(tuning: Tuning, rig: Rig, cue: Cue, midi: int, v: int, now: int)
    requires cue.kind.NoteOff? && cue.midi == midi
    requires 0 <= v < 3 && rig.note[v] == midi && forall u | 0 <= u < v :: rig.note[u] != midi
    ensures var r := Applied(tuning, rig, cue, now);
      && (var was, after := rig.chip.core.voices[v], r.chip.core.voices[v];
          after == was.(gate := false, envelope := was.envelope.(phase := Release)))
      && r.chip == rig.chip.(core := rig.chip.core.(voices := rig.chip.core.voices[v := r.chip.core.voices[v]]))
      && r.note == rig.note[v := -1] && r.adsr == rig.adsr && r.age == rig.age
  {
  }

  // -- settings

  /** Each filter parameter leaves the other two. */
  lemma {:induction false} FilterSettings(rig: Rig, v: int, value: int)
    requires 0 <= value < 8 && 0 <= rig.chip.core.cutoff < 2048 && 0 <= rig.chip.core.resonance < 16
    requires 0 <= rig.chip.core.mode < 8
    ensures var c := rig.chip.core.(dirty := true);
      && Chipped(rig, v, 20, value).chip.core == c.(cutoff := value)
      && Chipped(rig, v, 21, value).chip.core == c.(resonance := value)
      && Chipped(rig, v, 22, value).chip.core == c.(mode := value)
    ensures Chipped(rig, v, 23, value).chip.core == rig.chip.core.(volume := value)
  {
  }

  /** A voice's parameters, by number, the voices numbered from one; anything else is ignored, and
      so is any voice there is not. */
  lemma {:induction false} VoiceSettings(tuning: Tuning, rig: Rig, cue: Cue, value: int, now: int)
    requires cue.kind.Chip? && cue.value == value && !(3 <= cue.param <= 6) && !(20 <= cue.param <= 23)
    ensures var v, r := cue.voice - 1, Applied(tuning, rig, cue, now);
      if !(1 <= cue.voice <= 3) then r == rig
      else if cue.param == 1 then r == rig.(chip := Wrote(rig.chip, Wave(v, value)))
      else if cue.param == 2 then r == rig.(chip := Wrote(rig.chip, PulseWidth(v, value)))
      else if cue.param == 7 then r == rig.(chip := Wrote(rig.chip, Route(v, value != 0)))
      else r == rig
  {
  }

  /** The four envelope parameters may come one by one: after all of them the voice has its
      envelope from all, and no other voice is touched. */
  lemma {:induction false} EnvelopeSettings(rig: Rig, v: int, a: int, d: int, s: int, r: int)
    requires 0 <= v < 3
    ensures Chipped(Chipped(Chipped(Chipped(rig, v, 3, a), v, 4, d), v, 5, s), v, 6, r)
      == rig.(chip := Wrote(rig.chip, Adsr(v, a, d, s, r)), adsr := rig.adsr[v := Adsrs(a, d, s, r)])
  {
    var first := Chipped(rig, v, 3, a);
    var second := Chipped(first, v, 4, d);
    var third := Chipped(second, v, 5, s);
    AdsrOverwrites(rig, first, v, Adsrs(a, first.adsr[v].d, first.adsr[v].s, first.adsr[v].r), 4, d);
    AdsrOverwrites(rig, second, v, second.adsr[v], 5, s);
    AdsrOverwrites(rig, third, v, third.adsr[v], 6, r);
  }

  lemma {:induction false} AdsrOverwrites(rig: Rig, now: Rig, v: int, e: Adsrs, param: int, value: int)
    requires 0 <= v < 3 && 3 <= param <= 6 && now.adsr[v] == e
    requires now == rig.(chip := Wrote(rig.chip, Adsr(v, e.a, e.d, e.s, e.r)), adsr := rig.adsr[v := e])
    ensures var f := Shape(e, param, value);
      Chipped(now, v, param, value)
        == rig.(chip := Wrote(rig.chip, Adsr(v, f.a, f.d, f.s, f.r)), adsr := rig.adsr[v := f])
  {
    var f := Shape(e, param, value);
    var voices := rig.chip.core.voices;
    assert WriteVoice(WriteVoice(voices[v], Adsr(v, e.a, e.d, e.s, e.r)), Adsr(v, f.a, f.d, f.s, f.r))
      == WriteVoice(voices[v], Adsr(v, f.a, f.d, f.s, f.r));
    assert now.chip.core.voices[v := WriteVoice(now.chip.core.voices[v], Adsr(v, f.a, f.d, f.s, f.r))]
      == voices[v := WriteVoice(voices[v], Adsr(v, f.a, f.d, f.s, f.r))];
    assert now.adsr[v := f] == rig.adsr[v := f];
  }

  /** No note is cut off while a voice is free. */
  lemma {:induction false} FreeVoicesFirst(tuning: Tuning, rig: Rig, midi: int, now: int, v: int)
    requires 0 <= v < 3 && rig.note[v] < 0
    ensures forall u | 0 <= u < 3 && rig.note[u] >= 0 :: NotedOn(tuning, rig, midi, now).note[u] == rig.note[u]
  {
  }

  /** A note struck on a free voice and let go leaves the voices as they were. */
  lemma {:induction false} OffUndoesOn(tuning: Tuning, rig: Rig, midi: int, now: int)
    requires midi >= 0 && midi !in rig.note
    requires (forall v | 0 <= v < 3 :: rig.note[v] >= -1) && exists v | 0 <= v < 3 :: rig.note[v] == -1
    ensures NotedOff(NotedOn(tuning, rig, midi, now), midi).note == rig.note
  {
    var v := Allocated(rig.note, rig.age, rig.chip.core.voices);
    assert Playing(rig.note[v := midi], midi) == v;
  }

  // -- the player

  class RefPlayer {
    const tuning: Tuning
    const chip: Chip
    var note: Three
    var age: Three
    var adsr: ThreeAdsrs

    function Here(): Rig
      reads this, chip
    {
      Rig(chip.Here(), note, age, adsr)
    }

    constructor (analog: Analog, coefs: Coefs, filter: Filter, tuning: Tuning)
      ensures fresh(chip) && chip.analog == analog && this.tuning == tuning
      ensures Here() == NewRig(coefs, filter)
    {
      this.tuning := tuning;
      chip := new Chip(analog, coefs, filter);
      note, age := [-1, -1, -1], [0, 0, 0];
      adsr := [NEW_ADSR, NEW_ADSR, NEW_ADSR];
    }

    method Allocate() returns (chosen: int)
      ensures chosen == Allocated(note, age, chip.voices)
    {
      chosen := -1;
      var v := 0;
      while v < 3 && chosen < 0
        invariant 0 <= v <= 3 && -1 <= chosen < 3
        invariant chosen >= 0 ==> note[chosen] < 0
        invariant forall u | 0 <= u < (if chosen < 0 then v else chosen) :: note[u] >= 0
      {
        if note[v] < 0 {
          chosen := v;
        }
        v := v + 1;
      }
      if chosen < 0 {
        v := 0;
        while v < 3 && chosen < 0
          invariant 0 <= v <= 3 && -1 <= chosen < 3
          invariant chosen >= 0 ==> chip.voices[chosen].envelope.phase == Idle
          invariant forall u | 0 <= u < (if chosen < 0 then v else chosen) :: chip.voices[u].envelope.phase != Idle
        {
          if chip.voices[v].envelope.phase == Idle {
            chosen := v;
          }
          v := v + 1;
        }
      }
      if chosen < 0 {
        chosen := if age[1] < age[0] then 1 else 0;
        chosen := if age[2] < age[chosen] then 2 else chosen;
      }
    }

    method NoteOn(midi: int, now: int)
      modifies this, chip
      ensures Here() == NotedOn(tuning, old(Here()), midi, now)
    {
      var chosen := Allocate();
      note := note[chosen := midi];
      chip.Poke(chosen, Frequency(chosen, tuning(midi)));
      chip.Poke(chosen, GateOn(chosen));
      age := age[Playing(note, midi) := now];
    }

    method NoteOff(midi: int)
      modifies this, chip
      ensures Here() == NotedOff(old(Here()), midi)
    {
      for v := 0 to 3
        invariant Here() == old(Here()) && forall u | 0 <= u < v :: note[u] != midi
      {
        if note[v] == midi {
          note := note[v := -1];
          chip.Poke(v, GateOff(v));
          return;
        }
      }
    }

    method ApplyChip(v: int, param: int, value: int)
      modifies this, chip
      ensures Here() == Chipped(old(Here()), v, param, value)
    {
      if param == 20 {
        chip.SetFilter(value, chip.resonance, chip.mode);
      } else if param == 21 {
        chip.SetFilter(chip.cutoff, value, chip.mode);
      } else if param == 22 {
        chip.SetFilter(chip.cutoff, chip.resonance, value);
      } else if param == 23 {
        chip.SetVolume(value);
      } else if 0 <= v < 3 {
        if param == 1 {
          chip.Poke(v, Wave(v, value));
        } else if param == 2 {
          chip.Poke(v, PulseWidth(v, value));
        } else if param == 7 {
          chip.Poke(v, Route(v, value != 0));
        } else if 3 <= param <= 6 {
          adsr := adsr[v := Shape(adsr[v], param, value)];
          chip.Poke(v, Adsr(v, adsr[v].a, adsr[v].d, adsr[v].s, adsr[v].r));
        }
      }
    }

    method Apply(cue: Cue, now: int)
      modifies this, chip
      ensures Here() == Applied(tuning, old(Here()), cue, now)
    {
      match cue.kind
      case Chip => ApplyChip(cue.voice - 1, cue.param, cue.value);
      case NoteOn => NoteOn(cue.midi, now);
      case NoteOff => NoteOff(cue.midi);
    }

    ghost function Machinery(): Machine<Rig, Cue, Float> {
      Synth(chip.analog, tuning)
    }

    method ApplyDue(cues: seq<Cue>, from: nat, now: int) returns (cursor: nat)
      requires from <= |cues|
      modifies this, chip
      ensures cursor <= |cues| && (Here(), cursor) == Due(Machinery(), cues, old(Here()), from, now)
    {
      cursor := from;
      ghost var m := Machinery();
      ghost var target := Due(m, cues, Here(), from, now);
      while cursor < |cues| && cues[cursor].sample <= now
        invariant from <= cursor <= |cues| && Due(m, cues, Here(), cursor, now) == target
      {
        SynthApplies(chip.analog, tuning, Here(), cues[cursor], now);
        DueGoesOn(m, cues, Here(), cursor, now);
        Apply(cues[cursor], now);
        cursor := cursor + 1;
      }
      if cursor < |cues| {
        SynthApplies(chip.analog, tuning, Here(), cues[cursor], now);
      }
      DueStays(m, cues, Here(), cursor, now);
    }

    method Span(dest: array<Float>, at: nat, span: nat)
      requires at + span <= dest.Length
      modifies this, chip, dest
      ensures var (after, outs) := Machinery().render(old(Here()), span);
        Here() == after && dest[..at + span] == old(dest[..at]) + outs
    {
      chip.Render(dest, at, span, QUIET);
    }

    method Turn(cues: seq<Cue>, dest: array<Float>, filled: nat, from: nat) returns (now: nat, cursor: nat)
      requires filled < dest.Length && from <= |cues|
      modifies this, chip, dest
      ensures now <= dest.Length && cursor <= |cues|
      ensures var before := Played(old(Here()), from, old(dest[..filled]));
        (Played(Here(), cursor, dest[..now]), now) == Turnover(Machinery(), cues, before, filled, dest.Length)
    {
      ghost var before := Played(Here(), from, dest[..filled]);
      cursor := ApplyDue(cues, from, filled);
      var span := NextSpan(cues, cursor, filled, dest.Length);
      TurnoverIs(Machinery(), cues, before, filled, dest.Length, Here(), cursor, span);
      Span(dest, filled, span);
      now := filled + span;
    }

    method NextSpan(cues: seq<Cue>, cursor: nat, filled: nat, frames: nat) returns (span: nat)
      requires filled < frames && cursor <= |cues|
      ensures span == SpanOf(Machinery(), cues, cursor, filled, frames)
    {
      span := frames - filled;
      if cursor < |cues| {
        SynthApplies(chip.analog, tuning, Here(), cues[cursor], filled);
        var gap := cues[cursor].sample - filled;
        gap := if gap < 1 then 1 else gap;
        span := if gap < span then gap else span;
      }
    }

    /** The same samples as the plain player's, in far fewer calls. */
    method RenderAll(cues: seq<Cue>, dest: array<Float>)
      modifies this, chip, dest
      ensures var played := Plain(Machinery(), cues, old(Here()), dest.Length);
        Here() == played.rig && dest[..] == played.outs
    {
      ghost var begun, m := Here(), Machinery();
      ghost var played := Plain(m, cues, begun, 0);
      var filled, cursor: nat := 0, 0;
      SynthIsCuttable(chip.analog, tuning);
      while filled < dest.Length
        invariant 0 <= filled <= dest.Length && cursor <= |cues|
        invariant played == Plain(m, cues, begun, filled)
        invariant played == Played(Here(), cursor, dest[..filled])
      {
        TurnIsPlain(m, cues, begun, filled, dest.Length);
        filled, cursor := Turn(cues, dest, filled, cursor);
        played := Plain(m, cues, begun, filled);
      }
      assert dest[..filled] == dest[..];
    }
  }

  function NewRig(coefs: Coefs, filter: Filter): Rig {
    Rig(NewChip(coefs, filter), [-1, -1, -1], [0, 0, 0], [NEW_ADSR, NEW_ADSR, NEW_ADSR])
  }
}
