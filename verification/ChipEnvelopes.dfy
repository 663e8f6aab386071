/** The envelope of a voice of the chip, while nothing but time touches it. */
module ChipEnvelopes {
  import opened Runs
  import opened ChipModel
  import opened ChipTheorems
  import opened ChipObject

  /** Whether a register of the voice's envelope is written. */
  predicate Touches(w: Write, v: int) {
    (w.Adsr? || w.SustainLevel? || w.GateOn? || w.GateOff?) && w.v == v
  }

  predicate AnyTouches(ws: seq<Poke>, v: int) {
    exists i | 0 <= i < |ws| :: Touches(ws[i], v)
  }

  /** What runs at each frame leaves the voice's envelope alone. */
  ghost predicate Spares(routine: Routine, v: int) {
    forall c, frame :: !AnyTouches(routine(c, frame), v)
  }

  /** And so does what is written, and what runs, in a series of events. */
  ghost predicate Untouched(events: seq<Event>, v: int) {
    forall i | 0 <= i < |events| :: EventSpares(events[i], v)
  }

  ghost predicate EventSpares(event: Event, v: int) {
    match event
    case Poked(w) => !Touches(w, v)
    case Called(_, routine) => Spares(routine, v)
  }

  lemma {:induction false} WrittenSpares(c: Core, w: Write, v: int)
    requires Addressed(w) && 0 <= v < 3 && !Touches(w, v)
    ensures Written(c, w).voices[v].envelope == c.voices[v].envelope
  {
  }

  lemma {:induction false} RewrittenSpares(c: Core, ws: seq<Poke>, v: int)
    requires 0 <= v < 3 && !AnyTouches(ws, v)
    ensures Rewritten(c, ws).voices[v].envelope == c.voices[v].envelope
  {
    if ws != [] {
      var n := |ws| - 1;
      RewrittenSpares(c, ws[..n], v);
      assert !Touches(ws[n], v);
      WrittenSpares(Rewritten(c, ws[..n]), ws[n], v);
    }
  }

  lemma {:induction false} SampleAdvances(a: Analog, routine: Routine, s: State, v: int)
    requires 0 <= v < 3 && Spares(routine, v)
    ensures Sample(a, routine, s).0.core.voices[v].envelope == AdvanceEnvelope(s.core.voices[v].envelope)
  {
    assert !AnyTouches(routine(s.core, s.frame + 1), v);
    RewrittenSpares(s.core, routine(s.core, s.frame + 1), v);
  }

  lemma {:induction false} SamplesAdvance(a: Analog, routine: Routine, s: State, n: nat, v: int)
    requires 0 <= v < 3 && Spares(routine, v)
    ensures Samples(a, routine, s, n).0.core.voices[v].envelope == Enveloped(s.core.voices[v].envelope, n)
  {
    var view := (t: State) => t.core.voices[v].envelope;
    forall t
      ensures view(Sampler(a, routine)(t).0) == AdvanceEnvelope(view(t))
    {
      SampleAdvances(a, routine, t, v);
    }
    RunSeen(Sampler(a, routine), view, AdvanceEnvelope, s, n);
    StepsAreEnveloped(s.core.voices[v].envelope, n);
  }

  lemma {:induction false} StepsAreEnveloped(e: Envelope, n: nat)
    ensures Steps(AdvanceEnvelope, e, n) == Enveloped(e, n)
  {
    if n > 0 {
      StepsAreEnveloped(e, n - 1);
    }
  }

  lemma {:induction false} EnvelopedOn(e: Envelope, n: nat, m: nat)
    ensures Enveloped(Enveloped(e, n), m) == Enveloped(e, n + m)
  {
    if m > 0 {
      EnvelopedOn(e, n, m - 1);
    }
  }

  lemma {:induction false} RenderedAdvances(a: Analog, routine: Routine, s: State, n: nat, v: int)
    requires 0 <= v < 3 && Spares(routine, v)
    ensures Rendered(a, routine, s, n).0.core.voices[v].envelope == Enveloped(s.core.voices[v].envelope, n)
  {
    SamplesAdvance(a, routine, s.(core := Prepared(a, s.core)), n, v);
  }

  lemma {:induction false} EventAdvances(a: Analog, s: State, event: Event, v: int)
    requires 0 <= v < 3 && EventSpares(event, v)
    ensures Happened(a, s, event).core.voices[v].envelope == Aged(s.core.voices[v].envelope, event)
  {
    match event
    case Poked(w) => WrittenSpares(s.core, w, v);
    case Called(frames, routine) => RenderedAdvances(a, routine, s, frames, v);
  }

  function Aged(e: Envelope, event: Event): Envelope {
    Enveloped(e, LengthOf(event))
  }

  lemma {:induction false} AgedInAll(e: Envelope, events: seq<Event>)
    ensures Fold(Aged, e, events) == Enveloped(e, TotalOf(events))
  {
    if events != [] {
      var init, last := events[..|events| - 1], events[|events| - 1];
      AgedInAll(e, init);
      EnvelopedOn(e, TotalOf(init), LengthOf(last));
    }
  }

  /** However its voice is rendered, and whatever the other voices and registers do, an envelope
      that is left alone goes its own way. */
  lemma {:induction false} EnvelopeByItself(a: Analog, s: State, events: seq<Event>, v: int)
    requires 0 <= v < 3 && Untouched(events, v)
    ensures After(a, s, events).core.voices[v].envelope == Enveloped(s.core.voices[v].envelope, TotalOf(events))
  {
    var view := (t: State) => t.core.voices[v].envelope;
    var fits := event => EventSpares(event, v);
    forall t, event | EventSpares(event, v)
      ensures view(Happener(a)(t, event)) == Aged(view(t), event)
    {
      EventAdvances(a, t, event, v);
    }
    FoldSeen(Happener(a), view, Aged, fits, s, events);
    AgedInAll(s.core.voices[v].envelope, events);
  }

  // -- a voice let go

  /** The level a released envelope ends at. */
  function LastLevel(e: Envelope, register: int): int {
    if register <= 13 || e.env == 0 then 0
    else if Level(e) > HangLevel(register) then HangLevel(register)
    else Level(e)
  }

  lemma {:induction false} StandsStill(e: Envelope, n: nat, m: nat)
    requires AdvanceEnvelope(Enveloped(e, n)) == Enveloped(e, n)
    ensures Enveloped(e, n + m) == Enveloped(e, n)
  {
    if m > 0 {
      StandsStill(e, n, m - 1);
    }
  }

  lemma {:induction false} ReleaseComesTo(e: Envelope, register: int)
    requires SoundEnvelope(e) && e.phase == Release && 0 <= register < 16 && e.rInc == SlowIncrement(register)
    ensures RestsAt(e, LastLevel(e, register))
  {
    if register <= 13 || e.env == 0 {
      ReleaseEnds(e, register);
      var n: nat :| Enveloped(e, n).phase == Idle;
      assert AdvanceEnvelope(Enveloped(e, n)) == Enveloped(e, n) && Level(Enveloped(e, n)) == 0;
    } else {
      ReleaseRests(e, register);
    }
  }

  /** From that sample on, in every such series of events, the voice is at that level. */
  ghost predicate AtRestFrom(a: Analog, s: State, v: int, n: nat, level: int)
    requires 0 <= v < 3
  {
    forall events | Untouched(events, v) && TotalOf(events) >= n ::
      Level(After(a, s, events).core.voices[v].envelope) == level
  }

  /** A released voice of the chip comes to rest: silent for the registers 0 to 13, and at a level
      for 14 and 15. */
  lemma {:induction false} VoiceComesToRest(a: Analog, s: State, v: int, register: int)
    requires 0 <= v < 3 && 0 <= register < 16
    requires var e := s.core.voices[v].envelope;
      SoundEnvelope(e) && e.phase == Release && e.rInc == SlowIncrement(register)
    ensures exists n: nat :: AtRestFrom(a, s, v, n, LastLevel(s.core.voices[v].envelope, register))
  {
    var e := s.core.voices[v].envelope;
    ReleaseComesTo(e, register);
    var n: nat :| AdvanceEnvelope(Enveloped(e, n)) == Enveloped(e, n)
      && Level(Enveloped(e, n)) == LastLevel(e, register);
    RestsFrom(a, s, v, n);
  }

  lemma {:induction false} RestsFrom(a: Analog, s: State, v: int, n: nat)
    requires 0 <= v < 3
    requires var e := s.core.voices[v].envelope; AdvanceEnvelope(Enveloped(e, n)) == Enveloped(e, n)
    ensures AtRestFrom(a, s, v, n, Level(Enveloped(s.core.voices[v].envelope, n)))
  {
    forall events | Untouched(events, v) && TotalOf(events) >= n
      ensures Level(After(a, s, events).core.voices[v].envelope) == Level(Enveloped(s.core.voices[v].envelope, n))
    {
      RestsAfter(a, s, events, v, n, s.core.voices[v].envelope);
    }
  }

  lemma {:induction false} RestsAfter(a: Analog, s: State, events: seq<Event>, v: int, n: nat, e: Envelope)
    requires 0 <= v < 3 && Untouched(events, v) && TotalOf(events) >= n && e == s.core.voices[v].envelope
    requires AdvanceEnvelope(Enveloped(e, n)) == Enveloped(e, n)
    ensures After(a, s, events).core.voices[v].envelope == Enveloped(e, n)
  {
    EnvelopeByItself(a, s, events, v);
    StandsStill(e, n, TotalOf(events) - n);
  }
}
