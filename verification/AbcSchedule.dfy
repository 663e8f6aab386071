/** A tune's notes and chip settings turned into steps at samples, in playing order. */
module AbcSchedule {
  import opened AbcTimeline
  import opened AbcSafety

  datatype Kind = Chip | NoteOff | NoteOn

  /** Registers first, and a note-off before a note-on at the same sample. */
  function Order(kind: Kind): (r: int)
    ensures 0 <= r <= 2
  {
    match kind
    case Chip => 0
    case NoteOff => 1
    case NoteOn => 2
  }

  datatype Cue = Cue(sample: int, kind: Kind, voice: int, midi: int, velocity: int, param: int, value: int)

  datatype Tune = Tune(notes: seq<Note>, chips: seq<ChipSet>, bpm: int, tempoNum: int, tempoDen: int)

  function TicksPerBeat(tune: Tune): (r: int)
    requires tune.tempoDen > 0
    ensures r >= 1
  {
    AtLeastOne(Quotient(TICKS_PER_WHOLE * tune.tempoNum, tune.tempoDen))
  }

  // -- ticks to samples

  function TickToSample(tick: int, bpm: int, perBeat: int, rate: int): int {
    var denom := bpm * perBeat;
    if denom <= 0 then 0 else Quotient(tick * rate * 60 + denom / 2, denom)
  }

  function Product(a: int, b: int): int {
    a * b
  }

  lemma {:induction false} QuotientBounds(a: int, d: int)
    requires d > 0 && a >= 0
    ensures Product(Quotient(a, d), d) <= a < Product(Quotient(a, d), d) + d
  {
    assert a == d * (a / d) + a % d;
  }

  lemma {:induction false} QuotientIsMonotone(a: int, b: int, d: int)
    requires d > 0 && a <= b
    ensures Quotient(a, d) <= Quotient(b, d)
  {
    if a >= 0 {
      DivideIsMonotone(a, b, d);
    } else if b < 0 {
      DivideIsMonotone(-b, -a, d);
    } else {
      DivideIsMonotone(0, b, d);
      DivideIsMonotone(0, -a, d);
    }
  }

  lemma {:induction false} DivideIsMonotone(a: int, b: int, d: int)
    requires d > 0 && 0 <= a <= b
    ensures 0 <= a / d <= b / d
  {
    var p, q := a / d, b / d;
    var over := a % d - b % d;
    assert b - a == d * (q - p) - over && over < d;
    if q - p <= -1 {
      Larger(p - q, d);
    }
  }

  lemma {:induction false} Larger(n: int, d: int)
    requires n >= 1 && d > 0
    ensures d * n >= d
  {
  }

  /** A sample is the nearest one to the exact time tick * rate * 60 / (bpm * perBeat), however
      late in the tune: no error is carried from one step to the next. */
  lemma {:induction false} WithinHalfASample(tick: int, bpm: int, perBeat: int, rate: int)
    requires bpm * perBeat > 0 && tick * rate >= 0
    ensures var denom := bpm * perBeat;
      -denom <= 2 * (TickToSample(tick, bpm, perBeat, rate) * denom - tick * rate * 60) <= denom
  {
    var denom := bpm * perBeat;
    QuotientBounds(tick * rate * 60 + denom / 2, denom);
  }

  lemma {:induction false} LaterTickLaterSample(a: int, b: int, bpm: int, perBeat: int, rate: int)
    requires a <= b && rate >= 0
    ensures TickToSample(a, bpm, perBeat, rate) <= TickToSample(b, bpm, perBeat, rate)
  {
    var denom := bpm * perBeat;
    if denom > 0 {
      assert a * rate <= b * rate;
      QuotientIsMonotone(a * rate * 60 + denom / 2, b * rate * 60 + denom / 2, denom);
    }
  }

  // -- the steps of a tune

  function At(tune: Tune, tick: int, rate: int): int
    requires tune.tempoDen > 0
  {
    TickToSample(tick, tune.bpm, TicksPerBeat(tune), rate)
  }

  /** Where a note is lifted: a little early when that leaves something of it. */
  function OffTick(n: Note, perBeat: int): int {
    var gap := Min(Quotient(n.duration, 20), Quotient(perBeat, 16));
    if gap > 0 && n.duration > gap then n.End() - gap else n.End()
  }

  function ChipCue(tune: Tune, c: ChipSet, rate: int): Cue
    requires tune.tempoDen > 0
  {
    Cue(At(tune, c.tick, rate), Chip, c.voice, 0, 0, c.param, c.value)
  }

  function OnCue(tune: Tune, n: Note, rate: int): Cue
    requires tune.tempoDen > 0
  {
    Cue(At(tune, n.tick, rate), NoteOn, n.voice, n.midi, n.velocity, 0, 0)
  }

  function OffCue(tune: Tune, n: Note, rate: int): Cue
    requires tune.tempoDen > 0
  {
    var on, off := At(tune, n.tick, rate), At(tune, OffTick(n, TicksPerBeat(tune)), rate);
    Cue(if off > on then off else on + 1, NoteOff, n.voice, n.midi, 0, 0, 0)
  }

  /** The steps as they are written: a chip setting each, then each note's two. */
  ghost predicate Generated(tune: Tune, rate: int, cues: seq<Cue>)
    requires tune.tempoDen > 0
  {
    var c := |tune.chips|;
    && |cues| == c + 2 * |tune.notes|
    && (forall i | 0 <= i < c :: cues[i] == ChipCue(tune, tune.chips[i], rate))
    && forall i | 0 <= i < |tune.notes| ::
         && cues[OnIndex(tune, i)] == OnCue(tune, tune.notes[i], rate)
         && cues[OffIndex(tune, i)] == OffCue(tune, tune.notes[i], rate)
  }

  function OnIndex(tune: Tune, i: int): int {
    |tune.chips| + 2 * i
  }

  function OffIndex(tune: Tune, i: int): int {
    |tune.chips| + 2 * i + 1
  }

  // -- the order

  /** By sample, then registers before note-offs before note-ons, then as written. */
  predicate Before(cues: seq<Cue>, a: nat, b: nat)
    requires a < |cues| && b < |cues|
  {
    if cues[a].sample != cues[b].sample then cues[a].sample < cues[b].sample
    else if Order(cues[a].kind) != Order(cues[b].kind) then Order(cues[a].kind) < Order(cues[b].kind)
    else a < b
  }

  ghost predicate Within(at: seq<nat>, n: nat) {
    forall p | 0 <= p < |at| :: at[p] < n
  }

  ghost predicate Increasing(cues: seq<Cue>, at: seq<nat>) {
    Within(at, |cues|) && forall p, q | 0 <= p < q < |at| :: Before(cues, at[p], at[q])
  }

  function UpTo(n: nat): (s: seq<nat>)
    ensures |s| == n && forall i | 0 <= i < n :: s[i] == i
  {
    if n == 0 then [] else UpTo(n - 1) + [n - 1]
  }

  /** out is cues rearranged, out[p] being the one written at at[p], in playing order. */
  ghost predicate Arranged(cues: seq<Cue>, at: seq<nat>, out: seq<Cue>) {
    && multiset(at) == multiset(UpTo(|cues|))
    && Increasing(cues, at)
    && |out| == |at| && forall p | 0 <= p < |out| :: out[p] == cues[at[p]]
  }

  ghost predicate Precedes(at: seq<nat>, a: nat, b: nat) {
    exists p, q | 0 <= p < q < |at| :: at[p] == a && at[q] == b
  }

  lemma {:induction false} EveryStepIsPlayed(cues: seq<Cue>, at: seq<nat>, out: seq<Cue>, a: nat)
    requires Arranged(cues, at, out) && a < |cues|
    ensures exists p | 0 <= p < |at| :: at[p] == a
  {
    assert UpTo(|cues|)[a] == a;
    assert a in multiset(UpTo(|cues|));
  }

  /** What the order says of two steps is what is played. */
  lemma {:induction false} PlayedInOrder(cues: seq<Cue>, at: seq<nat>, out: seq<Cue>, a: nat, b: nat)
    requires Arranged(cues, at, out) && a < |cues| && b < |cues| && a != b
    ensures Precedes(at, a, b) <==> Before(cues, a, b)
  {
    EveryStepIsPlayed(cues, at, out, a);
    EveryStepIsPlayed(cues, at, out, b);
    var p :| 0 <= p < |at| && at[p] == a;
    var q :| 0 <= q < |at| && at[q] == b;
    if p < q {
      assert Before(cues, at[p], at[q]);
    } else {
      assert Before(cues, at[q], at[p]);
    }
  }

  /** There is one such order: whatever sorts by it, the result is the same. */
  lemma {:induction false} OneOrder(cues: seq<Cue>, at: seq<nat>, other: seq<nat>)
    requires multiset(at) == multiset(other) && Increasing(cues, at) && Increasing(cues, other)
    ensures at == other
    decreases |at|
  {
    assert |at| == |multiset(at)| == |multiset(other)| == |other|;
    if at != [] {
      SameFirst(cues, at, other);
      WithoutFirst(at);
      WithoutFirst(other);
      OneOrder(cues, at[1..], other[1..]);
    }
  }

  lemma {:induction false} WithoutFirst(at: seq<nat>)
    requires at != []
    ensures at == [at[0]] + at[1..] && multiset(at[1..]) == multiset(at) - multiset{at[0]}
  {
    assert at == [at[0]] + at[1..];
  }

  lemma {:induction false} SameFirst(cues: seq<Cue>, at: seq<nat>, other: seq<nat>)
    requires multiset(at) == multiset(other) && at != [] && other != []
    requires Increasing(cues, at) && Increasing(cues, other)
    ensures at[0] == other[0]
  {
    assert at[0] in multiset(other) && other[0] in multiset(at);
    FirstIsFirst(cues, at, other[0]);
    FirstIsFirst(cues, other, at[0]);
  }

  lemma {:induction false} FirstIsFirst(cues: seq<Cue>, at: seq<nat>, x: nat)
    requires Increasing(cues, at) && x in at
    ensures at[0] == x || (at[0] < |cues| && x < |cues| && Before(cues, at[0], x))
  {
    var p :| 0 <= p < |at| && at[p] == x;
  }

  // -- the schedule

  /** The indices in playing order: Swift's sort over the enumerated steps. */
  method Ordered(cues: seq<Cue>) returns (at: seq<nat>)
    ensures multiset(at) == multiset(UpTo(|cues|)) && Increasing(cues, at)
  {
    at := [];
    for i := 0 to |cues|
      invariant multiset(at) == multiset(UpTo(i)) && Increasing(cues, at) && Within(at, i)
    {
      at := Insert(cues, at, i);
    }
  }

  lemma {:induction false} Joined(cues: seq<Cue>, a: seq<nat>, b: seq<nat>)
    requires Increasing(cues, a) && Increasing(cues, b)
    requires forall p, q | 0 <= p < |a| && 0 <= q < |b| :: Before(cues, a[p], b[q])
    ensures Increasing(cues, a + b)
  {
    var r := a + b;
    forall p, q | 0 <= p < q < |r|
      ensures r[p] < |cues| && r[q] < |cues| && Before(cues, r[p], r[q])
    {
    }
  }

  lemma {:induction false} Inserted(cues: seq<Cue>, at: seq<nat>, i: nat, j: nat)
    requires i < |cues| && Increasing(cues, at) && j <= |at|
    requires forall q | j <= q < |at| :: Before(cues, i, at[q])
    requires forall p | 0 <= p < j :: Before(cues, at[p], i)
    ensures Increasing(cues, at[..j] + [i] + at[j..])
  {
    Joined(cues, at[..j], [i]);
    Joined(cues, at[..j] + [i], at[j..]);
  }

  lemma {:induction false} EarlierStay(cues: seq<Cue>, at: seq<nat>, i: nat, j: nat)
    requires i < |cues| && Increasing(cues, at) && Within(at, i) && j <= |at|
    requires j > 0 ==> !Before(cues, i, at[j - 1])
    ensures forall p | 0 <= p < j :: Before(cues, at[p], i)
  {
    forall p | 0 <= p < j
      ensures Before(cues, at[p], i)
    {
      assert p < j - 1 ==> Before(cues, at[p], at[j - 1]);
    }
  }

  lemma {:induction false} InsertedHolds(at: seq<nat>, i: nat, j: nat)
    requires Within(at, i) && multiset(at) == multiset(UpTo(i)) && j <= |at|
    ensures var r := at[..j] + [i] + at[j..];
      multiset(r) == multiset(UpTo(i + 1)) && Within(r, i + 1)
  {
    InsertedMultiset(at, i, j);
    forall k | 0 <= k < |at| + 1
      ensures (at[..j] + [i] + at[j..])[k] < i + 1
    {
      assert k < j ==> (at[..j] + [i] + at[j..])[k] == at[k];
      assert k > j ==> (at[..j] + [i] + at[j..])[k] == at[k - 1];
    }
  }

  lemma {:induction false} InsertedMultiset(at: seq<nat>, i: nat, j: nat)
    requires j <= |at|
    ensures multiset(at[..j] + [i] + at[j..]) == multiset(at) + multiset{i}
  {
    assert at == at[..j] + at[j..];
  }

  method Insert(cues: seq<Cue>, at: seq<nat>, i: nat) returns (r: seq<nat>)
    requires i < |cues| && Increasing(cues, at) && Within(at, i) && multiset(at) == multiset(UpTo(i))
    ensures Increasing(cues, r) && Within(r, i + 1) && multiset(r) == multiset(UpTo(i + 1))
  {
    var j := |at|;
    while j > 0 && Before(cues, i, at[j - 1])
      invariant 0 <= j <= |at|
      invariant forall q | j <= q < |at| :: Before(cues, i, at[q])
    {
      j := j - 1;
    }
    r := at[..j] + [i] + at[j..];
    EarlierStay(cues, at, i, j);
    Inserted(cues, at, i, j);
    InsertedHolds(at, i, j);
  }

  method Generate(tune: Tune, rate: int) returns (cues: seq<Cue>)
    requires tune.tempoDen > 0
    ensures Generated(tune, rate, cues)
  {
    cues := [];
    var perBeat := TicksPerBeat(tune);
    for i := 0 to |tune.chips|
      invariant |cues| == i && forall k | 0 <= k < i :: cues[k] == ChipCue(tune, tune.chips[k], rate)
    {
      var c := tune.chips[i];
      cues := cues + [Cue(TickToSample(c.tick, tune.bpm, perBeat, rate), Chip, c.voice, 0, 0, c.param, c.value)];
    }
    for i := 0 to |tune.notes|
      invariant |cues| == |tune.chips| + 2 * i
      invariant forall k | 0 <= k < |tune.chips| :: cues[k] == ChipCue(tune, tune.chips[k], rate)
      invariant forall k | 0 <= k < i :: cues[OnIndex(tune, k)] == OnCue(tune, tune.notes[k], rate)
      invariant forall k | 0 <= k < i :: cues[OffIndex(tune, k)] == OffCue(tune, tune.notes[k], rate)
    {
      var n := tune.notes[i];
      var on := TickToSample(n.tick, tune.bpm, perBeat, rate);
      var offTick := n.tick + n.duration;
      var gap := Min(Quotient(n.duration, 20), Quotient(perBeat, 16));
      if gap > 0 && n.duration > gap {
        offTick := offTick - gap;
      }
      var off := TickToSample(offTick, tune.bpm, perBeat, rate);
      cues := cues + [Cue(on, NoteOn, n.voice, n.midi, n.velocity, 0, 0)];
      cues := cues + [Cue(if off > on then off else on + 1, NoteOff, n.voice, n.midi, 0, 0, 0)];
    }
  }

  /** Every step generated is played, in the one order there is. */
  method Schedule(tune: Tune, rate: int) returns (out: seq<Cue>, ghost cues: seq<Cue>, ghost at: seq<nat>)
    requires tune.tempoDen > 0
    ensures Generated(tune, rate, cues) && Arranged(cues, at, out)
  {
    var steps := Generate(tune, rate);
    var order := Ordered(steps);
    cues, at := steps, order;
    assert |order| == |multiset(order)| == |multiset(UpTo(|steps|))| == |steps|;
    out := [];
    for p := 0 to |order|
      invariant |out| == p && forall k | 0 <= k < p :: out[k] == cues[order[k]]
    {
      out := out + [steps[order[p]]];
    }
  }

  // -- what a player hears

  /** A note is always let go after it is struck. */
  lemma {:induction false} OffAfterItsOn(tune: Tune, rate: int, cues: seq<Cue>, at: seq<nat>, out: seq<Cue>, i: nat)
    requires tune.tempoDen > 0 && Generated(tune, rate, cues) && Arranged(cues, at, out) && i < |tune.notes|
    ensures Precedes(at, OnIndex(tune, i), OffIndex(tune, i))
    ensures cues[OnIndex(tune, i)].sample < cues[OffIndex(tune, i)].sample
  {
    PlayedInOrder(cues, at, out, OnIndex(tune, i), OffIndex(tune, i));
  }

  /** A note is struck at its pitch and strength, and let go by its pitch, in its own voice; a
      register is set in the voice it names. */
  lemma {:induction false} StepsOf(tune: Tune, rate: int, cues: seq<Cue>, i: nat, k: nat)
    requires tune.tempoDen > 0 && Generated(tune, rate, cues) && i < |tune.notes| && k < |tune.chips|
    ensures var n, on, off := tune.notes[i], cues[OnIndex(tune, i)], cues[OffIndex(tune, i)];
      && on.kind == NoteOn && on.voice == n.voice && on.midi == n.midi && on.velocity == n.velocity
      && off.kind == NoteOff && off.voice == n.voice && off.midi == n.midi
    ensures var c, chip := tune.chips[k], cues[k];
      chip.kind == Chip && chip.voice == c.voice && chip.param == c.param && chip.value == c.value
  {
  }

  /** At a tempo of bpm beats a minute, each beat num/den of a whole note of 1920 ticks, beat
      number k begins within half a sample of k minutes over bpm. */
  lemma {:induction false} BeatsOnTime(tune: Tune, rate: int, k: nat)
    requires tune.bpm > 0 && tune.tempoNum > 0 && tune.tempoDen > 0 && 1920 * tune.tempoNum % tune.tempoDen == 0
    requires rate >= 0
    ensures var beat := 1920 * tune.tempoNum / tune.tempoDen;
      -tune.bpm <= 2 * (At(tune, k * beat, rate) * tune.bpm - k * 60 * rate) <= tune.bpm
  {
    var beat := 1920 * tune.tempoNum / tune.tempoDen;
    Whole(1920 * tune.tempoNum, tune.tempoDen);
    NotNegative(k, beat);
    NotNegative(k * beat, rate);
    Larger(tune.bpm, beat);
    WithinHalfASample(k * beat, tune.bpm, beat, rate);
    var s := At(tune, k * beat, rate);
    Regroup(s, tune.bpm, k, rate, beat);
    Cancel(tune.bpm, 2 * (s * tune.bpm - k * 60 * rate), beat);
  }

  lemma {:induction false} Whole(a: int, d: int)
    requires a > 0 && d > 0 && a % d == 0
    ensures a / d >= 1
  {
    assert a == d * (a / d);
  }

  lemma {:induction false} Regroup(s: int, bpm: int, k: int, rate: int, beat: int)
    ensures 2 * (s * (bpm * beat) - k * beat * rate * 60) == 2 * (s * bpm - k * 60 * rate) * beat
  {
    assert s * (bpm * beat) == s * bpm * beat;
    assert k * beat * rate * 60 == k * 60 * rate * beat;
  }

  lemma {:induction false} Cancel(a: int, x: int, d: int)
    requires d >= 1 && -(a * d) <= x * d <= a * d
    ensures -a <= x <= a
  {
    if x > a {
      Larger(x - a, d);
    } else if x < -a {
      Larger(-a - x, d);
    }
  }

  /** A note is lifted early by at most a twentieth of it and a sixteenth of a beat, and not before
      it has begun. */
  lemma {:induction false} LiftedALittleEarly(n: Note, perBeat: int)
    requires n.duration >= 1 && perBeat >= 1
    ensures n.tick < OffTick(n, perBeat) <= n.End()
    ensures 20 * (n.End() - OffTick(n, perBeat)) <= n.duration && 16 * (n.End() - OffTick(n, perBeat)) <= perBeat
    ensures OffTick(n, perBeat) < n.End() <==> n.duration >= 20 && perBeat >= 16
  {
  }

  predicate LastsASample(tune: Tune, n: Note, rate: int)
    requires tune.tempoDen > 0
  {
    At(tune, n.End(), rate) > At(tune, n.tick, rate)
  }

  /** Two notes that meet: the first is let go before the second is struck exactly when the
      first lasts a sample; when it does not, its release cuts the second. */
  lemma {:induction false} ReStrike(tune: Tune, rate: int, cues: seq<Cue>, at: seq<nat>, out: seq<Cue>, i: nat, j: nat)
    requires tune.tempoDen > 0 && rate >= 0 && Generated(tune, rate, cues) && Arranged(cues, at, out)
    requires i < |tune.notes| && j < |tune.notes| && tune.notes[j].tick == tune.notes[i].End()
    ensures Precedes(at, OffIndex(tune, i), OnIndex(tune, j)) <==> LastsASample(tune, tune.notes[i], rate)
  {
    OffNoLaterThanEnd(tune, tune.notes[i], rate);
    PlayedInOrder(cues, at, out, OffIndex(tune, i), OnIndex(tune, j));
  }

  /** A note that takes the time of a sample lasts one; with no tempo none does. */
  lemma {:induction false} LongEnough(tune: Tune, n: Note, rate: int)
    requires tune.tempoDen > 0 && rate >= 0 && n.tick >= 0 && n.duration >= 0
    ensures var denom := tune.bpm * TicksPerBeat(tune);
      && (denom <= 0 ==> !LastsASample(tune, n, rate))
      && (0 < denom <= n.duration * rate * 60 ==> LastsASample(tune, n, rate))
  {
    var denom := tune.bpm * TicksPerBeat(tune);
    if 0 < denom <= n.duration * rate * 60 {
      assert n.End() * rate * 60 == n.tick * rate * 60 + n.duration * rate * 60;
      NotNegative(n.tick, rate);
      OneMoreQuotient(n.tick * rate * 60 + denom / 2, denom);
      QuotientIsMonotone(n.tick * rate * 60 + denom / 2 + denom, n.End() * rate * 60 + denom / 2, denom);
    }
  }

  lemma {:induction false} NotNegative(a: int, b: int)
    requires a >= 0 && b >= 0
    ensures a * b >= 0
  {
  }

  lemma {:induction false} OneMoreQuotient(a: int, d: int)
    requires d > 0 && a >= 0
    ensures Quotient(a + d, d) > Quotient(a, d)
  {
    var p, q := a / d, (a + d) / d;
    assert d * (q - p) == d + a % d - (a + d) % d > 0;
    if p > q {
      Larger(p - q, d);
    }
  }

  /** Two notes of a tick at one pitch, Q:1/4=30000. */
  const FAST: Tune := Tune([Note(0, 1, 1, 60, 100), Note(1, 1, 1, 60, 100)], [], 30000, 1, 4)

  /** The second is struck before the first is let go, and so is cut by that. */
  lemma {:induction false} FastIsCut(cues: seq<Cue>, at: seq<nat>, out: seq<Cue>)
    requires Generated(FAST, 48000, cues) && Arranged(cues, at, out)
    ensures Precedes(at, OnIndex(FAST, 1), OffIndex(FAST, 0))
  {
    assert TicksPerBeat(FAST) == 480;
    ReStrike(FAST, 48000, cues, at, out, 0, 1);
    PlayedInOrder(cues, at, out, OnIndex(FAST, 1), OffIndex(FAST, 0));
  }

  lemma {:induction false} OffNoLaterThanEnd(tune: Tune, n: Note, rate: int)
    requires tune.tempoDen > 0 && rate >= 0
    ensures LastsASample(tune, n, rate) ==> OffCue(tune, n, rate).sample <= At(tune, n.End(), rate)
    ensures !LastsASample(tune, n, rate) ==> OffCue(tune, n, rate).sample > At(tune, n.End(), rate)
  {
    LaterTickLaterSample(OffTick(n, TicksPerBeat(tune)), n.End(), tune.bpm, TicksPerBeat(tune), rate);
  }

  /** A register set no later than a note's tick is set when the note starts. */
  lemma {:induction false} ChipBeforeNote(tune: Tune, rate: int, cues: seq<Cue>, at: seq<nat>, out: seq<Cue>, c: nat,
                                          i: nat)
    requires tune.tempoDen > 0 && rate >= 0 && Generated(tune, rate, cues) && Arranged(cues, at, out)
    requires c < |tune.chips| && i < |tune.notes| && tune.chips[c].tick <= tune.notes[i].tick
    ensures Precedes(at, c, OnIndex(tune, i))
  {
    LaterTickLaterSample(tune.chips[c].tick, tune.notes[i].tick, tune.bpm, TicksPerBeat(tune), rate);
    PlayedInOrder(cues, at, out, c, OnIndex(tune, i));
  }

  /** From tokens to steps: in a tune without chords each voice sounds one note at a time,
      each let go before the next is struck, whenever its notes last a sample. */
  lemma {:induction false} VoicesAreMonophonic(tokens: seq<Token>, tune: Tune, rate: int,
                                               cues: seq<Cue>, at: seq<nat>, out: seq<Cue>, i: nat, j: nat)
    requires forall t | t in tokens :: Proper(t) && ChordFree(t)
    requires Ready(START) && tune.notes == Run(START, tokens).notes
    requires tune.tempoDen > 0 && rate >= 0 && Generated(tune, rate, cues) && Arranged(cues, at, out)
    requires i < j < |tune.notes| && tune.notes[i].voice == tune.notes[j].voice
    requires LastsASample(tune, tune.notes[i], rate)
    ensures Precedes(at, OnIndex(tune, i), OffIndex(tune, i))
    ensures Precedes(at, OffIndex(tune, i), OnIndex(tune, j))
    ensures Precedes(at, OnIndex(tune, j), OffIndex(tune, j))
  {
    StartIsSafe();
    RunIsSafe(START, tokens);
    OffAfterItsOn(tune, rate, cues, at, out, i);
    OffAfterItsOn(tune, rate, cues, at, out, j);
    OffNoLaterThanEnd(tune, tune.notes[i], rate);
    LaterTickLaterSample(tune.notes[i].End(), tune.notes[j].tick, tune.bpm, TicksPerBeat(tune), rate);
    PlayedInOrder(cues, at, out, OffIndex(tune, i), OnIndex(tune, j));
  }
}
