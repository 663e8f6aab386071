/** What broken rhythm and tuplets do to the length of a tune. */
module AbcDurations {
  import opened Wrappers
  import opened AbcTimeline
  import opened AbcSafety

  // -- broken rhythm

  lemma {:induction false} DivideUp(u: int, h: int)
    requires u >= 1 && h >= 1
    ensures var k := u / h;
      u * (2 * h - 1) / h == 2 * u - k - (if u % h == 0 then 0 else 1)
  {
    var k, m := u / h, u % h;
    assert u == h * k + m;
    var q := 2 * u - k - if m == 0 then 0 else 1;
    var rest := if m == 0 then 0 else h - m;
    Expand(u, h, k, m);
    QuotientIs(u * (2 * h - 1), h, q, rest);
  }

  lemma {:induction false} Expand(u: int, h: int, k: int, m: int)
    requires h >= 1 && u == h * k + m && 0 <= m < h
    ensures u * (2 * h - 1) == h * (2 * u - k - (if m == 0 then 0 else 1)) + if m == 0 then 0 else h - m
  {
    assert u * (2 * h - 1) == 2 * (u * h) - u;
    assert h * (2 * u - k) == 2 * (u * h) - h * k;
  }

  lemma {:induction false} QuotientIs(n: int, d: int, q: int, rest: int)
    requires d >= 1 && n == d * q + rest && 0 <= rest < d
    ensures n / d == q
  {
    var r := n / d;
    assert n == d * r + n % d;
    if r > q {
      Larger(d, r, q);
    } else if r < q {
      Larger(d, q, r);
    }
  }

  lemma {:induction false} Larger(d: int, a: int, b: int)
    requires d >= 1 && a > b
    ensures d * a >= d * b + d
  {
    var k := a - b - 1;
    NotNegative(d, k);
    assert d * a == d * b + d * k + d;
  }

  lemma {:induction false} NotNegative(a: int, b: int)
    requires a >= 0 && b >= 0
    ensures a * b >= 0
  {
  }

  /** The two lengths a mark makes of two equal notes. */
  function Lengthened(u: int, count: nat): int {
    AtLeastOne(Longer(u, count))
  }

  function Shortened(u: int, count: nat): int {
    AtLeastOne(Shorter(u, count))
  }

  /** Together they last as long as before, or one tick less when the note is at least 2^n ticks
      long and not a multiple of it. */
  lemma {:induction false} BrokenTotal(u: int, count: nat)
    requires u >= 1
    ensures var h, total := PowerOfTwo(count), Lengthened(u, count) + Shortened(u, count);
      total == if u % h == 0 || u < h then 2 * u else 2 * u - 1
  {
    var h := PowerOfTwo(count);
    DivideUp(u, h);
    Positive(u, h);
    if u < h {
      QuotientIs(u, h, 0, u);
      Remainder(u, h);
    } else {
      AtLeastOneStep(u, h);
    }
  }

  lemma {:induction false} Positive(u: int, h: int)
    requires u >= 1 && h >= 1
    ensures u * (2 * h - 1) >= 1
  {
    PositiveProduct(u, 2 * h - 1);
  }

  lemma {:induction false} Remainder(u: int, h: int)
    requires 1 <= u < h
    ensures u % h == u
  {
  }

  lemma {:induction false} AtLeastOneStep(u: int, h: int)
    requires 1 <= h <= u
    ensures 1 <= u / h <= u
  {
  }

  /** Neither note is under a tuplet, a mark or a tie of its own. */
  ghost predicate Undisturbed(ctx: Ctx) {
    ctx.tupletLeft <= 0 && ctx.broken == 0 && !ctx.pendingTie
  }

  function Clock(st: State): int
    requires st.current in st.voices
  {
    st.voices[st.current].tick
  }

  /** The length written for a note in the current voice. */
  function WrittenTicks(st: State, length: Length): int
    requires st.current in st.voices && st.voices[st.current].unitDen > 0
  {
    var unit := UnitTicks(st.voices[st.current]);
    Or(ReadDuration(length, unit), unit)
  }

  /** Two notes written equally long with a mark of n characters between them: the mark moves
      time from one to the other, and with them the clock, either way round. */
  lemma {:induction false} BrokenPairConserves(st: State, a: Pitch, b: Pitch, length: Length, right: bool, count: int)
    requires Safe(st) && Undisturbed(st.ctx) && count >= 1
    requires 0 <= a.letter < 7 && 0 <= b.letter < 7
    ensures var first := Step(st, NoteToken(a, length));
      && Ready(first)
      && var marked := Step(first, BrokenToken(right, count));
      && Ready(marked)
      && var r := Step(marked, NoteToken(b, length));
         var u, h, n := WrittenTicks(st, length), PowerOfTwo(count), |st.notes|;
      && r.current == st.current && r.current in r.voices
      && |r.notes| == n + 2
      && r.notes[n].duration == (if right then Lengthened(u, count) else Shortened(u, count))
      && r.notes[n + 1].duration == (if right then Shortened(u, count) else Lengthened(u, count))
      && Clock(r) - Clock(st) == (if u % h == 0 || u < h then 2 * u else 2 * u - 1)
  {
    var u := WrittenTicks(st, length);
    StepIsReady(st, NoteToken(a, length));
    var first := StepNote(st, a, length);
    FirstNote(st, a, length);
    StepIsReady(first, BrokenToken(right, count));
    var marked := StepBroken(first, right, count);
    MarkedNote(st, a, length, right, count);
    SecondNote(marked, b, length);
    BrokenTotal(u, count);
  }

  lemma {:induction false} FirstNote(st: State, a: Pitch, length: Length)
    requires Safe(st) && Undisturbed(st.ctx) && 0 <= a.letter < 7
    ensures var r, n := StepNote(st, a, length), |st.notes|;
      && Undisturbed(r.ctx) && r.ctx.lastNote == n && |r.notes| == n + 1
      && r.notes[n].duration == WrittenTicks(st, length) >= 1 && r.notes[n].voice == st.current == r.current
      && r.current in r.voices && Clock(r) == Clock(st) + WrittenTicks(st, length)
      && r.voices[r.current].unitNum == st.voices[st.current].unitNum
      && r.voices[r.current].unitDen == st.voices[st.current].unitDen
  {
  }

  lemma {:induction false} MarkedNote(st: State, a: Pitch, length: Length, right: bool, count: int)
    requires Safe(st) && Undisturbed(st.ctx) && 0 <= a.letter < 7 && count >= 1
    requires Ready(StepNote(st, a, length))
    ensures var r, n, u := StepBroken(StepNote(st, a, length), right, count), |st.notes|, WrittenTicks(st, length);
      var now := if right then Lengthened(u, count) else Shortened(u, count);
      && r.ctx.tupletLeft <= 0 && r.ctx.broken == (if right then count else -count) && !r.ctx.pendingTie
      && |r.notes| == n + 1 && r.notes[n].duration == now
      && r.current == st.current && r.current in r.voices && Clock(r) == Clock(st) + now
      && r.voices[r.current].unitDen > 0 && WrittenTicks(r, length) == u
  {
    FirstNote(st, a, length);
  }

  lemma {:induction false} SecondNote(marked: State, b: Pitch, length: Length)
    requires Ready(marked) && marked.ctx.tupletLeft <= 0 && marked.ctx.broken != 0 && !marked.ctx.pendingTie
    requires 0 <= b.letter < 7
    ensures var r, n, u := StepNote(marked, b, length), |marked.notes|, WrittenTicks(marked, length);
      var broken := marked.ctx.broken;
      var d := if broken > 0 then Shortened(u, broken) else Lengthened(u, -broken);
      && |r.notes| == n + 1 && r.notes[n].duration == d && r.notes[..n] == marked.notes
      && r.current == marked.current && r.current in r.voices && Clock(r) == Clock(marked) + d
  {
  }

  // -- tuplets

  /** Notes, rests and chords take a tuplet's slots. */
  predicate Slotted(t: Token) {
    t.NoteToken? || t.RestToken? || t.ChordToken?
  }

  /** What may stand in a tuplet: ties, bar lines and most fields besides. A new line, tuplet or
      voice ends what is said of it, and a broken mark changes its notes. */
  predicate InTuplet(t: Token) {
    Proper(t) && (Slotted(t) || t.TieToken? || t.BarToken? || t.KeyToken? || t.UnitToken? || t.MeterToken?
      || t.ChipToken?)
  }

  /** The length written, before the tuplet changes it. */
  function BaseTicks(v: Voice, t: Token): int
    requires Slotted(t) && v.unitDen > 0
  {
    match t
    case ChordToken(members, outer) =>
      var unit := UnitTicks(v);
      Or(ReadDuration(outer, unit), if members == [] then 0 else Or(ReadDuration(members[0].1, unit), unit))
    case RestToken(wholeBar, length) =>
      var base := if wholeBar then BarTicks(v) else UnitTicks(v);
      Or(ReadDuration(length, base), base)
    case _ => Or(ReadDuration(t.length, UnitTicks(v)), UnitTicks(v))
  }

  function Slots(tokens: seq<Token>): nat {
    if tokens == [] then 0 else Slots(tokens[..|tokens| - 1]) + if Slotted(tokens[|tokens| - 1]) then 1 else 0
  }

  /** The lengths written in the slots, each in the voice as it is when its token is read. */
  ghost function SlotTicks(st: State, tokens: seq<Token>): (us: seq<int>)
    requires Ready(st) && forall t | t in tokens :: Proper(t)
    ensures |us| == Slots(tokens)
  {
    if tokens == [] then []
    else
      var n := |tokens| - 1;
      var before := Run(st, tokens[..n]);
      SlotTicks(st, tokens[..n]) +
        if Slotted(tokens[n]) then [BaseTicks(before.voices[before.current], tokens[n])] else []
  }

  /** The tuplet st is in, with so many of its slots taken and the clock on by so much. */
  ghost predicate TupletOn(st: State, r: State, slots: int, ticks: int)
    requires Ready(st)
  {
    && r.current == st.current && r.current in r.voices
    && r.ctx.tupletLeft == st.ctx.tupletLeft - slots && r.ctx.broken == 0
    && r.ctx.tupletNum == st.ctx.tupletNum && r.ctx.tupletDen == st.ctx.tupletDen
    && r.voices[r.current].tick == st.voices[st.current].tick + ticks
  }

  /** What a token of a tuplet adds to the clock. */
  function TimeOf(st: State, t: Token, p: int, q: int): int
    requires Ready(st) && p >= 1
  {
    if Slotted(t) then AtLeastOne(Quotient(BaseTicks(st.voices[st.current], t) * q, p)) else 0
  }

  /** One token of a tuplet. */
  lemma {:induction false} TupletStep(st: State, t: Token)
    requires Ready(st) && InTuplet(t) && st.ctx.broken == 0 && (Slotted(t) ==> st.ctx.tupletLeft > 0)
    ensures TupletOn(st, Step(st, t), if Slotted(t) then 1 else 0, TimeOf(st, t, st.ctx.tupletDen, st.ctx.tupletNum))
  {
    match t
    case ChordToken(members, outer) => ChordInTuplet(st, members, outer);
    case NoteToken(pitch, length) => NoteInTuplet(st, pitch, length);
    case _ =>
  }

  lemma {:induction false} ChordInTuplet(st: State, members: seq<(Pitch, Length)>, outer: Length)
    requires Ready(st) && (forall i | 0 <= i < |members| :: 0 <= members[i].0.letter < 7)
    requires st.ctx.broken == 0 && st.ctx.tupletLeft > 0
    ensures TupletOn(st, StepChord(st, members, outer), 1,
      AtLeastOne(Quotient(BaseTicks(st.voices[st.current], ChordToken(members, outer)) * st.ctx.tupletNum,
                          st.ctx.tupletDen)))
  {
    var v := ChordPitches(st.voices[st.current], members).1;
    assert UnitTicks(v) == UnitTicks(st.voices[st.current]);
  }

  lemma {:induction false} NoteInTuplet(st: State, pitch: Pitch, length: Length)
    requires Ready(st) && 0 <= pitch.letter < 7 && st.ctx.broken == 0 && st.ctx.tupletLeft > 0
    ensures TupletOn(st, StepNote(st, pitch, length), 1,
      AtLeastOne(Quotient(BaseTicks(st.voices[st.current], NoteToken(pitch, length)) * st.ctx.tupletNum,
                          st.ctx.tupletDen)))
  {
  }

  /** Within a tick of the exact length; exact when it is whole, and never long when it is a tick. */
  lemma {:induction false} TupletNote(u: int, q: int, p: int)
    requires u >= 1 && q >= 1 && p >= 1
    ensures var d := AtLeastOne(Quotient(u * q, p));
      && -p < p * d - u * q < p
      && (u * q % p == 0 ==> p * d == u * q)
      && (u * q >= p ==> p * d <= u * q && (p * d == u * q ==> u * q % p == 0))
  {
    PositiveProduct(u, q);
    var n := u * q;
    assert n == p * (n / p) + n % p;
    WholeQuotient(n, p);
  }

  lemma {:induction false} WholeQuotient(n: int, p: int)
    requires n >= 1 && p >= 1
    ensures n >= p ==> n / p >= 1
    ensures n < p ==> n / p == 0 && n % p == n
  {
  }

  // -- what a tuplet does to lengths

  function Sum(us: seq<int>): int {
    if us == [] then 0 else Sum(us[..|us| - 1]) + us[|us| - 1]
  }

  /** The time a tuplet gives to these lengths. */
  function TupletTicks(us: seq<int>, p: int, q: int): int
    requires p >= 1
  {
    if us == [] then 0
    else TupletTicks(us[..|us| - 1], p, q) + AtLeastOne(Quotient(us[|us| - 1] * q, p))
  }

  lemma {:induction false} TupletTicksAdds(us: seq<int>, u: int, p: int, q: int)
    requires p >= 1
    ensures TupletTicks(us + [u], p, q) == TupletTicks(us, p, q) + AtLeastOne(Quotient(u * q, p))
  {
    assert (us + [u])[..|us|] == us;
  }

  predicate AllWritten(us: seq<int>) {
    forall i | 0 <= i < |us| :: us[i] >= 1
  }

  /** p divides q * u, for each length u. */
  predicate AllWhole(us: seq<int>, p: int, q: int)
    requires p >= 1
  {
    forall i | 0 <= i < |us| :: us[i] * q % p == 0
  }

  predicate AllATick(us: seq<int>, p: int, q: int) {
    forall i | 0 <= i < |us| :: us[i] * q >= p
  }

  /** q / p of what is written, to within a tick for each length; exactly so if p divides every
      q * u, and, when every q * u is at least p, only if it does. */
  ghost predicate Kept(us: seq<int>, p: int, q: int)
    requires p >= 1
  {
    Within(p, q, |us|, TupletTicks(us, p, q), Sum(us), AllWhole(us, p, q), AllATick(us, p, q))
  }

  ghost predicate Within(p: int, q: int, slots: nat, ticks: int, sum: int, whole: bool, long: bool)
    requires p >= 1
  {
    && (if slots == 0 then ticks == 0 && sum == 0 else -p * slots < p * ticks - q * sum < p * slots)
    && (whole ==> p * ticks == q * sum)
    && (long ==> p * ticks <= q * sum && (p * ticks == q * sum ==> whole))
  }

  lemma {:induction false} TupletKeeps(us: seq<int>, p: int, q: int)
    requires p >= 1 && q >= 1 && AllWritten(us)
    ensures Kept(us, p, q)
  {
    if us != [] {
      var init, u := us[..|us| - 1], us[|us| - 1];
      TupletKeeps(init, p, q);
      LastOfAll(us, p, q);
      WithinByOneMore(p, q, |init|, TupletTicks(init, p, q), Sum(init), AllWhole(init, p, q), AllATick(init, p, q), u);
    }
  }

  lemma {:induction false} LastOfAll(us: seq<int>, p: int, q: int)
    requires us != [] && p >= 1
    ensures var init, u := us[..|us| - 1], us[|us| - 1];
      && (AllWhole(us, p, q) <==> AllWhole(init, p, q) && u * q % p == 0)
      && (AllATick(us, p, q) <==> AllATick(init, p, q) && u * q >= p)
  {
    assert us == us[..|us| - 1] + [us[|us| - 1]];
  }

  lemma {:induction false} WithinByOneMore(p: int, q: int, slots: nat, ticks: int, sum: int, whole: bool, long: bool,
                                           u: int)
    requires p >= 1 && q >= 1 && u >= 1 && Within(p, q, slots, ticks, sum, whole, long)
    ensures Within(p, q, slots + 1, ticks + AtLeastOne(Quotient(u * q, p)), sum + u,
      whole && u * q % p == 0, long && u * q >= p)
  {
    var d := AtLeastOne(Quotient(u * q, p));
    TupletNote(u, q, p);
    assert p * (ticks + d) == p * ticks + p * d;
    assert q * (sum + u) == q * sum + u * q;
    assert p * (slots + 1) == p * slots + p;
  }

  // -- and so to the clock

  /** The first tokens of a tuplet (p:q:r take their slots, and the clock goes on by the time the
      tuplet gives to what is written in them. */
  lemma {:induction false} TupletTime(st: State, tokens: seq<Token>)
    requires Ready(st) && st.ctx.broken == 0 && Slots(tokens) <= st.ctx.tupletLeft
    requires (forall t | t in tokens :: InTuplet(t)) && (forall t | t in tokens :: Proper(t))
    ensures TupletOn(st, Run(st, tokens), Slots(tokens),
      TupletTicks(SlotTicks(st, tokens), st.ctx.tupletDen, st.ctx.tupletNum))
  {
    if tokens != [] {
      var init, last := tokens[..|tokens| - 1], tokens[|tokens| - 1];
      TupletTime(st, init);
      TupletOneMore(st, init, last, Run(st, init));
      assert init + [last] == tokens;
    } else {
      assert Run(st, tokens) == st;
    }
  }

  lemma {:induction false} TupletOneMore(st: State, init: seq<Token>, last: Token, before: State)
    requires Ready(st) && st.ctx.broken == 0 && InTuplet(last) && (forall t | t in init :: Proper(t))
    requires Slots(init) + (if Slotted(last) then 1 else 0) <= st.ctx.tupletLeft
    requires before == Run(st, init) && Ready(before)
    requires TupletOn(st, before, Slots(init),
      TupletTicks(SlotTicks(st, init), st.ctx.tupletDen, st.ctx.tupletNum))
    ensures TupletOn(st, Step(before, last), Slots(init + [last]),
      TupletTicks(SlotTicks(st, init + [last]), st.ctx.tupletDen, st.ctx.tupletNum))
  {
    var p, q := st.ctx.tupletDen, st.ctx.tupletNum;
    assert (init + [last])[..|init|] == init;
    TupletStep(before, last);
    if Slotted(last) {
      TupletTicksAdds(SlotTicks(st, init), BaseTicks(before.voices[before.current], last), p, q);
    } else {
      assert SlotTicks(st, init) + [] == SlotTicks(st, init);
    }
  }

  /** A tuplet over exactly the slots it announces: the clock is on by q / p of what is written, as
      nearly as that. */
  lemma {:induction false} WholeTuplet(st: State, p: int, q: nat, tokens: seq<Token>)
    requires Ready(st) && st.ctx.broken == 0 && p >= 1 && q >= 1
    requires (forall t | t in tokens :: InTuplet(t)) && (forall t | t in tokens :: Proper(t))
    requires Ready(Announced(st, p, q, Slots(tokens)))
    requires AllWritten(SlotTicks(Announced(st, p, q, Slots(tokens)), tokens))
    ensures var begun := Announced(st, p, q, Slots(tokens));
      var us := SlotTicks(begun, tokens);
      && TupletOn(begun, Run(begun, tokens), Slots(tokens), TupletTicks(us, p, q))
      && Run(begun, tokens).ctx.tupletLeft == 0
      && Clock(Run(begun, tokens)) == Clock(st) + TupletTicks(us, p, q)
      && Kept(us, p, q)
  {
    var begun := Announced(st, p, q, Slots(tokens));
    TupletTime(begun, tokens);
    TupletKeeps(SlotTicks(begun, tokens), p, q);
  }

  function Announced(st: State, p: int, q: nat, slots: nat): State
    requires Ready(st) && p >= 1
  {
    Step(st, TupletToken(p, Some(q), Some(slots)))
  }
}
