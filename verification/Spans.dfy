/** Anything that is changed by steps due at samples, and renders samples between them: rendering
    in spans from step to step is rendering sample by sample. */
module Spans {
  import opened Runs


  /** R: what is rendered from; C: a step; S: a sample. */
  datatype Machine<!R, !C, !S> = Machine(apply: (R, C, int) -> R, due: C -> int, render: (R, nat) -> (R, seq<S>))

  /** render may be cut anywhere. */
  ghost predicate Cuttable<R(!new), C, S>(m: Machine<R, C, S>) {
    forall r, j: nat, k: nat :: Cut(m, r, j, k)
  }

  ghost predicate Cut<R, C, S>(m: Machine<R, C, S>, r: R, j: nat, k: nat) {
    var (middle, first) := m.render(r, j);
    var (last, second) := m.render(middle, k);
    m.render(r, j + k) == (last, first + second)
  }

  /** All steps due by now, in order, from the cursor on. */
  function Due<R, C, S>(m: Machine<R, C, S>, cues: seq<C>, r: R, cursor: int, now: int): (d: (R, int))
    ensures 0 <= cursor <= |cues| ==> cursor <= d.1 <= |cues|
    ensures forall i | 0 <= cursor <= i < d.1 :: i < |cues| && m.due(cues[i]) <= now
    ensures 0 <= d.1 < |cues| ==> m.due(cues[d.1]) > now
    decreases |cues| - cursor
  {
    if 0 <= cursor < |cues| && m.due(cues[cursor]) <= now
      then Due(m, cues, m.apply(r, cues[cursor], now), cursor + 1, now)
    else (r, cursor)
  }

  datatype Played<R, S> = Played(rig: R, cursor: int, outs: seq<S>)

  /** The steps due at n applied, and a span rendered. */
  function Leap<R, C, S>(m: Machine<R, C, S>, cues: seq<C>, p: Played<R, S>, n: int, span: nat): (q: Played<R, S>)
    ensures 0 <= p.cursor <= |cues| ==> 0 <= q.cursor <= |cues|
  {
    var (ready, cursor) := Due(m, cues, p.rig, p.cursor, n);
    var (after, outs) := m.render(ready, span);
    Played(after, cursor, p.outs + outs)
  }

  function OneSample<R, C, S>(m: Machine<R, C, S>, cues: seq<C>): (Played<R, S>, int) -> Played<R, S> {
    (p, n) => Leap(m, cues, p, n, 1)
  }

  /** Played the plain way: before each sample the steps due by it. */
  function Plain<R, C, S>(m: Machine<R, C, S>, cues: seq<C>, r: R, n: nat): Played<R, S> {
    Iterate(OneSample(m, cues), Played(r, 0, []), 0, n)
  }

  lemma {:induction false} CursorStays<R, C, S>(m: Machine<R, C, S>, cues: seq<C>, r: R, n: nat)
    ensures 0 <= Plain(m, cues, r, n).cursor <= |cues|
  {
    if n > 0 {
      CursorStays(m, cues, r, n - 1);
    }
  }

  /** Nothing more is due before a sample. */
  predicate NextFrom<R, C, S>(m: Machine<R, C, S>, cues: seq<C>, cursor: int, n: int) {
    0 <= cursor < |cues| ==> m.due(cues[cursor]) >= n
  }

  lemma {:induction false} LeapSplits<R, C, S>(m: Machine<R, C, S>, cues: seq<C>, p: Played<R, S>, n: int, span: nat)
    requires NextFrom(m, cues, Due(m, cues, p.rig, p.cursor, n).1, n + span + 1)
    requires Cut(m, Due(m, cues, p.rig, p.cursor, n).0, span, 1)
    ensures Leap(m, cues, p, n, span + 1) == Leap(m, cues, Leap(m, cues, p, n, span), n + span, 1)
  {
    var (ready, cursor) := Due(m, cues, p.rig, p.cursor, n);
    var (middle, outs) := m.render(ready, span);
    DueStays(m, cues, middle, cursor, n + span);
    Associate(p.outs, outs, m.render(middle, 1).1);
  }

  lemma {:induction false} DueGoesOn<R, C, S>(m: Machine<R, C, S>, cues: seq<C>, r: R, cursor: int, now: int)
    requires 0 <= cursor < |cues| && m.due(cues[cursor]) <= now
    ensures Due(m, cues, r, cursor, now) == Due(m, cues, m.apply(r, cues[cursor], now), cursor + 1, now)
  {
  }

  lemma {:induction false} DueStays<R, C, S>(m: Machine<R, C, S>, cues: seq<C>, r: R, cursor: int, now: int)
    requires NextFrom(m, cues, cursor, now + 1)
    ensures Due(m, cues, r, cursor, now) == (r, cursor)
  {
  }

  lemma {:induction false} Associate<S>(a: seq<S>, b: seq<S>, c: seq<S>)
    ensures a + b + c == a + (b + c)
  {
  }

  /** Between two steps the plain player only renders, so it may as well do so all at once. */
  lemma {:induction false} SpanIsPlain<R(!new), C, S>(m: Machine<R, C, S>, cues: seq<C>, p: Played<R, S>, n: int,
                                                      span: nat)
    requires Cuttable(m) && span >= 1
    requires NextFrom(m, cues, Due(m, cues, p.rig, p.cursor, n).1, n + span)
    ensures Leap(m, cues, p, n, span) == Iterate(OneSample(m, cues), p, n, span)
  {
    if span > 1 {
      SpanIsPlain(m, cues, p, n, span - 1);
      LeapSplits(m, cues, p, n, span - 1);
    } else {
      assert Iterate(OneSample(m, cues), p, n, 0) == p;
    }
  }

  /** How far to render: to the next step, or to the end. */
  function SpanOf<R, C, S>(m: Machine<R, C, S>, cues: seq<C>, cursor: int, filled: nat, frames: nat): (span: nat)
    requires filled < frames
    ensures 1 <= span <= frames - filled
  {
    if 0 <= cursor < |cues| then
      var gap := m.due(cues[cursor]) - filled;
      var gap := if gap < 1 then 1 else gap;
      if gap < frames - filled then gap else frames - filled
    else frames - filled
  }

  /** One turn of the player's loop: the steps due, and a span up to the next one. */
  function Turnover<R, C, S>(m: Machine<R, C, S>, cues: seq<C>, p: Played<R, S>, filled: nat,
                             frames: nat): (q: (Played<R, S>, nat))
    requires filled < frames
    ensures filled < q.1 <= frames
  {
    var span := SpanOf(m, cues, Due(m, cues, p.rig, p.cursor, filled).1, filled, frames);
    (Leap(m, cues, p, filled, span), filled + span)
  }

  lemma {:induction false} TurnoverIs<R, C, S>(m: Machine<R, C, S>, cues: seq<C>, p: Played<R, S>, filled: nat,
                                               frames: nat, ready: R, cursor: int, span: nat)
    requires filled < frames && Due(m, cues, p.rig, p.cursor, filled) == (ready, cursor)
    requires span == SpanOf(m, cues, cursor, filled, frames)
    ensures var (after, outs) := m.render(ready, span);
      Turnover(m, cues, p, filled, frames) == (Played(after, cursor, p.outs + outs), filled + span)
  {
  }

  lemma {:induction false} TurnIsPlain<R(!new), C, S>(m: Machine<R, C, S>, cues: seq<C>, r: R, filled: nat, frames: nat)
    requires Cuttable(m) && filled < frames
    ensures var (q, now) := Turnover(m, cues, Plain(m, cues, r, filled), filled, frames); q == Plain(m, cues, r, now)
  {
    var p := Plain(m, cues, r, filled);
    var cursor := Due(m, cues, p.rig, p.cursor, filled).1;
    SpanReachesNext(m, cues, cursor, filled, frames);
    LeapIsPlain(m, cues, r, filled, SpanOf(m, cues, cursor, filled, frames));
  }

  /** Nothing is due before the end of a span but what is due at its start. */
  lemma {:induction false} SpanReachesNext<R, C, S>(m: Machine<R, C, S>, cues: seq<C>, cursor: int, filled: nat,
                                                    frames: nat)
    requires filled < frames
    ensures NextFrom(m, cues, cursor, filled + 1) ==>
      NextFrom(m, cues, cursor, filled + SpanOf(m, cues, cursor, filled, frames))
  {
  }

  lemma {:induction false} LeapIsPlain<R(!new), C, S>(m: Machine<R, C, S>, cues: seq<C>, r: R, filled: nat, span: nat)
    requires Cuttable(m) && span >= 1
    requires var p := Plain(m, cues, r, filled);
      NextFrom(m, cues, Due(m, cues, p.rig, p.cursor, filled).1, filled + span)
    ensures Leap(m, cues, Plain(m, cues, r, filled), filled, span) == Plain(m, cues, r, filled + span)
  {
    SpanIsPlain(m, cues, Plain(m, cues, r, filled), filled, span);
    IterateSplits(OneSample(m, cues), Played(r, 0, []), 0, filled, span);
  }

  // -- when steps are applied

  ghost predicate InOrder<R, C, S>(m: Machine<R, C, S>, cues: seq<C>) {
    && (forall i | 0 <= i < |cues| :: m.due(cues[i]) >= 0)
    && forall i, j | 0 <= i < j < |cues| :: m.due(cues[i]) <= m.due(cues[j])
  }

  /** The steps before the cursor are exactly those before this sample. */
  ghost predicate From<R, C, S>(m: Machine<R, C, S>, cues: seq<C>, cursor: int, n: int) {
    forall i | 0 <= i < |cues| :: i < cursor <==> m.due(cues[i]) < n
  }

  lemma {:induction false} DueOnTime<R, C, S>(m: Machine<R, C, S>, cues: seq<C>, r: R, cursor: nat, n: nat)
    requires InOrder(m, cues) && cursor <= |cues| && From(m, cues, cursor, n)
    ensures From(m, cues, Due(m, cues, r, cursor, n).1, n + 1)
  {
    var now := Due(m, cues, r, cursor, n).1;
    forall i | now <= i < |cues|
      ensures m.due(cues[i]) > n
    {
      assert m.due(cues[now]) <= m.due(cues[i]);
    }
  }

  /** Before sample n is played exactly the steps of the samples before n have been applied: so
      each step is applied at the very sample it was written for. */
  lemma {:induction false} AppliedOnTime<R, C, S>(m: Machine<R, C, S>, cues: seq<C>, r: R, n: nat)
    requires InOrder(m, cues)
    ensures From(m, cues, Plain(m, cues, r, n).cursor, n)
  {
    if n > 0 {
      CursorStays(m, cues, r, n - 1);
      AppliedOnTime(m, cues, r, n - 1);
      var last := Plain(m, cues, r, n - 1);
      DueOnTime(m, cues, last.rig, last.cursor, n - 1);
    }
  }
}
