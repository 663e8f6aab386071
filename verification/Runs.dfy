/** A step repeated, each giving something out. */
module Runs {

  function Run<S, O>(step: S -> (S, O), s: S, n: nat): (r: (S, seq<O>))
    ensures |r.1| == n
  {
    if n == 0 then (s, [])
    else
      var (before, outs) := Run(step, s, n - 1);
      var (after, out) := step(before);
      (after, outs + [out])
  }

  /** A run may be cut anywhere. */
  lemma {:induction false} RunSplits<S, O>(step: S -> (S, O), s: S, n: nat, m: nat)
    ensures var (middle, first) := Run(step, s, n);
      var (last, second) := Run(step, middle, m);
      Run(step, s, n + m) == (last, first + second)
  {
    var (middle, first) := Run(step, s, n);
    if m > 0 {
      RunSplits(step, s, n, m - 1);
      var (before, second) := Run(step, middle, m - 1);
      var out := step(before).1;
      assert first + (second + [out]) == first + second + [out];
    } else {
      assert first + [] == first;
    }
  }

  /** What is seen of a state that each step changes in one way only. */
  function Steps<V>(change: V -> V, v: V, n: nat): V {
    if n == 0 then v else change(Steps(change, v, n - 1))
  }

  lemma {:induction false} RunSeen<S(!new), O, V>(step: S -> (S, O), view: S -> V, change: V -> V, s: S, n: nat)
    requires forall t :: view(step(t).0) == change(view(t))
    ensures view(Run(step, s, n).0) == Steps(change, view(s), n)
  {
    if n > 0 {
      RunSeen(step, view, change, s, n - 1);
    }
  }

  /** A step taken for each of a series. */
  function Fold<S, E>(step: (S, E) -> S, s: S, es: seq<E>): S {
    if es == [] then s else step(Fold(step, s, es[..|es| - 1]), es[|es| - 1])
  }

  lemma {:induction false} FoldKeeps<S(!new), E(!new)>(step: (S, E) -> S, holds: S -> bool, s: S, es: seq<E>)
    requires holds(s) && forall t, e :: holds(t) ==> holds(step(t, e))
    ensures holds(Fold(step, s, es))
  {
    if es != [] {
      FoldKeeps(step, holds, s, es[..|es| - 1]);
    }
  }

  lemma {:induction false} FoldSeen<S(!new), E(!new), V>(step: (S, E) -> S, view: S -> V, change: (V, E) -> V,
                                                         fits: E -> bool, s: S, es: seq<E>)
    requires forall t, e :: fits(e) ==> view(step(t, e)) == change(view(t), e)
    requires forall i | 0 <= i < |es| :: fits(es[i])
    ensures view(Fold(step, s, es)) == Fold(change, view(s), es)
  {
    if es != [] {
      FoldSeen(step, view, change, fits, s, es[..|es| - 1]);
    }
  }

  /** A step repeated at n, n + 1, ... */
  function Iterate<P>(step: (P, int) -> P, p: P, n: int, k: nat): P {
    if k == 0 then p else step(Iterate(step, p, n, k - 1), n + k - 1)
  }

  lemma {:induction false} IterateSplits<P>(step: (P, int) -> P, p: P, n: int, j: nat, k: nat)
    ensures Iterate(step, p, n, j + k) == Iterate(step, Iterate(step, p, n, j), n + j, k)
  {
    if k > 0 {
      IterateSplits(step, p, n, j, k - 1);
    }
  }

  /** What no step of a run changes, the run does not. */
  lemma {:induction false} IterateKeeps<P(!new), K>(step: (P, int) -> P, view: P -> K, p: P, n: int, k: nat)
    requires forall q, i | n <= i < n + k :: view(step(q, i)) == view(q)
    ensures view(Iterate(step, p, n, k)) == view(p)
  {
    if k > 0 {
      IterateKeeps(step, view, p, n, k - 1);
    }
  }

  /** What only one step of a run changes is what that step leaves. */
  lemma {:induction false} IterateOwn<P(!new), K>(step: (P, int) -> P, view: P -> K, p: P, n: nat, own: nat)
    requires own < n && forall q, i | 0 <= i < n && i != own :: view(step(q, i)) == view(q)
    ensures var before := Iterate(step, p, 0, own);
      view(before) == view(p) && view(Iterate(step, p, 0, n)) == view(step(before, own))
  {
    IterateKeeps(step, view, p, 0, own);
    IterateKeeps(step, view, Iterate(step, p, 0, own + 1), own + 1, n - own - 1);
    IterateSplits(step, p, 0, own + 1, n - own - 1);
  }
}
