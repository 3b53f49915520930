/** Evaluation scores: integers together with the two infinities that the
    search uses as its initial window and as the "no move yet" score. */
module Scores {

  datatype Score = NegInf | Fin(v: int) | PosInf

  predicate Le(a: Score, b: Score) {
    a.NegInf? || b.PosInf? || (a.Fin? && b.Fin? && a.v <= b.v)
  }

  predicate Lt(a: Score, b: Score) {
    !Le(b, a)
  }

  function Max(a: Score, b: Score): Score {
    if Le(a, b) then b else a
  }

  function Min(a: Score, b: Score): Score {
    if Le(a, b) then a else b
  }

  function Neg(a: Score): Score {
    match a
    case NegInf => PosInf
    case Fin(v) => Fin(-v)
    case PosInf => NegInf
  }

  /** White maximises, black minimises. */
  function Better(white: bool, a: Score, b: Score): Score {
    if white then Max(a, b) else Min(a, b)
  }

  /** `a` is at least as good as `b` for the given side. */
  predicate AsGood(white: bool, a: Score, b: Score) {
    if white then Le(b, a) else Le(a, b)
  }

  /** The score every move improves on. */
  function Worst(white: bool): Score {
    if white then NegInf else PosInf
  }

  /** The fail-soft contract between a true value `v`, a returned score `r` and
      the window (`a`, `b`): at or below the window `r` is an upper bound, at or
      above it a lower bound, and strictly inside it `r` is exact. */
  predicate FailSoft(v: Score, r: Score, a: Score, b: Score) {
    && (Le(r, a) ==> Le(v, r))
    && (Le(b, r) ==> Le(r, v))
    && (Lt(a, r) && Lt(r, b) ==> r == v)
  }

  /** One more child in white's loop: its window starts at the running best. */
  lemma FailSoftMaxStep(V: Score, best: Score, v: Score, s: Score, a: Score, b: Score)
    requires Lt(a, b) && Lt(best, b)
    requires FailSoft(V, best, a, b)
    requires FailSoft(v, s, Max(a, best), b)
    ensures FailSoft(Max(V, v), Max(best, s), a, b)
  {
  }

  /** One more child in black's loop. */
  lemma FailSoftMinStep(V: Score, best: Score, v: Score, s: Score, a: Score, b: Score)
    requires Lt(a, b) && Lt(a, best)
    requires FailSoft(V, best, a, b)
    requires FailSoft(v, s, a, Min(b, best))
    ensures FailSoft(Min(V, v), Min(best, s), a, b)
  {
  }

  /** A table hit may raise alpha to a proven lower bound or lower beta to a
      proven upper bound. A result for the narrowed window still meets the
      contract for the window the caller asked for. */
  lemma NarrowedWindow(v: Score, r: Score, a: Score, b: Score, a': Score, b': Score)
    requires a' == a || (Le(a, a') && Le(a', v))
    requires b' == b || (Le(b', b) && Le(v, b'))
    requires FailSoft(v, r, a', b')
    ensures FailSoft(v, r, a, b)
  {
  }

  /** The best score a side finds among `f` of the given items, starting from `start`. */
  function BestOf<T>(white: bool, start: Score, items: seq<T>, f: T -> Score): Score {
    if items == [] then start
    else Better(white, BestOf(white, start, items[..|items| - 1], f), f(items[|items| - 1]))
  }

  lemma BestOfStep<T>(white: bool, start: Score, items: seq<T>, f: T -> Score, i: nat)
    requires i < |items|
    ensures BestOf(white, start, items[..i + 1], f) == Better(white, BestOf(white, start, items[..i], f), f(items[i]))
  {
    assert items[..i + 1][..i] == items[..i];
  }

  /** Nothing in the list beats the best score. */
  lemma {:induction false} BestOfBounds<T>(white: bool, start: Score, items: seq<T>, f: T -> Score)
    ensures AsGood(white, BestOf(white, start, items, f), start)
    ensures forall x :: x in items ==> AsGood(white, BestOf(white, start, items, f), f(x))
  {
    if items != [] {
      var n := |items| - 1;
      BestOfBounds(white, start, items[..n], f);
      forall x | x in items
        ensures AsGood(white, BestOf(white, start, items, f), f(x))
      {
        assert x == items[n] || x in items[..n];
      }
    }
  }

  /** The best score is the starting one or some item's. */
  lemma {:induction false} BestOfAttained<T>(white: bool, start: Score, items: seq<T>, f: T -> Score)
    ensures BestOf(white, start, items, f) == start || exists x :: x in items && f(x) == BestOf(white, start, items, f)
  {
    if items != [] {
      var n := |items| - 1;
      BestOfAttained(white, start, items[..n], f);
      assert items[n] in items;
    }
  }

  ghost predicate SameMembers<T(!new)>(xs: seq<T>, ys: seq<T>) {
    forall x :: x in xs <==> x in ys
  }

  /** Order and repetition do not matter: lists with the same members have the same best. */
  lemma BestOfSameMembers<T(!new)>(white: bool, start: Score, xs: seq<T>, ys: seq<T>, f: T -> Score)
    requires SameMembers(xs, ys)
    ensures BestOf(white, start, xs, f) == BestOf(white, start, ys, f)
  {
    BestOfBounds(white, start, xs, f);
    BestOfAttained(white, start, xs, f);
    BestOfBounds(white, start, ys, f);
    BestOfAttained(white, start, ys, f);
  }

  /** More items can only help. */
  lemma {:induction false} BestOfPrefix<T>(white: bool, start: Score, items: seq<T>, f: T -> Score, i: nat)
    requires i <= |items|
    ensures AsGood(white, BestOf(white, start, items, f), BestOf(white, start, items[..i], f))
  {
    BestOfBounds(white, start, items, f);
    BestOfAttained(white, start, items[..i], f);
  }

  lemma {:induction false} BestOfSameScores<T>(white: bool, start: Score, items: seq<T>, f: T -> Score, f': T -> Score)
    requires forall m :: m in items ==> f(m) == f'(m)
    ensures BestOf(white, start, items, f) == BestOf(white, start, items, f')
  {
    if items != [] {
      var n := |items| - 1;
      assert items[n] in items && forall m :: m in items[..n] ==> m in items;
      BestOfSameScores(white, start, items[..n], f, f');
    }
  }

  /** A finite best: neither infinity survives once there is a move. */
  lemma BestOfFinite<T>(white: bool, start: Score, items: seq<T>, f: T -> Score)
    requires forall m :: m in items ==> f(m).Fin?
    requires start.Fin? || (items != [] && start == Worst(white))
    ensures BestOf(white, start, items, f).Fin?
  {
    var best := BestOf(white, start, items, f);
    BestOfBounds(white, start, items, f);
    BestOfAttained(white, start, items, f);
    if items != [] {
      var first := items[0];
      assert first in items;
      assert f(first).Fin? && AsGood(white, best, f(first));
    }
  }
}
