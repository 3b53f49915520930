/** Forced mates, told from the moves, the side to move and the status of boards alone, and
    what plain minimax makes of them. */
module Mates {
  import opened Options
  import opened Scores
  import opened GameTree

  /** The side has mated, or can force mate in at most `n` more plies. */
  ghost predicate MateIn(g: Game, side: bool, p: Position, n: nat)
    decreases n, 1
  {
    if InfoOf(g, p).status.Checkmate? then White(g, p) != side
    else GoesOn(g, p) && Forces(g, side, p, n)
  }

  /** Playing on from the board, whatever its status, the side forces mate in at most `n`
      plies: by some move of its own, or against every move of the other side. */
  ghost predicate Forces(g: Game, side: bool, p: Position, n: nat)
    decreases n, 0
  {
    && n >= 1 && Legal(g, p) != []
    && if White(g, p) == side then exists m :: m in Legal(g, p) && MateIn(g, side, Play(g, p, m), n - 1)
       else forall m :: m in Legal(g, p) ==> MateIn(g, side, Play(g, p, m), n - 1)
  }

  /** The least number of plies in which the side forces mate from a root. */
  ghost predicate ForcesFirst(g: Game, side: bool, p: Position, n: nat) {
    n >= 1 && Forces(g, side, p, n) && !Forces(g, side, p, n - 1)
  }

  predicate MatesAtOnce(g: Game, p: Position, m: Move) {
    m in Legal(g, p) && InfoOf(g, Play(g, p, m)).status.Checkmate? && White(g, Play(g, p, m)) != White(g, p)
  }

  /** Evaluations stay clear of the scores of mates, as deep as the search looks. */
  ghost predicate ModestEvals(g: Game, root: Position, horizon: nat) {
    && horizon + QUIESCENCE_DEPTH + 1 < 100_000
    && forall n: nat, p: Position {:trigger Searched(g, root, horizon, p, n)} ::
        Searched(g, root, horizon, p, n) ==> -(100_000 - horizon) < InfoOf(g, p).eval < 100_000 - horizon
  }

  /** The score of mating after `k` plies. */
  function MateScore(side: bool, k: int): Score {
    Fin(if side then 100_000 - k else -100_000 + k)
  }

  /** What a search of the root to `depth` says about mates. */
  ghost predicate MatesAnswered(g: Game, p: Position, depth: nat, move: Move, score: Score) {
    forall side: bool, n: nat :: n <= depth ==>
      && (ForcesFirst(g, side, p, n) ==>
            && score == Fin(if side then 100_000 - n else -100_000 + n)
            && (White(g, p) == side ==> MateIn(g, side, Play(g, p, move), n - 1))
            && (White(g, p) != side && n >= 2 ==> !MateIn(g, side, Play(g, p, move), n - 2)))
      && (!Forces(g, side, p, n) ==> score.Fin? && if side then score.v < 100_000 - n else score.v > -100_000 + n)
  }

  ghost predicate MateInOneAnswered(g: Game, p: Position, move: Move, score: Score) {
    (exists m :: MatesAtOnce(g, p, m)) ==>
      MatesAtOnce(g, p, move) && score == Fin(if White(g, p) then 99_999 else -99_999)
  }

  // ---- A forced mate is worth at least its score.

  lemma {:induction false} MateWorth(g: Game, side: bool, p: Position, n: nat, depth: nat, ply: nat)
    requires MateIn(g, side, p, n) && n <= depth
    ensures AsGood(side, Value(g, p, depth, ply), MateScore(side, ply + n))
    decreases n
  {
    if GoesOn(g, p) {
      var f := Children(g, p, depth - 1, ply + 1);
      forall m | m in Legal(g, p) && MateIn(g, side, Play(g, p, m), n - 1)
        ensures AsGood(side, f(m), MateScore(side, ply + n))
      {
        MateWorth(g, side, Play(g, p, m), n - 1, depth - 1, ply + 1);
      }
      hide MateIn;
      BestOfBounds(White(g, p), Worst(White(g, p)), Legal(g, p), f);
      BestOfAttained(White(g, p), Worst(White(g, p)), Legal(g, p), f);
    }
  }

  // ---- Nothing is worth more than mating on the spot.

  ghost predicate Within(v: Score, least: int) {
    Le(MateScore(false, least), v) && Le(v, MateScore(true, least))
  }

  lemma BestWithin<T>(white: bool, start: Score, items: seq<T>, f: T -> Score, least: int)
    requires start == Worst(white) || Within(start, least)
    requires items != [] || Within(start, least)
    requires forall x :: x in items ==> Within(f(x), least)
    ensures Within(BestOf(white, start, items, f), least)
  {
    BestOfBounds(white, start, items, f);
    BestOfAttained(white, start, items, f);
    if items != [] {
      assert items[0] in items;
      assert Within(f(items[0]), least);
    }
  }

  lemma EndWithin(g: Game, root: Position, horizon: nat, p: Position, ply: nat, least: nat)
    requires ModestEvals(g, root, horizon) && Searched(g, root, horizon, p, ply) && least <= horizon + 1
    requires ply <= horizon + QUIESCENCE_DEPTH + 1
    ensures least <= ply || GoesOn(g, p) ==> Within(LeafScore(g, p, ply), least) && (TerminalScore(g, p, ply).None? ==> Within(StandPat(g, p), least))
  {
    hide Searched;
  }

  lemma {:induction false} QWithin(g: Game, root: Position, horizon: nat, p: Position, ply: nat, qdepth: nat, least: nat)
    requires ModestEvals(g, root, horizon) && Searched(g, root, horizon, p, ply) && least <= horizon + 1
    requires ply + qdepth <= horizon + QUIESCENCE_DEPTH
    requires least <= ply || (GoesOn(g, p) && least <= ply + 1)
    ensures Within(QValue(g, p, ply, qdepth), least)
    decreases qdepth
  {
    hide Searched;
    EndWithin(g, root, horizon, p, ply, least);
    hide ModestEvals;
    var white, moves := White(g, p), QuietMoves(g, p);
    if TerminalScore(g, p, ply).None? && moves != [] && (qdepth > 0 || InfoOf(g, p).inCheck) {
      forall m | m in moves
        ensures Searched(g, root, horizon, Play(g, p, m), ply + 1)
      {
        SearchedNext(g, root, horizon, p, ply, m);
      }
      if qdepth == 0 {
        forall m | m in moves
          ensures Within(LeafScores(g, p, ply + 1)(m), least)
        {
          EndWithin(g, root, horizon, Play(g, p, m), ply + 1, least);
        }
        BestWithin(white, Worst(white), moves, LeafScores(g, p, ply + 1), least);
      } else {
        forall m | m in moves
          ensures Within(QChildren(g, p, ply + 1, qdepth - 1)(m), least)
        {
          QWithin(g, root, horizon, Play(g, p, m), ply + 1, qdepth - 1, least);
        }
        BestWithin(white, QStart(g, p), moves, QChildren(g, p, ply + 1, qdepth - 1), least);
      }
    }
  }

  lemma {:induction false} ValueWithin(g: Game, root: Position, horizon: nat, p: Position, depth: nat, ply: nat)
    requires ModestEvals(g, root, horizon) && StuckIsOver(g) && Reached(g, root, p, ply) && ply + depth <= horizon
    ensures Within(Value(g, p, depth, ply), ply)
    decreases depth
  {
    hide Reached;
    assert Searched(g, root, horizon, p, ply);
    EndWithin(g, root, horizon, p, ply, ply);
    if TerminalScore(g, p, ply).None? {
      if depth == 0 {
        QWithin(g, root, horizon, p, ply, QUIESCENCE_DEPTH, ply);
      } else {
        hide ModestEvals;
        hide QValue;
        forall m | m in Legal(g, p)
          ensures Within(Children(g, p, depth - 1, ply + 1)(m), ply)
        {
          ReachedNext(g, root, p, ply, m);
          ValueWithin(g, root, horizon, Play(g, p, m), depth - 1, ply + 1);
        }
        BestWithin(White(g, p), Worst(White(g, p)), Legal(g, p), Children(g, p, depth - 1, ply + 1), ply);
      }
    }
  }

  // ---- Without a forced mate nothing is worth as much.

  /** The score of a mate one ply later than `k` from here is not beaten. */
  lemma {:induction false} NoMateWorth(g: Game, root: Position, horizon: nat, side: bool, p: Position, k: nat, depth: nat, ply: nat)
    requires ModestEvals(g, root, horizon) && StuckIsOver(g) && Reached(g, root, p, ply) && ply + depth <= horizon
    requires k <= depth && !MateIn(g, side, p, k)
    ensures AsGood(side, MateScore(side, ply + k + 1), Value(g, p, depth, ply))
    decreases depth
  {
    hide Reached;
    assert Searched(g, root, horizon, p, ply);
    if GoesOn(g, p) {
      if depth == 0 {
        QWithin(g, root, horizon, p, ply, QUIESCENCE_DEPTH, ply + 1);
      } else {
        hide ModestEvals;
        hide QValue;
        NoMateStep(g, root, horizon, side, p, k, depth, ply);
      }
    }
  }

  lemma {:induction false} NoMateStep(g: Game, root: Position, horizon: nat, side: bool, p: Position, k: nat, depth: nat, ply: nat)
    requires ModestEvals(g, root, horizon) && StuckIsOver(g) && Reached(g, root, p, ply) && ply + depth <= horizon
    requires k <= depth && depth >= 1 && (ply == 0 || GoesOn(g, p)) && Legal(g, p) != [] && !Forces(g, side, p, k)
    ensures AsGood(side, MateScore(side, ply + k + 1), BestOf(White(g, p), Worst(White(g, p)), Legal(g, p), Children(g, p, depth - 1, ply + 1)))
    decreases depth, 0
  {
    hide Reached;
    hide ModestEvals;
    hide Value;
    var f, moves, white := Children(g, p, depth - 1, ply + 1), Legal(g, p), White(g, p);
    forall m | m in moves
      ensures Within(f(m), ply + 1)
      ensures k >= 1 && !MateIn(g, side, Play(g, p, m), k - 1) ==> AsGood(side, MateScore(side, ply + k + 1), f(m))
    {
      ReachedNext(g, root, p, ply, m);
      ValueWithin(g, root, horizon, Play(g, p, m), depth - 1, ply + 1);
      if k >= 1 && !MateIn(g, side, Play(g, p, m), k - 1) {
        NoMateWorth(g, root, horizon, side, Play(g, p, m), k - 1, depth - 1, ply + 1);
      }
    }
    hide MateIn;
    BestWithin(white, Worst(white), moves, f, ply + 1);
    BestOfBounds(white, Worst(white), moves, f);
    BestOfAttained(white, Worst(white), moves, f);
  }

  // ---- The root.

  lemma RootWithin(g: Game, p: Position, depth: nat, m: Move)
    requires ModestEvals(g, p, depth) && StuckIsOver(g) && depth >= 1 && m in Legal(g, p)
    ensures Reached(g, p, Play(g, p, m), 1) && Within(Value(g, Play(g, p, m), depth - 1, 1), 1)
  {
    assert Reached(g, p, p, 0);
    ReachedNext(g, p, p, 0, m);
    hide Reached;
    ValueWithin(g, p, depth, Play(g, p, m), depth - 1, 1);
  }

  lemma RootForces(g: Game, side: bool, p: Position, n: nat, depth: nat)
    requires Forces(g, side, p, n) && n <= depth
    ensures AsGood(side, RootValue(g, p, depth), MateScore(side, n))
  {
    var f := Children(g, p, depth - 1, 1);
    forall m | m in Legal(g, p) && MateIn(g, side, Play(g, p, m), n - 1)
      ensures AsGood(side, f(m), MateScore(side, n))
    {
      MateWorth(g, side, Play(g, p, m), n - 1, depth - 1, 1);
    }
    hide MateIn;
    hide Value;
    BestOfBounds(White(g, p), Worst(White(g, p)), Legal(g, p), f);
    BestOfAttained(White(g, p), Worst(White(g, p)), Legal(g, p), f);
  }

  /** The search's answer at a root: a forced mate is scored by its least length and
      pursued as fast, or put off as long, as can be; without one no mate is announced. */
  lemma MatesFound(g: Game, p: Position, depth: nat, move: Move, score: Score)
    requires ModestEvals(g, p, depth) && StuckIsOver(g) && depth >= 1 && Legal(g, p) != []
    requires score == RootValue(g, p, depth) && move in Legal(g, p) && Value(g, Play(g, p, move), depth - 1, 1) == score
    ensures MatesAnswered(g, p, depth, move, score)
  {
    hide RootValue;
    hide Value;
    hide ModestEvals;
    hide Reached;
    hide Forces;
    hide MateIn;
    RootWithin(g, p, depth, move);
    forall side: bool, n: nat | n <= depth
      ensures !Forces(g, side, p, n) ==> AsGood(side, MateScore(side, n + 1), score)
    {
      if !Forces(g, side, p, n) {
        NotForced(g, side, p, n, depth);
      }
    }
    forall side: bool, n: nat | n <= depth && ForcesFirst(g, side, p, n)
      ensures score == MateScore(side, n)
      ensures White(g, p) == side ==> MateIn(g, side, Play(g, p, move), n - 1)
      ensures White(g, p) != side && n >= 2 ==> !MateIn(g, side, Play(g, p, move), n - 2)
    {
      MateFound(g, side, p, n, depth, move, score);
    }
  }

  lemma MateFound(g: Game, side: bool, p: Position, n: nat, depth: nat, move: Move, score: Score)
    requires ModestEvals(g, p, depth) && StuckIsOver(g) && depth >= 1 && Legal(g, p) != []
    requires score == RootValue(g, p, depth) && move in Legal(g, p) && Value(g, Play(g, p, move), depth - 1, 1) == score
    requires n <= depth && ForcesFirst(g, side, p, n)
    ensures score == MateScore(side, n)
    ensures White(g, p) == side ==> MateIn(g, side, Play(g, p, move), n - 1)
    ensures White(g, p) != side && n >= 2 ==> !MateIn(g, side, Play(g, p, move), n - 2)
  {
    hide RootValue;
    hide Value;
    hide ModestEvals;
    hide Reached;
    hide Forces;
    hide MateIn;
    RootWithin(g, p, depth, move);
    RootForces(g, side, p, n, depth);
    NotForced(g, side, p, n - 1, depth);
    if !MateIn(g, side, Play(g, p, move), n - 1) {
      NoMateWorth(g, p, depth, side, Play(g, p, move), n - 1, depth - 1, 1);
    }
    if n >= 2 && MateIn(g, side, Play(g, p, move), n - 2) {
      MateWorth(g, side, Play(g, p, move), n - 2, depth - 1, 1);
    }
  }

  lemma NotForced(g: Game, side: bool, p: Position, n: nat, depth: nat)
    requires ModestEvals(g, p, depth) && StuckIsOver(g) && 1 <= depth && n <= depth && Legal(g, p) != [] && !Forces(g, side, p, n)
    ensures AsGood(side, MateScore(side, n + 1), RootValue(g, p, depth))
  {
    assert Reached(g, p, p, 0);
    NoMateStep(g, p, depth, side, p, n, depth, 0);
  }

  lemma ModestShallower(g: Game, root: Position, shallow: nat, deep: nat)
    requires 1 <= shallow <= deep && ModestEvals(g, root, deep)
    ensures ModestEvals(g, root, shallow)
  {
    hide Searched;
    forall n: nat, p: Position | Searched(g, root, shallow, p, n)
      ensures Searched(g, root, deep, p, n)
    {
      SearchedDeeper(g, root, shallow, deep, p, n);
    }
  }

  /** A root move that mates is answered, whatever the depth. */
  lemma MateInOneFound(g: Game, p: Position, depth: nat, move: Move, score: Score)
    requires depth >= 1 && Legal(g, p) != [] && move in Legal(g, p) && MatesAnswered(g, p, depth, move, score)
    ensures MateInOneAnswered(g, p, move, score)
  {
    if m :| MatesAtOnce(g, p, m) {
      assert MateIn(g, White(g, p), Play(g, p, m), 0);
      assert ForcesFirst(g, White(g, p), p, 1);
      assert MateIn(g, White(g, p), Play(g, p, move), 0);
    }
  }

  /** The one-ply fallback answers a mating move too. */
  lemma StaticMate(g: Game, p: Position, move: Move)
    requires move in Legal(g, p) && StaticScore(g, Play(g, p, move)) == StaticBest(g, p)
    ensures (exists m :: MatesAtOnce(g, p, m)) ==> MatesAtOnce(g, p, move)
  {
    if m :| MatesAtOnce(g, p, m) {
      BestOfBounds(White(g, p), Worst(White(g, p)), Legal(g, p), StaticScores(g, p));
      assert StaticScores(g, p)(m) == Worst(!White(g, p));
    }
  }

  // ---- Quiet boards.

  /** Nothing is happening: the game goes on, no check, nothing to capture or promote. */
  predicate Settled(g: Game, p: Position) {
    GoesOn(g, p) && !InfoOf(g, p).inCheck && forall m :: m in Legal(g, p) ==> m !in InfoOf(g, p).tactical
  }

  /** The best evaluation a side can choose among the boards after some moves, or keep. */
  ghost predicate BestEval(g: Game, p: Position, moves: set<Move>, keep: bool, score: Score) {
    && ((keep && score == Fin(InfoOf(g, p).eval)) || exists m :: m in moves && score == Fin(InfoOf(g, Play(g, p, m)).eval))
    && (keep ==> AsGood(White(g, p), score, Fin(InfoOf(g, p).eval)))
    && forall m :: m in moves ==> AsGood(White(g, p), score, Fin(InfoOf(g, Play(g, p, m)).eval))
  }

  /** What quiescence comes to on boards where little is happening. Outside check a side
      may stand pat; in check it may not, and every evasion counts. */
  ghost predicate QuietMeaning(g: Game, p: Position, ply: nat, qdepth: nat, score: Score) {
    var i := InfoOf(g, p);
    && (i.status.Drawn? ==> score == Fin(0))
    && (i.status.Checkmate? ==> score == Fin(if i.whiteToMove then -100_000 + ply else 100_000 - ply))
    && (Settled(g, p) ==> score == Fin(i.eval))
    && (GoesOn(g, p) && !i.inCheck ==> AsGood(White(g, p), score, Fin(i.eval)))
    && (GoesOn(g, p) && !i.inCheck && qdepth >= 1 && (forall m :: m in i.legal && m in i.tactical ==> Settled(g, Play(g, p, m))) ==>
          BestEval(g, p, set m | m in i.legal && m in i.tactical, true, score))
    && (GoesOn(g, p) && i.inCheck && i.legal != [] && (forall m :: m in i.legal ==> Settled(g, Play(g, p, m))) ==>
          BestEval(g, p, set m | m in i.legal, false, score))
  }

  lemma SettledValue(g: Game, p: Position, ply: nat, qdepth: nat)
    requires Settled(g, p)
    ensures QValue(g, p, ply, qdepth) == Fin(InfoOf(g, p).eval) == LeafScore(g, p, ply)
  {
    var i := InfoOf(g, p);
    NothingKept(i.legal, i.tactical);
    assert QuietMoves(g, p) == Filter(i.legal, i.tactical);
  }

  lemma {:induction false} NothingKept(s: seq<Move>, keep: set<Move>)
    requires forall m :: m in s ==> m !in keep
    ensures Filter(s, keep) == []
  {
    if s != [] {
      var first, rest := s[0], s[1..];
      assert first in s && first !in keep;
      NothingKept(rest, keep);
      assert Filter(s, keep) == Filter(rest, keep);
    }
  }

  lemma QuietValue(g: Game, p: Position, ply: nat, qdepth: nat)
    ensures QuietMeaning(g, p, ply, qdepth, QValue(g, p, ply, qdepth))
  {
    var i, moves, white := InfoOf(g, p), QuietMoves(g, p), White(g, p);
    if Settled(g, p) {
      SettledValue(g, p, ply, qdepth);
    }
    if GoesOn(g, p) && !i.inCheck && qdepth >= 1 {
      BestOfBounds(white, StandPat(g, p), moves, QChildren(g, p, ply + 1, qdepth - 1));
      if forall m :: m in i.legal && m in i.tactical ==> Settled(g, Play(g, p, m)) {
        QuietCaptures(g, p, ply, qdepth);
      }
    }
    if GoesOn(g, p) && i.inCheck && i.legal != [] && (forall m :: m in i.legal ==> Settled(g, Play(g, p, m))) {
      QuietEvasions(g, p, ply, qdepth);
    }
  }

  /** With the full window quiescence answers its plain value. */
  lemma FullWindowQuiet(g: Game, p: Position, ply: nat, qdepth: nat, score: Score)
    requires FailSoft(QValue(g, p, ply, qdepth), score, NegInf, PosInf)
    ensures QuietMeaning(g, p, ply, qdepth, score)
  {
    QValueFinite(g, p, ply, qdepth);
    QuietValue(g, p, ply, qdepth);
    hide QValue;
    hide QuietMeaning;
    assert score == QValue(g, p, ply, qdepth);
  }

  lemma QuietCaptures(g: Game, p: Position, ply: nat, qdepth: nat)
    requires GoesOn(g, p) && !InfoOf(g, p).inCheck && qdepth >= 1
    requires forall m :: m in Legal(g, p) && m in InfoOf(g, p).tactical ==> Settled(g, Play(g, p, m))
    ensures BestEval(g, p, set m | m in Legal(g, p) && m in InfoOf(g, p).tactical, true, QValue(g, p, ply, qdepth))
  {
    var moves, f := QuietMoves(g, p), QChildren(g, p, ply + 1, qdepth - 1);
    forall m | m in moves
      ensures f(m) == Fin(InfoOf(g, Play(g, p, m)).eval)
    {
      SettledValue(g, Play(g, p, m), ply + 1, qdepth - 1);
    }
    assert forall m :: m in moves <==> m in Legal(g, p) && m in InfoOf(g, p).tactical;
    BestOfBounds(White(g, p), StandPat(g, p), moves, f);
    BestOfAttained(White(g, p), StandPat(g, p), moves, f);
  }

  lemma QuietEvasions(g: Game, p: Position, ply: nat, qdepth: nat)
    requires GoesOn(g, p) && InfoOf(g, p).inCheck && Legal(g, p) != []
    requires forall m :: m in Legal(g, p) ==> Settled(g, Play(g, p, m))
    ensures BestEval(g, p, set m | m in Legal(g, p), false, QValue(g, p, ply, qdepth))
  {
    var moves, white := Legal(g, p), White(g, p);
    var f := if qdepth == 0 then LeafScores(g, p, ply + 1) else QChildren(g, p, ply + 1, qdepth - 1);
    forall m | m in moves
      ensures f(m) == Fin(InfoOf(g, Play(g, p, m)).eval)
    {
      SettledValue(g, Play(g, p, m), ply + 1, if qdepth == 0 then 0 else qdepth - 1);
    }
    BestOfBounds(white, Worst(white), moves, f);
    BestOfAttained(white, Worst(white), moves, f);
    assert moves[0] in moves;
  }
}
