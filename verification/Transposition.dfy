/** How far the search needs its root's boards told apart. The key omits the history, so
    two move orders may lead in as many plies to boards the table takes for one. */
module Transposition {
  import opened Options
  import opened Scores
  import opened Sorting
  import opened GameTree
  import opened SearchRun
  import opened Search

  /** A second visit echoes the first: once a board has left an exact entry, any board
      where the game goes on, with its key and as many plies down, is answered by it,
      whatever that board is worth. */
  lemma SecondVisitEchoes(g: Game, p: Position, q: Position, depth: nat, w: Window, ply: nat, t: Entries)
    requires KeyOf(g, p) == KeyOf(g, q) && GoesOn(g, q)
    requires SlotOf(g, p, ply) in t && t[SlotOf(g, p, ply)].flag.Exact? && t[SlotOf(g, p, ply)].depth >= depth
    ensures var e := t[SlotOf(g, p, ply)]; MinimaxRun(g, q, depth, w, ply, t) == Run(e.score, e.move, t)
    ensures FailSoft(Value(g, q, depth, ply), t[SlotOf(g, p, ply)].score, NegInf, PosInf)
       <==> t[SlotOf(g, p, ply)].score == Value(g, q, depth, ply)
  {
    assert SlotOf(g, q, ply) == SlotOf(g, p, ply);
    hide LoopRun;
    hide QRun;
    hide Value;
  }

  /** White has two moves; black answers and white goes on in one way each; the boards
      are then alike in all but history, and so are the ones a ply later, where the game
      may or may not be drawn by repetition, depending on the way there:

          0 --1--> 11 --> 21 --> 31 (drawn if `first`)
          0 --2--> 12 --> 22 --> 32 (drawn if `second`)      */
  function Diamond(first: bool, second: bool, eval: int): Game {
    Game((p: Position) => DiamondInfo(first, second, eval, p), (p: Position, m: Move) => DiamondPlay(p, m),
         (p: Position) => DiamondKey(p), (p: Position, m: Move) => 0)
  }

  function DiamondInfo(first: bool, second: bool, eval: int, p: Position): Info {
    Info(p != 11 && p != 12 && p != 31 && p != 32, if (p == 31 && first) || (p == 32 && second) then Drawn else Ongoing,
         false, eval, if p == 0 then [1, 2] else [0], {})
  }

  function DiamondPlay(p: Position, m: Move): Position {
    if p == 0 then if m == 1 then 11 else 12
    else if p == 11 then 21 else if p == 12 then 22
    else if p == 21 then 31 else if p == 22 then 32 else 40
  }

  function DiamondKey(p: Position): Key {
    if p == 22 then 21 else if p == 32 then 31 else p
  }

  /** What the line through a first move is worth. */
  function Worth(drawn: bool, eval: int): Score {
    Fin(if drawn then 0 else eval)
  }

  function LineWorth(first: bool, second: bool, eval: int, m: Move): Score {
    Worth(if m == 1 then first else second, eval)
  }

  lemma DiamondFacts(first: bool, second: bool, eval: int, p: Position, m: Move)
    ensures var g := Diamond(first, second, eval);
      && InfoOf(g, p) == DiamondInfo(first, second, eval, p) && Play(g, p, m) == DiamondPlay(p, m) && KeyOf(g, p) == DiamondKey(p)
      && White(g, p) == (p != 11 && p != 12 && p != 31 && p != 32)
      && Legal(g, p) == (if p == 0 then [1, 2] else [0])
      && StandPat(g, p) == Fin(eval)
      && (p != 0 ==> QuietMoves(g, p) == [])
  {
    assert [0][1..] == [];
  }

  lemma DiamondStuck(first: bool, second: bool, eval: int)
    ensures StuckIsOver(Diamond(first, second, eval))
  {
  }

  /** A call that searches its moves. */
  lemma OpenRun(g: Game, p: Position, depth: nat, w: Window, ply: nat, t: Entries, narrower: Window, hint: Option<Move>)
    requires depth >= 1 && TerminalScore(g, p, ply).None? && ProbeRun(g, p, depth, w, ply, t) == Open(narrower, hint)
    ensures var r := LoopRun(g, p, OrderMoves(g, p, Legal(g, p), hint), Worst(White(g, p)), None, narrower, depth, ply, t);
      MinimaxRun(g, p, depth, w, ply, t) == r.(table := r.table[SlotOf(g, p, ply) := Entry(depth, r.score, FlagFor(r.score, w), r.move)])
  {
    hide LoopRun;
    hide ProbeRun;
    hide OrderMoves;
  }

  /** One move, searched with nothing to cut it off. */
  lemma OnlyMoveRun(g: Game, p: Position, m: Move, w: Window, depth: nat, ply: nat, t: Entries)
    requires depth >= 1 && Lt(w.alpha, w.beta)
    ensures var child := MinimaxRun(g, Play(g, p, m), depth - 1, w, ply + 1, t);
      child.score.Fin? ==> LoopRun(g, p, [m], Worst(White(g, p)), None, w, depth, ply, t) == Run(child.score, Some(m), child.table)
  {
    hide MinimaxRun;
    var child := MinimaxRun(g, Play(g, p, m), depth - 1, w, ply + 1, t);
    LoopRunStep(g, p, [m], Worst(White(g, p)), None, w, depth, ply, t);
    LoopRunEnd(g, p, child.score, Some(m), Tightened(White(g, p), w, child.score), depth, ply, child.table);
    assert [m][1..] == [];
    hide LoopRun;
  }

  lemma OneMove(white: bool, f: Move -> Score, m: Move)
    ensures BestOf(white, Worst(white), [m], f) == Better(white, Worst(white), f(m))
  {
    BestOfStep(white, Worst(white), [m], f, 0);
    assert [m][..1] == [m];
    LoopStart(white, Worst(white), [m], f, NegInf, PosInf);
  }

  /** The true values along one line. */
  lemma LineValues(first: bool, second: bool, eval: int, m: Move)
    requires m == 1 || m == 2
    ensures var g := Diamond(first, second, eval); Value(g, DiamondPlay(0, m), 2, 1) == LineWorth(first, second, eval, m)
  {
    var g := Diamond(first, second, eval);
    var a := DiamondPlay(0, m);
    var b := DiamondPlay(a, 0);
    var c := DiamondPlay(b, 0);
    var v := LineWorth(first, second, eval, m);
    DiamondFacts(first, second, eval, a, 0);
    DiamondFacts(first, second, eval, b, 0);
    DiamondFacts(first, second, eval, c, 0);
    hide Diamond;
    assert Value(g, c, 0, 3) == v;
    OneMove(true, Children(g, b, 0, 3), 0);
    assert Children(g, b, 0, 3)(0) == v;
    assert Value(g, b, 1, 2) == v;
    OneMove(false, Children(g, a, 1, 2), 0);
    assert Children(g, a, 1, 2)(0) == v;
  }

  lemma TrueValue(first: bool, second: bool, eval: int)
    ensures RootValue(Diamond(first, second, eval), 0, 3) == Max(LineWorth(first, second, eval, 1), LineWorth(first, second, eval, 2))
  {
    var g := Diamond(first, second, eval);
    var f := Children(g, 0, 2, 1);
    DiamondFacts(first, second, eval, 0, 1);
    DiamondFacts(first, second, eval, 0, 2);
    LineValues(first, second, eval, 1);
    LineValues(first, second, eval, 2);
    hide Diamond;
    hide Value;
    BestOfStep(true, NegInf, [1, 2], f, 1);
    assert [1, 2][..1] == [1] && [1, 2][..2] == [1, 2];
    OneMove(true, f, 1);
  }

  /** What earlier, shallower passes leave in the table. */
  ghost predicate FromEarlierPasses(t: Entries) {
    forall k: Slot :: k in t ==> t[k].depth >= 1 && k.1 + t[k].depth <= 2
  }

  lemma OneMoveOrder(g: Game, p: Position, m: Move, hint: Option<Move>)
    ensures OrderMoves(g, p, [m], hint) == [m]
  {
    var r := OrderMoves(g, p, [m], hint);
    assert r[0] in r;
  }

  /** The board at the end of a line answers with its worth. */
  lemma EndRun(first: bool, second: bool, eval: int, c: Position, w: Window, t: Entries)
    requires (c == 31 || c == 32) && (31, 3) !in t
    ensures MinimaxRun(Diamond(first, second, eval), c, 0, w, 3, t) == Run(Worth(if c == 31 then first else second, eval), None, t)
  {
    var g := Diamond(first, second, eval);
    DiamondFacts(first, second, eval, c, 0);
    hide Diamond;
    assert OrderMoves(g, c, [], None) == [];
    hide OrderMoves;
    assert SlotOf(g, c, 3) == (31, 3);
    assert QRun(g, c, w, 3, QUIESCENCE_DEPTH) == if InfoOf(g, c).status.Drawn? then Fin(0) else Fin(eval);
  }

  /** The first visit two plies down is exact and leaves an exact entry. */
  lemma FirstVisit(first: bool, second: bool, eval: int, b: Position, t: Entries)
    requires (b == 21 || b == 22) && (21, 2) !in t && (31, 3) !in t
    ensures var v := Worth(if b == 21 then first else second, eval);
      MinimaxRun(Diamond(first, second, eval), b, 1, Window(NegInf, PosInf), 2, t) == Run(v, Some(0), t[(21, 2) := Entry(1, v, Exact, Some(0))])
  {
    var g := Diamond(first, second, eval);
    var w := Window(NegInf, PosInf);
    DiamondFacts(first, second, eval, b, 0);
    EndRun(first, second, eval, DiamondPlay(b, 0), w, t);
    OneMoveOrder(g, b, 0, None);
    hide Diamond;
    hide OrderMoves;
    assert SlotOf(g, b, 2) == (21, 2);
    OpenRun(g, b, 1, w, 2, t, w, None);
    OnlyMoveRun(g, b, 0, w, 1, 2, t);
    hide LoopRun;
    hide MinimaxRun;
  }

  function HintAt(slot: Slot, t: Entries): Option<Move> {
    if slot in t then t[slot].move else None
  }

  /** An entry of an earlier pass orders the moves and does no more. */
  lemma ShallowProbe(g: Game, p: Position, depth: nat, w: Window, ply: nat, t: Entries)
    requires SlotOf(g, p, ply) in t ==> t[SlotOf(g, p, ply)].depth < depth
    ensures ProbeRun(g, p, depth, w, ply, t) == Open(w, HintAt(SlotOf(g, p, ply), t))
  {
  }

  /** The line searched first. */
  lemma FirstLine(first: bool, second: bool, eval: int, m: Move, t: Entries)
    requires (m == 1 || m == 2) && FromEarlierPasses(t)
    ensures var v, a := LineWorth(first, second, eval, m), DiamondPlay(0, m);
      MinimaxRun(Diamond(first, second, eval), a, 2, Window(NegInf, PosInf), 1, t)
      == Run(v, Some(0), t[(21, 2) := Entry(1, v, Exact, Some(0))][(a, 1) := Entry(2, v, Exact, Some(0))])
  {
    hide MinimaxRun;
    hide LoopRun;
    hide ProbeRun;
    hide OrderMoves;
    hide StuckIsOver;
    var g := Diamond(first, second, eval);
    var w, a := Window(NegInf, PosInf), DiamondPlay(0, m);
    DiamondFacts(first, second, eval, a, 0);
    FirstVisit(first, second, eval, DiamondPlay(a, 0), t);
    hide Diamond;
    OneMoveOrder(g, a, 0, HintAt((a, 1), t));
    assert SlotOf(g, a, 1) == (a, 1);
    ShallowProbe(g, a, 2, w, 1, t);
    OpenRun(g, a, 2, w, 1, t, w, HintAt((a, 1), t));
    OnlyMoveRun(g, a, 0, w, 2, 1, t);
  }

  /** The line searched second is answered by the first one's entry. */
  lemma SecondLine(first: bool, second: bool, eval: int, m: Move, v: Score, t: Entries)
    requires (m == 1 || m == 2) && v.Fin?
    requires (21, 2) in t && t[(21, 2)] == Entry(1, v, Exact, Some(0))
    requires (DiamondPlay(0, m), 1) in t ==> t[(DiamondPlay(0, m), 1)].depth <= 1
    ensures MinimaxRun(Diamond(first, second, eval), DiamondPlay(0, m), 2, Window(v, PosInf), 1, t).score == v
  {
    var g := Diamond(first, second, eval);
    var w, a := Window(v, PosInf), DiamondPlay(0, m);
    var b := DiamondPlay(a, 0);
    DiamondFacts(first, second, eval, a, 0);
    DiamondFacts(first, second, eval, b, 0);
    DiamondFacts(first, second, eval, 21, 0);
    hide Diamond;
    hide OrderMoves;
    SecondVisitEchoes(g, 21, b, 1, w, 2, t);
    OneMoveOrder(g, a, 0, HintAt((a, 1), t));
    assert SlotOf(g, a, 1) == (a, 1);
    ShallowProbe(g, a, 2, w, 1, t);
    hide LoopRun;
    hide MinimaxRun;
    hide ProbeRun;
    OpenRun(g, a, 2, w, 1, t, w, HintAt((a, 1), t));
    OnlyMoveRun(g, a, 0, w, 2, 1, t);
  }

  lemma RootOrder(first: bool, second: bool, eval: int, preferred: Option<Move>)
    ensures OrderMoves(Diamond(first, second, eval), 0, [1, 2], preferred) == if preferred == Some(2) then [2, 1] else [1, 2]
  {
    var g := Diamond(first, second, eval);
    var key := MovePriority(g, 0, preferred);
    assert [1, 2][1..] == [2] && [2][1..] == [];
    assert SortDescending([2], key) == Insert(2, [], key) == [2];
    assert Insert(1, [2], key) == if Le(key(2), key(1)) then [1] + [2] else [2] + Insert(1, [], key);
  }

  /** A white root with two moves, the second of which does not beat the first. */
  lemma TwoMoves(g: Game, p: Position, m: Move, n: Move, v: Score, depth: nat, t: Entries)
    requires depth >= 1 && White(g, p) && v.Fin?
    requires var first := MinimaxRun(g, Play(g, p, m), depth - 1, Window(NegInf, PosInf), 1, t);
      && first.score == v
      && MinimaxRun(g, Play(g, p, n), depth - 1, Window(v, PosInf), 1, first.table).score == v
    ensures RootLoopRun(g, p, [m, n], NegInf, None, Window(NegInf, PosInf), depth, t).score == v
  {
    hide MinimaxRun;
    var t1 := MinimaxRun(g, Play(g, p, m), depth - 1, Window(NegInf, PosInf), 1, t).table;
    RootRunStep(g, p, [m, n], NegInf, None, Window(NegInf, PosInf), depth, t);
    assert [m, n][1..] == [n] && [n][1..] == [];
    RootRunStep(g, p, [n], v, Some(m), Window(v, PosInf), depth, t1);
    RootRunEnd(g, p, v, Some(m), Window(v, PosInf), depth, MinimaxRun(g, Play(g, p, n), depth - 1, Window(v, PosInf), 1, t1).table);
    hide RootLoopRun;
  }

  /** What the root search answers: the worth of the line it happens to search first. */
  lemma DiamondAnswer(first: bool, second: bool, eval: int, preferred: Option<Move>, t: Entries)
    requires FromEarlierPasses(t)
    ensures RootRun(Diamond(first, second, eval), 0, 3, preferred, t).score
      == LineWorth(first, second, eval, if preferred == Some(2) then 2 else 1)
  {
    hide MinimaxRun;
    hide RootLoopRun;
    hide OrderMoves;
    var g := Diamond(first, second, eval);
    var m, n := if preferred == Some(2) then 2 else 1, if preferred == Some(2) then 1 else 2;
    var v := LineWorth(first, second, eval, m);
    DiamondFacts(first, second, eval, 0, m);
    DiamondFacts(first, second, eval, 0, n);
    RootOrder(first, second, eval, preferred);
    FirstLine(first, second, eval, m, t);
    var t1 := MinimaxRun(g, DiamondPlay(0, m), 2, Window(NegInf, PosInf), 1, t).table;
    SecondLine(first, second, eval, n, v, t1);
    hide Diamond;
    TwoMoves(g, 0, m, n, v, 3, t);
  }

  ghost predicate Right(first: bool, second: bool, eval: int, preferred: Option<Move>, t: Entries) {
    RootRun(Diamond(first, second, eval), 0, 3, preferred, t).score == RootValue(Diamond(first, second, eval), 0, 3)
  }

  /** One search: wrong exactly when the line searched second is the better one. */
  lemma RightIffFirstIsBest(first: bool, second: bool, eval: int, preferred: Option<Move>, t: Entries)
    requires FromEarlierPasses(t)
    ensures Right(first, second, eval, preferred, t) <==>
      var m := if preferred == Some(2) then 2 else 1;
      Le(LineWorth(first, second, eval, 3 - m), LineWorth(first, second, eval, m))
  {
    DiamondAnswer(first, second, eval, preferred, t);
    TrueValue(first, second, eval);
    hide RootRun;
    hide RootValue;
  }

  lemma AlikeIsCoherent(drawn: bool, eval: int)
    ensures Coherent(Diamond(drawn, drawn, eval), 0, 3)
  {
    hide Searched;
    var g := Diamond(drawn, drawn, eval);
    forall p: Position, q: Position | KeyOf(g, p) == KeyOf(g, q)
      ensures Twins(g, p, q)
    {
    }
  }

  lemma LineSearched(first: bool, second: bool, eval: int, m: Move)
    requires m == 1 || m == 2
    ensures Searched(Diamond(first, second, eval), 0, 3, DiamondPlay(DiamondPlay(DiamondPlay(0, m), 0), 0), 3)
  {
    var g := Diamond(first, second, eval);
    var a := DiamondPlay(0, m);
    var b := DiamondPlay(a, 0);
    DiamondFacts(first, second, eval, 0, m);
    DiamondFacts(first, second, eval, a, 0);
    DiamondFacts(first, second, eval, b, 0);
    assert Reached(g, 0, 0, 0);
    hide Diamond;
    hide Reached;
    ReachedNext(g, 0, 0, 0, m);
    ReachedNext(g, 0, a, 1, 0);
    ReachedNext(g, 0, b, 2, 0);
  }

  /** The boards are told apart exactly when repetition has struck both ways or neither. */
  lemma CoherentIffAlike(first: bool, second: bool, eval: int)
    ensures Coherent(Diamond(first, second, eval), 0, 3) <==> first == second
  {
    hide Searched;
    if first == second {
      hide Coherent;
      AlikeIsCoherent(first, eval);
    } else {
      var g := Diamond(first, second, eval);
      LineSearched(first, second, eval, 1);
      LineSearched(first, second, eval, 2);
      assert KeyOf(g, 31) == KeyOf(g, 32) && !Twins(g, 31, 32);
    }
  }

  /** In these games the condition is exact: the search is right for every evaluation and
      either move order exactly when the root's boards are told apart. */
  lemma CoherenceIsExact(first: bool, second: bool, t: Entries)
    requires FromEarlierPasses(t)
    ensures (forall eval, preferred :: Right(first, second, eval, preferred, t)) <==> (forall eval :: Coherent(Diamond(first, second, eval), 0, 3))
  {
    hide Coherent;
    hide Right;
    forall eval
      ensures Coherent(Diamond(first, second, eval), 0, 3) <==> first == second
    {
      CoherentIffAlike(first, second, eval);
    }
    assert Coherent(Diamond(first, second, 0), 0, 3) <==> first == second;
    hide Diamond;
    forall eval, preferred
      ensures first == second ==> Right(first, second, eval, preferred, t)
    {
      RightIffFirstIsBest(first, second, eval, preferred, t);
    }
    if first != second {
      var eval := if first then 1 else -1;
      RightIffFirstIsBest(first, second, eval, None, t);
      assert !Right(first, second, eval, None, t);
    }
  }

  /** And it is what the running search does, whenever its clock lets it finish. */
  method SearchDiamond(first: bool, second: bool, eval: int, preferred: Option<Move>, clock: Clock, deadline: int) returns (r: Outcome)
    modifies clock
    ensures r.Done? ==> r.score == LineWorth(first, second, eval, if preferred == Some(2) then 2 else 1)
    ensures r.Done? && first && !second && eval > 0 && preferred != Some(2) ==>
      r.score == Fin(0) && RootValue(Diamond(first, second, eval), 0, 3) == Fin(eval)
  {
    hide RootRun;
    hide RootValue;
    hide TableWithin;
    hide TableSound;
    hide StuckIsOver;
    hide Coherent;
    hide Attains;
    var g := Diamond(first, second, eval);
    var board := new Board(0);
    var tt := new Table();
    EmptyTableSound(g, 0);
    WiderHorizon(tt.Now(), 0, 3);
    DiamondAnswer(first, second, eval, preferred, tt.entries);
    TrueValue(first, second, eval);
    DiamondStuck(first, second, eval);
    hide Diamond;
    r := RootSearch(g, board, 3, clock, deadline, tt, preferred);
  }
}
