/** What the search computes when the clock does not stop it, as functions of the
    position, the window and the table. Nothing is assumed about keys here. */
module SearchRun {
  import opened Options
  import opened Scores
  import opened GameTree

  datatype Flag = Exact | Lower | Upper
  datatype Entry = Entry(depth: nat, score: Score, flag: Flag, move: Option<Move>)
  type Slot = (Key, nat)
  type Entries = map<Slot, Entry>

  function SlotOf(g: Game, p: Position, ply: nat): Slot {
    (KeyOf(g, p), ply)
  }

  datatype Window = Window(alpha: Score, beta: Score)

  /** The window after a move: alpha follows white's best, beta black's. */
  function Tightened(white: bool, w: Window, best: Score): Window {
    if white then w.(alpha := Max(w.alpha, best)) else w.(beta := Min(w.beta, best))
  }

  predicate Closed(w: Window) {
    Le(w.beta, w.alpha)
  }

  /** Quiescence. */
  function QRun(g: Game, p: Position, w: Window, ply: nat, qdepth: nat): Score
    decreases qdepth, 1, 0
  {
    var white, inCheck, stand := White(g, p), InfoOf(g, p).inCheck, StandPat(g, p);
    var moves := OrderMoves(g, p, QuietMoves(g, p), None);
    match TerminalScore(g, p, ply)
    case Some(s) => s
    case None =>
      if !inCheck && (if white then Le(w.beta, stand) else Le(stand, w.alpha)) then stand
      else if (qdepth == 0 && !inCheck) || moves == [] then stand
      else if qdepth == 0 then BestOf(white, Worst(white), moves, LeafScores(g, p, ply + 1))
      else QLoopRun(g, p, moves, QStart(g, p), if inCheck then w else Tightened(white, w, stand), ply, qdepth)
  }

  function QLoopRun(g: Game, p: Position, moves: seq<Move>, best: Score, w: Window, ply: nat, qdepth: nat): Score
    requires qdepth >= 1
    decreases qdepth, 0, |moves|
  {
    if moves == [] then best
    else
      var s := QRun(g, Play(g, p, moves[0]), w, ply + 1, qdepth - 1);
      var better := Better(White(g, p), best, s);
      var narrower := Tightened(White(g, p), w, better);
      if Closed(narrower) then better else QLoopRun(g, p, moves[1..], better, narrower, ply, qdepth)
  }

  datatype Probed = Answered(score: Score, move: Option<Move>) | Open(window: Window, hint: Option<Move>)

  /** The table lookup: an exact entry deep enough answers, a bound narrows the window
      and answers when that closes it. */
  function ProbeRun(g: Game, p: Position, depth: nat, w: Window, ply: nat, t: Entries): Probed {
    var slot := SlotOf(g, p, ply);
    if slot !in t then Open(w, None)
    else
      var e := t[slot];
      if e.depth < depth then Open(w, e.move)
      else
        var narrower := match e.flag
                        case Exact => w
                        case Lower => w.(alpha := Max(w.alpha, e.score))
                        case Upper => w.(beta := Min(w.beta, e.score));
        if e.flag.Exact? || Closed(narrower) then Answered(e.score, e.move) else Open(narrower, e.move)
  }

  datatype Run = Run(score: Score, move: Option<Move>, table: Entries)

  function FlagFor(score: Score, w: Window): Flag {
    if Le(score, w.alpha) then Upper else if Le(w.beta, score) then Lower else Exact
  }

  /** The main search. */
  function MinimaxRun(g: Game, p: Position, depth: nat, w: Window, ply: nat, t: Entries): Run
    decreases depth, 1, 0
  {
    match TerminalScore(g, p, ply)
    case Some(s) => Run(s, None, t)
    case None =>
      match ProbeRun(g, p, depth, w, ply, t)
      case Answered(score, move) => Run(score, move, t)
      case Open(narrower, hint) =>
        if depth == 0 then Run(QRun(g, p, narrower, ply, QUIESCENCE_DEPTH), None, t)
        else
          var r := LoopRun(g, p, OrderMoves(g, p, Legal(g, p), hint), Worst(White(g, p)), None, narrower, depth, ply, t);
          r.(table := r.table[SlotOf(g, p, ply) := Entry(depth, r.score, FlagFor(r.score, w), r.move)])
  }

  function LoopRun(g: Game, p: Position, moves: seq<Move>, best: Score, move: Option<Move>, w: Window, depth: nat, ply: nat, t: Entries): Run
    requires depth >= 1
    decreases depth, 0, |moves|
  {
    if moves == [] then Run(best, move, t)
    else
      var child := MinimaxRun(g, Play(g, p, moves[0]), depth - 1, w, ply + 1, t);
      var better := Better(White(g, p), best, child.score);
      var found := if better != best then Some(moves[0]) else move;
      var narrower := Tightened(White(g, p), w, better);
      if Closed(narrower) then Run(better, found, child.table)
      else LoopRun(g, p, moves[1..], better, found, narrower, depth, ply, child.table)
  }

  /** The root's loop, which never stops early. */
  function RootLoopRun(g: Game, p: Position, moves: seq<Move>, best: Score, move: Option<Move>, w: Window, depth: nat, t: Entries): Run
    requires depth >= 1
    decreases |moves|
  {
    if moves == [] then Run(best, move, t)
    else
      var white := White(g, p);
      var child := MinimaxRun(g, Play(g, p, moves[0]), depth - 1, w, 1, t);
      var wins := if white then Lt(best, child.score) else Lt(child.score, best);
      var score := if wins then child.score else best;
      RootLoopRun(g, p, moves[1..], score, if wins then Some(moves[0]) else move, Tightened(white, w, score), depth, child.table)
  }

  function RootRun(g: Game, p: Position, depth: nat, preferred: Option<Move>, t: Entries): Run
    requires depth >= 1
  {
    var moves := OrderMoves(g, p, Legal(g, p), preferred);
    if moves == [] then Run(Fin(0), None, t)
    else RootLoopRun(g, p, moves, Worst(White(g, p)), None, Window(NegInf, PosInf), depth, t)
  }

  ghost predicate TableFinite(t: Entries) {
    forall k: Slot :: k in t ==> t[k].score.Fin?
  }

  lemma LeafScoresFinite(g: Game, p: Position, moves: seq<Move>, ply: nat)
    requires moves != []
    ensures BestOf(White(g, p), Worst(White(g, p)), moves, LeafScores(g, p, ply)).Fin?
  {
    BestOfFinite(White(g, p), Worst(White(g, p)), moves, LeafScores(g, p, ply));
  }

  /** Quiescence never answers with an infinity. */
  lemma {:induction false} QRunFinite(g: Game, p: Position, w: Window, ply: nat, qdepth: nat)
    ensures QRun(g, p, w, ply, qdepth).Fin?
    decreases qdepth, 1, 0
  {
    var moves := OrderMoves(g, p, QuietMoves(g, p), None);
    if TerminalScore(g, p, ply).None? && moves != [] {
      if qdepth == 0 {
        LeafScoresFinite(g, p, moves, ply + 1);
      } else {
        hide QLoopRun;
        QLoopRunFinite(g, p, moves, QStart(g, p), if InfoOf(g, p).inCheck then w else Tightened(White(g, p), w, StandPat(g, p)), ply, qdepth);
      }
    }
  }

  lemma {:induction false} QLoopRunFinite(g: Game, p: Position, moves: seq<Move>, best: Score, w: Window, ply: nat, qdepth: nat)
    requires qdepth >= 1 && (best.Fin? || (best == Worst(White(g, p)) && moves != []))
    ensures QLoopRun(g, p, moves, best, w, ply, qdepth).Fin?
    decreases qdepth, 0, |moves|
  {
    hide QRun;
    if moves != [] {
      var s := QRun(g, Play(g, p, moves[0]), w, ply + 1, qdepth - 1);
      QRunFinite(g, Play(g, p, moves[0]), w, ply + 1, qdepth - 1);
      var better := Better(White(g, p), best, s);
      var narrower := Tightened(White(g, p), w, better);
      if !Closed(narrower) {
        QLoopRunFinite(g, p, moves[1..], better, narrower, ply, qdepth);
      }
    }
  }

  /** Nor does the main search, whatever it finds in a table without infinities. */
  lemma {:induction false} MinimaxRunFinite(g: Game, p: Position, depth: nat, w: Window, ply: nat, t: Entries)
    requires StuckIsOver(g) && TableFinite(t)
    ensures MinimaxRun(g, p, depth, w, ply, t).score.Fin? && TableFinite(MinimaxRun(g, p, depth, w, ply, t).table)
    decreases depth, 1, 0
  {
    hide QRun;
    hide LoopRun;
    hide OrderMoves;
    if TerminalScore(g, p, ply).None? && ProbeRun(g, p, depth, w, ply, t).Open? {
      var narrower, hint := ProbeRun(g, p, depth, w, ply, t).window, ProbeRun(g, p, depth, w, ply, t).hint;
      if depth == 0 {
        QRunFinite(g, p, narrower, ply, QUIESCENCE_DEPTH);
      } else {
        var moves := OrderMoves(g, p, Legal(g, p), hint);
        assert |moves| == |Legal(g, p)|;
        LoopRunFinite(g, p, moves, Worst(White(g, p)), None, narrower, depth, ply, t);
      }
    }
  }

  lemma {:induction false} LoopRunFinite(g: Game, p: Position, moves: seq<Move>, best: Score, move: Option<Move>, w: Window, depth: nat, ply: nat, t: Entries)
    requires StuckIsOver(g) && TableFinite(t) && depth >= 1
    requires best.Fin? || (best == Worst(White(g, p)) && moves != [])
    ensures LoopRun(g, p, moves, best, move, w, depth, ply, t).score.Fin? && TableFinite(LoopRun(g, p, moves, best, move, w, depth, ply, t).table)
    decreases depth, 0, |moves|
  {
    hide MinimaxRun;
    hide StuckIsOver;
    hide TableFinite;
    if moves != [] {
      var child := MinimaxRun(g, Play(g, p, moves[0]), depth - 1, w, ply + 1, t);
      MinimaxRunFinite(g, Play(g, p, moves[0]), depth - 1, w, ply + 1, t);
      var better := Better(White(g, p), best, child.score);
      var narrower := Tightened(White(g, p), w, better);
      if !Closed(narrower) {
        LoopRunFinite(g, p, moves[1..], better, if better != best then Some(moves[0]) else move, narrower, depth, ply, child.table);
      }
    }
  }
}
