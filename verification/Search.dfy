/** The engine's search: fail-soft alpha-beta over a board that is pushed and
    popped in place, a shared transposition table, quiescence at the leaves, a
    clock that may expire between any two steps, and iterative deepening. */
module Search {
  import opened Options
  import opened Scores
  import opened GameTree
  import opened SearchRun
  import opened Mates

  /** The mutable board: the stack of positions, the current one last. */
  class Board {
    var stack: seq<Position>

    constructor (p: Position)
      ensures stack == [p]
    {
      stack := [p];
    }

    ghost predicate Valid()
      reads this
    {
      stack != []
    }

    function Top(): Position
      requires Valid()
      reads this
    {
      stack[|stack| - 1]
    }

    method Push(g: Game, m: Move)
      requires Valid()
      modifies this
      ensures stack == old(stack) + [Play(g, old(Top()), m)]
    {
      stack := stack + [Play(g, Top(), m)];
    }

    method Pop()
      requires |stack| >= 2
      modifies this
      ensures stack == old(stack)[..|old(stack)| - 1]
    {
      stack := stack[..|stack| - 1];
    }
  }

  /** A monotonic clock: any amount of time may pass between two readings. */
  class Clock {
    var now: int

    method Expired(deadline: int) returns (expired: bool)
      modifies this
      ensures now >= old(now)
      ensures expired == (now >= deadline)
    {
      var passed: nat :| true;
      now := now + passed;
      expired := now >= deadline;
    }
  }

  /** An entry stands in its flagged relation to the value at its own depth. */
  ghost predicate EntrySound(g: Game, p: Position, ply: nat, e: Entry) {
    var v := Value(g, p, e.depth, ply);
    && e.depth >= 1
    && (e.move.Some? ==> e.move.value in Legal(g, p) && GoesOn(g, p))
    && match e.flag
       case Exact => e.score == v
       case Lower => Le(e.score, v)
       case Upper => Le(v, e.score)
  }

  /** The move leads to a child worth exactly the given score. */
  ghost predicate Attains(g: Game, p: Position, depth: nat, ply: nat, move: Option<Move>, score: Score) {
    && move.Some?
    && move.value in Legal(g, p)
    && depth >= 1
    && Value(g, Play(g, p, move.value), depth - 1, ply + 1) == score
  }

  /** What an entry promises when no table bound narrowed the call that stored it. */
  ghost predicate EntryClean(g: Game, p: Position, ply: nat, e: Entry) {
    e.flag.Exact? ==> Attains(g, p, e.depth, ply, e.move, e.score)
  }

  /** A table as the proofs see it. `clean` records which entries were stored by
      calls whose window no table bound had narrowed. */
  datatype View = View(entries: map<Slot, Entry>, clean: set<Slot>)

  ghost predicate TableSound(g: Game, root: Position, t: View) {
    forall p: Position, ply: nat {:trigger SlotOf(g, p, ply)} :: Reached(g, root, p, ply) && SlotOf(g, p, ply) in t.entries ==>
      var e := t.entries[SlotOf(g, p, ply)];
      EntrySound(g, p, ply, e) && (SlotOf(g, p, ply) in t.clean ==> EntryClean(g, p, ply, e))
  }

  /** A call that may rely on what it finds: its root's boards are told apart well
      enough, the table is sound for them, and it stands on one of them. */
  ghost predicate Trusted(g: Game, root: Position, horizon: nat, t: View, p: Position, ply: nat) {
    Coherent(g, root, horizon) && TableSound(g, root, t) && Reached(g, root, p, ply)
  }

  /** No entry looks further than the current root depth. */
  ghost predicate TableWithin(t: View, horizon: nat) {
    forall k: Slot :: k in t.entries ==> k.1 + t.entries[k].depth <= horizon
  }

  ghost predicate SameSlot(before: View, after: View, k: Slot) {
    && (k in before.entries <==> k in after.entries)
    && (k in before.entries ==> before.entries[k] == after.entries[k])
    && (k in before.clean <==> k in after.clean)
  }

  /** Every slot at most `ply` deep is as before. */
  ghost predicate SameUpTo(before: View, after: View, ply: nat) {
    forall k: Slot :: k.1 <= ply ==> SameSlot(before, after, k)
  }

  /** Every slot at most `ply` deep other than `own` is as before. */
  ghost predicate SameButOwn(before: View, after: View, ply: nat, own: Slot) {
    forall k: Slot :: k.1 <= ply && k != own ==> SameSlot(before, after, k)
  }

  /** The transposition table, a dictionary written in place. */
  class Table {
    var entries: map<Slot, Entry>
    ghost var clean: set<Slot>

    constructor ()
      ensures entries == map[] && clean == {}
    {
      entries := map[];
      clean := {};
    }

    ghost function Now(): View
      reads this
    {
      View(entries, clean)
    }

    function Get(slot: Slot): Option<Entry>
      reads this
    {
      if slot in entries then Some(entries[slot]) else None
    }

    method Store(g: Game, p: Position, ply: nat, e: Entry, ghost unnarrowed: bool)
      modifies this
      ensures entries == old(entries)[SlotOf(g, p, ply) := e]
      ensures clean == if unnarrowed then old(clean) + {SlotOf(g, p, ply)} else old(clean) - {SlotOf(g, p, ply)}
      ensures SameButOwn(old(Now()), Now(), ply, SlotOf(g, p, ply))
    {
      entries := entries[SlotOf(g, p, ply) := e];
      clean := if unnarrowed then clean + {SlotOf(g, p, ply)} else clean - {SlotOf(g, p, ply)};
    }
  }

  /** Storing an entry proved for the board at hand keeps the table sound for every
      board of the search, those with the same key included. */
  lemma StoreSound(g: Game, root: Position, horizon: nat, before: View, after: View, p: Position, ply: nat, e: Entry, unnarrowed: bool)
    requires Trusted(g, root, horizon, before, p, ply) && GoesOn(g, p) && ply + e.depth <= horizon
    requires EntrySound(g, p, ply, e) && (unnarrowed ==> EntryClean(g, p, ply, e))
    requires after.entries == before.entries[SlotOf(g, p, ply) := e]
    requires after.clean == if unnarrowed then before.clean + {SlotOf(g, p, ply)} else before.clean - {SlotOf(g, p, ply)}
    ensures TableSound(g, root, after)
  {
    hide EntrySound;
    hide EntryClean;
    hide Coherent;
    hide Reached;
    forall q: Position, n: nat | Reached(g, root, q, n) && SlotOf(g, q, n) == SlotOf(g, p, ply)
      ensures EntrySound(g, q, n, e) && (unnarrowed ==> EntryClean(g, q, n, e))
    {
      TwinEntry(g, root, horizon, p, q, ply, e);
    }
  }

  /** An entry proved for one board holds for every board the same root reaches in as
      many plies under the same key. */
  lemma TwinEntry(g: Game, root: Position, horizon: nat, p: Position, q: Position, ply: nat, e: Entry)
    requires Coherent(g, root, horizon) && KeyOf(g, p) == KeyOf(g, q)
    requires Reached(g, root, p, ply) && Reached(g, root, q, ply) && ply + e.depth <= horizon
    requires GoesOn(g, p) && EntrySound(g, p, ply, e)
    ensures EntrySound(g, q, ply, e)
    ensures EntryClean(g, p, ply, e) ==> EntryClean(g, q, ply, e)
  {
    hide Value;
    hide Reached;
    hide Coherent;
    ReachedTwins(g, root, horizon, p, q, ply);
    KeyDeterminesValue(g, root, horizon, p, q, e.depth, ply);
    if e.move.Some? {
      var m := e.move.value;
      ReachedNext(g, root, p, ply, m);
      ReachedNext(g, root, q, ply, m);
      KeyDeterminesValue(g, root, horizon, Play(g, p, m), Play(g, q, m), e.depth - 1, ply + 1);
    }
  }

  /** A usable entry always has exactly the requested depth: deeper ones would
      look past the current root depth. */
  lemma HitHasRequestedDepth(g: Game, root: Position, t: View, p: Position, depth: nat, ply: nat)
    requires Reached(g, root, p, ply) && TableSound(g, root, t) && TableWithin(t, ply + depth)
    requires SlotOf(g, p, ply) in t.entries && t.entries[SlotOf(g, p, ply)].depth >= depth
    ensures t.entries[SlotOf(g, p, ply)].depth == depth
    ensures EntrySound(g, p, ply, t.entries[SlotOf(g, p, ply)])
  {
  }

  datatype QOutcome = QTimedOut | QDone(score: Score)
  datatype Outcome = TimedOut | Done(score: Score, move: Option<Move>)

  /** Quiescence: captures and promotions, every evasion in check, and a single
      forced evasion when the depth runs out in check. */
  method Quiescence(g: Game, board: Board, alpha0: Score, beta0: Score, ply: nat, clock: Clock, deadline: int, qdepth: nat)
    returns (r: QOutcome)
    requires board.Valid() && Lt(alpha0, beta0)
    modifies board, clock
    ensures board.stack == old(board.stack)
    ensures r.QDone? ==> FailSoft(QValue(g, old(board.Top()), ply, qdepth), r.score, alpha0, beta0)
    ensures r.QDone? ==> r.score == QRun(g, old(board.Top()), Window(alpha0, beta0), ply, qdepth)
    ensures r.QDone? && alpha0 == NegInf && beta0 == PosInf ==> QuietMeaning(g, old(board.Top()), ply, qdepth, r.score)
    ensures clock.now >= old(clock.now) && (r.QTimedOut? ==> clock.now >= deadline)
    decreases qdepth, 1
  {
    hide QuietMeaning;
    hide QLoopRun;
    hide FailSoft;
    hide QValue;
    hide QRun;
    ghost var p := board.Top();
    r := QuiescenceStep(g, board, alpha0, beta0, ply, clock, deadline, qdepth);
    if r.QDone? && alpha0 == NegInf && beta0 == PosInf {
      FullWindowQuiet(g, p, ply, qdepth, r.score);
    }
  }

  method QuiescenceStep(g: Game, board: Board, alpha0: Score, beta0: Score, ply: nat, clock: Clock, deadline: int, qdepth: nat)
    returns (r: QOutcome)
    requires board.Valid() && Lt(alpha0, beta0)
    modifies board, clock
    ensures board.stack == old(board.stack)
    ensures r.QDone? ==> FailSoft(QValue(g, old(board.Top()), ply, qdepth), r.score, alpha0, beta0)
    ensures r.QDone? ==> r.score == QRun(g, old(board.Top()), Window(alpha0, beta0), ply, qdepth)
    ensures clock.now >= old(clock.now) && (r.QTimedOut? ==> clock.now >= deadline)
    decreases qdepth, 0
  {
    hide QLoopRun;
    var late := clock.Expired(deadline);
    if late {
      return QTimedOut;
    }
    var p := board.Top();
    var terminal := TerminalScore(g, p, ply);
    if terminal.Some? {
      return QDone(terminal.value);
    }
    var white, inCheck := White(g, p), InfoOf(g, p).inCheck;
    var stand := StandPat(g, p);
    var alpha, beta := alpha0, beta0;
    var moves := OrderMoves(g, p, QuietMoves(g, p), None);
    QValueSplit(g, p, ply, qdepth, moves);
    if !inCheck {
      if white {
        if Le(beta, stand) {
          return QDone(stand);
        }
        alpha := Max(alpha, stand);
      } else {
        if Le(stand, alpha) {
          return QDone(stand);
        }
        beta := Min(beta, stand);
      }
    }
    if (qdepth == 0 && !inCheck) || moves == [] {
      return QDone(stand);
    }
    if qdepth == 0 {
      r := LastEvasions(g, board, moves, ply, clock, deadline);
      return;
    }

    r := QuiescenceLoop(g, board, moves, QStart(g, p), alpha0, beta0, alpha, beta, ply, clock, deadline, qdepth);
  }

  /** The window-narrowing loop over the moves, starting from the stand-pat score
      (or, in check, from the worst one). */
  method QuiescenceLoop(g: Game, board: Board, moves: seq<Move>, start: Score, ghost alpha0: Score, ghost beta0: Score,
                        alphaIn: Score, betaIn: Score, ply: nat, clock: Clock, deadline: int, qdepth: nat)
    returns (r: QOutcome)
    requires board.Valid() && qdepth >= 1
    requires LoopWindow(White(g, board.Top()), start, alpha0, beta0, alphaIn, betaIn, false)
    modifies board, clock
    ensures board.stack == old(board.stack)
    ensures r.QDone? ==> var p := old(board.Top());
      FailSoft(BestOf(White(g, p), start, moves, QChildren(g, p, ply + 1, qdepth - 1)), r.score, alpha0, beta0)
    ensures r.QDone? ==> r.score == QLoopRun(g, old(board.Top()), moves, start, Window(alphaIn, betaIn), ply, qdepth)
    ensures clock.now >= old(clock.now) && (r.QTimedOut? ==> clock.now >= deadline)
    decreases qdepth - 1, 2
  {
    hide QuietMeaning;
    hide QLoopRun;
    hide QRun;
    hide BestOf;
    hide QChildren;
    hide QValue;
    hide FailSoft;
    var p := board.Top();
    var white := White(g, p);
    ghost var f := QChildren(g, p, ply + 1, qdepth - 1);
    var alpha, beta := alphaIn, betaIn;
    var best, i, cut := start, 0, false;
    LoopStart(white, start, moves, f, alpha0, beta0);
    ghost var result := QLoopRun(g, p, moves, start, Window(alphaIn, betaIn), ply, qdepth);
    assert moves[0..] == moves;
    while i < |moves| && !cut
      invariant i <= |moves| && board.stack == old(board.stack)
      invariant FailSoft(BestOf(white, start, moves[..i], f), best, alpha0, beta0)
      invariant LoopWindow(white, best, alpha0, beta0, alpha, beta, cut)
      invariant clock.now >= old(clock.now)
      invariant result == if cut then best else QLoopRun(g, p, moves[i..], best, Window(alpha, beta), ply, qdepth)
    {
      var late := clock.Expired(deadline);
      if late {
        return QTimedOut;
      }
      board.Push(g, moves[i]);
      var child := Quiescence(g, board, alpha, beta, ply + 1, clock, deadline, qdepth - 1);
      board.Pop();
      if child.QTimedOut? {
        return QTimedOut;
      }
      QStep(g, p, ply, qdepth, start, moves, i, best, child.score, alpha0, beta0);
      QLoopStep(g, p, moves[i..], best, Window(alpha, beta), ply, qdepth);
      assert moves[i..][1..] == moves[i + 1..];
      best := Better(white, best, child.score);
      if white {
        alpha := Max(alpha, best);
      } else {
        beta := Min(beta, best);
      }
      cut := Le(beta, alpha);
      i := i + 1;
    }
    LoopResult(white, start, moves, i, f, best, alpha0, beta0, cut);
    QLoopEnd(g, p, best, Window(alpha, beta), ply, qdepth);
    assert !cut ==> moves[i..] == [];
    assert result == best;
    return QDone(best);
  }

  lemma QLoopStep(g: Game, p: Position, moves: seq<Move>, best: Score, w: Window, ply: nat, qdepth: nat)
    requires qdepth >= 1 && moves != []
    ensures var better := Better(White(g, p), best, QRun(g, Play(g, p, moves[0]), w, ply + 1, qdepth - 1));
      var narrower := Tightened(White(g, p), w, better);
      QLoopRun(g, p, moves, best, w, ply, qdepth)
      == if Closed(narrower) then better else QLoopRun(g, p, moves[1..], better, narrower, ply, qdepth)
  {
    hide QRun;
  }

  lemma QLoopEnd(g: Game, p: Position, best: Score, w: Window, ply: nat, qdepth: nat)
    requires qdepth >= 1
    ensures QLoopRun(g, p, [], best, w, ply, qdepth) == best
  {
  }

  /** How the running window relates to the running best while a side loops. */
  ghost predicate LoopWindow(white: bool, best: Score, alpha0: Score, beta0: Score, alpha: Score, beta: Score, cut: bool) {
    && Lt(alpha0, beta0)
    && cut == Le(beta, alpha)
    && if white then alpha == Max(alpha0, best) && beta == beta0
       else beta == Min(beta0, best) && alpha == alpha0
  }

  /** Before the first move the best score is the starting one. */
  lemma LoopStart(white: bool, start: Score, moves: seq<Move>, f: Move -> Score, alpha0: Score, beta0: Score)
    ensures BestOf(white, start, moves[..0], f) == start
    ensures FailSoft(start, start, alpha0, beta0)
  {
  }

  /** Stopping at the end of the list or at a cutoff, the contract holds for all moves. */
  lemma LoopResult(white: bool, start: Score, moves: seq<Move>, i: nat, f: Move -> Score, best: Score, alpha0: Score, beta0: Score, cut: bool)
    requires i <= |moves| && (i < |moves| ==> cut)
    requires Lt(alpha0, beta0)
    requires FailSoft(BestOf(white, start, moves[..i], f), best, alpha0, beta0)
    requires cut ==> if white then Le(beta0, Max(alpha0, best)) else Le(Min(beta0, best), alpha0)
    ensures FailSoft(BestOf(white, start, moves, f), best, alpha0, beta0)
  {
    BestOfPrefix(white, start, moves, f, i);
    assert moves[..|moves|] == moves;
  }

  /** The quiescence value read over the ordered moves. */
  lemma QValueSplit(g: Game, p: Position, ply: nat, qdepth: nat, moves: seq<Move>)
    requires TerminalScore(g, p, ply).None?
    requires |moves| == |QuietMoves(g, p)| && SameMembers(QuietMoves(g, p), moves)
    ensures QValue(g, p, ply, qdepth) ==
      if moves == [] || (qdepth == 0 && !InfoOf(g, p).inCheck) then StandPat(g, p)
      else if qdepth == 0 then BestOf(White(g, p), Worst(White(g, p)), moves, LeafScores(g, p, ply + 1))
      else BestOf(White(g, p), QStart(g, p), moves, QChildren(g, p, ply + 1, qdepth - 1))
    ensures !InfoOf(g, p).inCheck ==> AsGood(White(g, p), QValue(g, p, ply, qdepth), StandPat(g, p))
  {
    var quiet, white := QuietMoves(g, p), White(g, p);
    if quiet != [] {
      if qdepth == 0 {
        BestOfSameMembers(white, Worst(white), quiet, moves, LeafScores(g, p, ply + 1));
      } else {
        BestOfSameMembers(white, QStart(g, p), quiet, moves, QChildren(g, p, ply + 1, qdepth - 1));
        BestOfBounds(white, QStart(g, p), quiet, QChildren(g, p, ply + 1, qdepth - 1));
      }
    }
  }

  lemma QStep(g: Game, p: Position, ply: nat, qdepth: nat, start: Score, moves: seq<Move>, i: nat, best: Score, s: Score, alpha0: Score, beta0: Score)
    requires i < |moves| && qdepth >= 1 && Lt(alpha0, beta0)
    requires var white, f := White(g, p), QChildren(g, p, ply + 1, qdepth - 1);
      && FailSoft(BestOf(white, start, moves[..i], f), best, alpha0, beta0)
      && var v := QValue(g, Play(g, p, moves[i]), ply + 1, qdepth - 1);
      if white then Lt(best, beta0) && FailSoft(v, s, Max(alpha0, best), beta0)
      else Lt(alpha0, best) && FailSoft(v, s, alpha0, Min(beta0, best))
    ensures FailSoft(BestOf(White(g, p), start, moves[..i + 1], QChildren(g, p, ply + 1, qdepth - 1)),
                     Better(White(g, p), best, s), alpha0, beta0)
  {
    var white, f := White(g, p), QChildren(g, p, ply + 1, qdepth - 1);
    BestOfStep(white, start, moves, f, i);
    var V, v := BestOf(white, start, moves[..i], f), f(moves[i]);
    if white {
      FailSoftMaxStep(V, best, v, s, alpha0, beta0);
    } else {
      FailSoftMinStep(V, best, v, s, alpha0, beta0);
    }
  }

  /** The forced-evasion ply: every evasion is scored without a window. */
  method LastEvasions(g: Game, board: Board, moves: seq<Move>, ply: nat, clock: Clock, deadline: int) returns (r: QOutcome)
    requires board.Valid()
    modifies board, clock
    ensures board.stack == old(board.stack)
    ensures r.QDone? ==> var p := old(board.Top());
      r.score == BestOf(White(g, p), Worst(White(g, p)), moves, LeafScores(g, p, ply + 1))
    ensures clock.now >= old(clock.now) && (r.QTimedOut? ==> clock.now >= deadline)
  {
    hide BestOf;
    hide LeafScores;
    var p := board.Top();
    var white := White(g, p);
    ghost var f := LeafScores(g, p, ply + 1);
    var best := Worst(white);
    LoopStart(white, best, moves, f, NegInf, PosInf);
    for i := 0 to |moves|
      invariant board.stack == old(board.stack)
      invariant best == BestOf(white, Worst(white), moves[..i], f) && clock.now >= old(clock.now)
    {
      var late := clock.Expired(deadline);
      if late {
        return QTimedOut;
      }
      board.Push(g, moves[i]);
      var terminal := TerminalScore(g, board.Top(), ply + 1);
      var score := if terminal.Some? then terminal.value else StandPat(g, board.Top());
      board.Pop();
      LeafStep(g, p, ply, moves, i);
      best := Better(white, best, score);
    }
    assert moves[..|moves|] == moves;
    return QDone(best);
  }

  lemma LeafStep(g: Game, p: Position, ply: nat, moves: seq<Move>, i: nat)
    requires i < |moves|
    ensures var f := LeafScores(g, p, ply + 1);
      BestOf(White(g, p), Worst(White(g, p)), moves[..i + 1], f)
      == Better(White(g, p), BestOf(White(g, p), Worst(White(g, p)), moves[..i], f), LeafScore(g, Play(g, p, moves[i]), ply + 1))
  {
    BestOfStep(White(g, p), Worst(White(g, p)), moves, LeafScores(g, p, ply + 1), i);
  }

  /** What one completed call to the main search promises about its move: inside
      the window, and with no bound narrowing it on the way, the move attains the score. */
  ghost predicate MoveAttains(g: Game, p: Position, depth: nat, ply: nat, r: Outcome, alpha: Score, beta: Score, unnarrowed: bool) {
    r.Done? && unnarrowed && depth >= 1 && TerminalScore(g, p, ply).None? && Lt(alpha, r.score) && Lt(r.score, beta) ==>
      Attains(g, p, depth, ply, r.move, r.score)
  }

  /** The position's own slot after a completed call: untouched, or holding the
      result, exact when it lies inside the window. */
  ghost predicate OwnSlot(before: View, after: View, own: Slot, r: Outcome, alpha: Score, beta: Score, unnarrowed: bool) {
    || SameSlot(before, after, own)
    || (&& r.Done? && own in after.entries && after.entries[own].score == r.score
        && (Lt(alpha, r.score) && Lt(r.score, beta) ==> after.entries[own].flag.Exact?)
        && (unnarrowed ==> own in after.clean))
  }

  /** A fresh slot, or a clean exact entry in it, cannot narrow the window. */
  ghost predicate CannotNarrow(t: View, own: Slot) {
    own in t.entries ==> own in t.clean && t.entries[own].flag.Exact?
  }

  ghost predicate MinimaxDone(g: Game, p: Position, depth: nat, ply: nat, r: Outcome, alpha: Score, beta: Score) {
    r.Done? ==>
      && FailSoft(Value(g, p, depth, ply), r.score, alpha, beta)
      && (r.move.Some? ==> r.move.value in Legal(g, p) && depth >= 1 && TerminalScore(g, p, ply).None?)
  }

  /** What a trusted call promises. */
  ghost predicate SoundCall(g: Game, root: Position, after: View, p: Position, depth: nat, ply: nat, r: Outcome, alpha: Score, beta: Score, unnarrowed: bool) {
    && TableSound(g, root, after)
    && MinimaxDone(g, p, depth, ply, r, alpha, beta)
    && MoveAttains(g, p, depth, ply, r, alpha, beta, unnarrowed)
  }

  /** Alpha-beta minimax over the board, with the shared table. It computes what
      `MinimaxRun` says; from a table it may trust, the score meets the fail-soft contract
      against plain minimax and the table stays sound. A timeout may strike anywhere and
      leaves the board restored and the table no worse. */
  method Minimax(g: Game, board: Board, depth: nat, alpha0: Score, beta0: Score, ply: nat, clock: Clock, deadline: int, tt: Table, ghost root: Position)
    returns (r: Outcome, ghost unnarrowed: bool)
    requires board.Valid() && Lt(alpha0, beta0)
    requires TableWithin(tt.Now(), ply + depth)
    modifies board, clock, tt
    ensures board.stack == old(board.stack)
    ensures TableWithin(tt.Now(), ply + depth)
    ensures r.Done? ==> Run(r.score, r.move, tt.entries) == MinimaxRun(g, old(board.Top()), depth, Window(alpha0, beta0), ply, old(tt.entries))
    ensures old(Trusted(g, root, ply + depth, tt.Now(), board.Top(), ply)) ==>
      SoundCall(g, root, tt.Now(), old(board.Top()), depth, ply, r, alpha0, beta0, unnarrowed)
    ensures CannotNarrow(old(tt.Now()), SlotOf(g, old(board.Top()), ply)) ==> unnarrowed
    ensures OwnSlot(old(tt.Now()), tt.Now(), SlotOf(g, old(board.Top()), ply), r, alpha0, beta0, unnarrowed)
    ensures SameButOwn(old(tt.Now()), tt.Now(), ply, SlotOf(g, old(board.Top()), ply))
    ensures clock.now >= old(clock.now) && (r.TimedOut? ==> clock.now >= deadline)
    decreases depth, 0
  {
    hide QuietMeaning;
    hide FailSoft;
    hide Value;
    hide TableSound;
    hide TableWithin;
    hide Attains;
    hide Coherent;
    hide Reached;
    hide EntrySound;
    hide EntryClean;
    hide Narrows;
    hide QRun;
    hide LoopRun;
    hide ProbeRun;
    hide OrderMoves;
    hide SoundCall;
    hide Trusted;
    hide OwnSlot;
    hide SameSlot;
    hide SameButOwn;
    hide SameUpTo;
    var p := board.Top();
    ghost var start := tt.Now();
    SameAsBefore(start, ply);
    NothingStored(start, start, ply, SlotOf(g, p, ply));
    ghost var trusted := Trusted(g, root, ply + depth, start, p, ply);
    var late := clock.Expired(deadline);
    if late {
      StoppedCall(g, root, start, p, depth, ply, alpha0, beta0, true, trusted);
      return TimedOut, true;
    }
    var terminal := TerminalScore(g, p, ply);
    if terminal.Some? {
      TerminalContract(g, p, depth, ply, alpha0, beta0);
      AnsweredCall(g, root, start, p, depth, ply, Done(terminal.value, None), alpha0, beta0, true, trusted);
      return Done(terminal.value, None), true;
    }
    var answer, alpha, beta, hint, wide := Probe(g, p, depth, alpha0, beta0, ply, tt, root);
    unnarrowed := wide;
    if answer.Some? {
      AnsweredCall(g, root, start, p, depth, ply, answer.value, alpha0, beta0, unnarrowed, trusted);
      return answer.value, unnarrowed;
    }
    if depth == 0 {
      r := Leaf(g, board, alpha, beta, ply, clock, deadline, alpha0, beta0);
      AnsweredCall(g, root, start, p, depth, ply, r, alpha0, beta0, unnarrowed, trusted);
      return;
    }
    var moves := OrderMoves(g, p, Legal(g, p), hint);
    r := MinimaxLoop(g, board, moves, depth, alpha, beta, ply, clock, deadline, tt, root);
    if r.TimedOut? {
      NothingStored(start, tt.Now(), ply, SlotOf(g, p, ply));
      StoppedCall(g, root, tt.Now(), p, depth, ply, alpha0, beta0, unnarrowed, trusted);
      return;
    }
    var flag := if Le(r.score, alpha0) then Upper else if Le(beta0, r.score) then Lower else Exact;
    var entry := Entry(depth, r.score, flag, r.move);
    ghost var before := tt.Now();
    tt.Store(g, p, ply, entry, unnarrowed);
    StoreWithin(before, tt.Now(), SlotOf(g, p, ply), entry, ply + depth);
    StoredSlots(start, before, tt.Now(), ply, SlotOf(g, p, ply), entry, r, alpha0, beta0, unnarrowed);
    if trusted {
      StoredCall(g, root, before, tt.Now(), p, depth, ply, r, alpha0, beta0, alpha, beta, unnarrowed);
    }
  }

  /** At depth zero quiescence answers, inside the window the table left open. */
  method Leaf(g: Game, board: Board, alpha: Score, beta: Score, ply: nat, clock: Clock, deadline: int, ghost alpha0: Score, ghost beta0: Score)
    returns (r: Outcome)
    requires board.Valid() && Lt(alpha, beta) && TerminalScore(g, board.Top(), ply).None?
    modifies board, clock
    ensures board.stack == old(board.stack)
    ensures r.Done? ==> r.move.None? && r.score == QRun(g, old(board.Top()), Window(alpha, beta), ply, QUIESCENCE_DEPTH)
    ensures Narrows(Value(g, old(board.Top()), 0, ply), alpha0, beta0, alpha, beta) ==> MinimaxDone(g, old(board.Top()), 0, ply, r, alpha0, beta0)
    ensures clock.now >= old(clock.now) && (r.TimedOut? ==> clock.now >= deadline)
  {
    hide QuietMeaning;
    hide FailSoft;
    hide Value;
    hide Narrows;
    hide QRun;
    var p := board.Top();
    var leaf := Quiescence(g, board, alpha, beta, ply, clock, deadline, QUIESCENCE_DEPTH);
    if leaf.QTimedOut? {
      return TimedOut;
    }
    if Narrows(Value(g, p, 0, ply), alpha0, beta0, alpha, beta) {
      LeafContract(g, p, ply, leaf.score, alpha0, beta0, alpha, beta);
    }
    return Done(leaf.score, None);
  }

  lemma SameAsBefore(t: View, ply: nat)
    ensures SameUpTo(t, t, ply)
  {
  }

  lemma NothingStored(start: View, t: View, ply: nat, own: Slot)
    requires SameUpTo(start, t, ply) && own.1 == ply
    ensures SameButOwn(start, t, ply, own)
    ensures forall r, a, b, u :: OwnSlot(start, t, own, r, a, b, u)
  {
  }

  /** What a call that stores changes among the slots up to its own ply. */
  lemma StoredSlots(start: View, before: View, after: View, ply: nat, own: Slot, e: Entry, r: Outcome, alpha: Score, beta: Score, unnarrowed: bool)
    requires SameUpTo(start, before, ply) && SameButOwn(before, after, ply, own)
    requires after.entries == before.entries[own := e] && r.Done? && e.score == r.score
    requires e.flag == FlagFor(r.score, Window(alpha, beta))
    requires after.clean == if unnarrowed then before.clean + {own} else before.clean - {own}
    ensures SameButOwn(start, after, ply, own) && OwnSlot(start, after, own, r, alpha, beta, unnarrowed)
  {
  }

  lemma StoreWithin(before: View, after: View, slot: Slot, e: Entry, horizon: nat)
    requires TableWithin(before, horizon) && slot.1 + e.depth <= horizon && after.entries == before.entries[slot := e]
    ensures TableWithin(after, horizon)
  {
  }

  lemma StoppedCall(g: Game, root: Position, t: View, p: Position, depth: nat, ply: nat, alpha: Score, beta: Score, unnarrowed: bool, trusted: bool)
    requires trusted ==> Trusted(g, root, ply + depth, t, p, ply) || TableSound(g, root, t)
    ensures trusted ==> SoundCall(g, root, t, p, depth, ply, TimedOut, alpha, beta, unnarrowed)
  {
    hide TableSound;
    hide Coherent;
    hide Reached;
  }

  lemma AnsweredCall(g: Game, root: Position, t: View, p: Position, depth: nat, ply: nat, r: Outcome, alpha: Score, beta: Score, unnarrowed: bool, trusted: bool)
    requires trusted ==> Trusted(g, root, ply + depth, t, p, ply)
    requires trusted ==> MinimaxDone(g, p, depth, ply, r, alpha, beta) && MoveAttains(g, p, depth, ply, r, alpha, beta, unnarrowed)
    ensures trusted ==> SoundCall(g, root, t, p, depth, ply, r, alpha, beta, unnarrowed)
  {
    hide TableSound;
    hide Coherent;
    hide Reached;
  }

  /** The call that searched its moves and stored the result. */
  lemma StoredCall(g: Game, root: Position, before: View, after: View, p: Position, depth: nat, ply: nat, r: Outcome,
                   alpha0: Score, beta0: Score, alpha: Score, beta: Score, unnarrowed: bool)
    requires Trusted(g, root, ply + depth, before, p, ply) && TerminalScore(g, p, ply).None?
    requires depth >= 1 && Lt(alpha0, beta0) && r.Done?
    requires Narrows(Value(g, p, depth, ply), alpha0, beta0, alpha, beta) && unnarrowed == (alpha == alpha0 && beta == beta0)
    requires MinimaxDone(g, p, depth, ply, r, alpha, beta)
    requires Lt(alpha, r.score) && Lt(r.score, beta) ==> Attains(g, p, depth, ply, r.move, r.score)
    requires var e := Entry(depth, r.score, FlagFor(r.score, Window(alpha0, beta0)), r.move);
      && after.entries == before.entries[SlotOf(g, p, ply) := e]
      && after.clean == if unnarrowed then before.clean + {SlotOf(g, p, ply)} else before.clean - {SlotOf(g, p, ply)}
    ensures SoundCall(g, root, after, p, depth, ply, r, alpha0, beta0, unnarrowed)
  {
    hide FailSoft;
    hide Value;
    hide TableSound;
    hide Attains;
    hide Coherent;
    hide Reached;
    hide EntrySound;
    hide EntryClean;
    hide Narrows;
    EntryContract(g, p, depth, ply, r.score, r.move, alpha0, beta0, alpha, beta);
    StoreSound(g, root, ply + depth, before, after, p, ply, Entry(depth, r.score, FlagFor(r.score, Window(alpha0, beta0)), r.move), unnarrowed);
  }

  /** The table lookup that opens every call: an exact entry answers it, a bound
      narrows the window and answers it if the window closes. */
  method Probe(g: Game, p: Position, depth: nat, alpha0: Score, beta0: Score, ply: nat, tt: Table, ghost root: Position)
    returns (answer: Option<Outcome>, alpha: Score, beta: Score, hint: Option<Move>, ghost unnarrowed: bool)
    requires Lt(alpha0, beta0) && TableWithin(tt.Now(), ply + depth)
    requires TerminalScore(g, p, ply).None?
    ensures answer.Some? ==> answer.value.Done?
    ensures ProbeRun(g, p, depth, Window(alpha0, beta0), ply, tt.entries)
      == if answer.Some? then Answered(answer.value.score, answer.value.move) else Open(Window(alpha, beta), hint)
    ensures answer.None? ==> Lt(alpha, beta) && unnarrowed == (alpha == alpha0 && beta == beta0)
    ensures Trusted(g, root, ply + depth, tt.Now(), p, ply) ==>
      if answer.Some? then
        && MinimaxDone(g, p, depth, ply, answer.value, alpha0, beta0)
        && MoveAttains(g, p, depth, ply, answer.value, alpha0, beta0, unnarrowed)
      else Narrows(Value(g, p, depth, ply), alpha0, beta0, alpha, beta)
    ensures CannotNarrow(tt.Now(), SlotOf(g, p, ply)) ==> unnarrowed
  {
    hide Coherent;
    hide Reached;
    hide TableSound;
    hide FailSoft;
    hide Value;
    hide Attains;
    var slot := SlotOf(g, p, ply);
    var cached := tt.Get(slot);
    alpha, beta := alpha0, beta0;
    hint := if cached.Some? then cached.value.move else None;
    if cached.Some? && cached.value.depth >= depth {
      var e := cached.value;
      if Trusted(g, root, ply + depth, tt.Now(), p, ply) {
        HitContract(g, root, tt.Now(), p, depth, ply, alpha0, beta0);
      }
      match e.flag {
        case Exact =>
          return Some(Done(e.score, e.move)), alpha, beta, hint, slot in tt.clean;
        case Lower =>
          alpha := Max(alpha, e.score);
        case Upper =>
          beta := Min(beta, e.score);
      }
      if Le(beta, alpha) {
        return Some(Done(e.score, e.move)), alpha, beta, hint, false;
      }
    }
    return None, alpha, beta, hint, alpha == alpha0 && beta == beta0;
  }

  /** How far a hit or a bound lets the window be narrowed. */
  ghost predicate Narrows(v: Score, a: Score, b: Score, a': Score, b': Score) {
    && (a' == a || (Le(a, a') && Le(a', v)))
    && (b' == b || (Le(b', b) && Le(v, b')))
  }

  lemma TerminalContract(g: Game, p: Position, depth: nat, ply: nat, alpha0: Score, beta0: Score)
    requires TerminalScore(g, p, ply).Some?
    ensures FailSoft(Value(g, p, depth, ply), TerminalScore(g, p, ply).value, alpha0, beta0)
  {
  }

  /** What a usable entry allows: returning an exact score, narrowing by a bound,
      or returning the bound once the window closes. */
  lemma HitContract(g: Game, root: Position, t: View, p: Position, depth: nat, ply: nat, alpha0: Score, beta0: Score)
    requires Reached(g, root, p, ply) && TableSound(g, root, t) && TableWithin(t, ply + depth) && Lt(alpha0, beta0)
    requires SlotOf(g, p, ply) in t.entries && t.entries[SlotOf(g, p, ply)].depth >= depth
    ensures var e, v := t.entries[SlotOf(g, p, ply)], Value(g, p, depth, ply);
      && e.depth == depth && depth >= 1 && (e.move.Some? ==> e.move.value in Legal(g, p))
      && match e.flag
         case Exact => FailSoft(v, e.score, alpha0, beta0) && (SlotOf(g, p, ply) in t.clean ==> Attains(g, p, depth, ply, e.move, e.score))
         case Lower => Narrows(v, alpha0, beta0, Max(alpha0, e.score), beta0) && (Le(beta0, Max(alpha0, e.score)) ==> FailSoft(v, e.score, alpha0, beta0))
         case Upper => Narrows(v, alpha0, beta0, alpha0, Min(beta0, e.score)) && (Le(Min(beta0, e.score), alpha0) ==> FailSoft(v, e.score, alpha0, beta0))
  {
    HitHasRequestedDepth(g, root, t, p, depth, ply);
  }

  lemma LeafContract(g: Game, p: Position, ply: nat, s: Score, a: Score, b: Score, a': Score, b': Score)
    requires TerminalScore(g, p, ply).None?
    requires Narrows(Value(g, p, 0, ply), a, b, a', b')
    requires FailSoft(QValue(g, p, ply, QUIESCENCE_DEPTH), s, a', b')
    ensures FailSoft(Value(g, p, 0, ply), s, a, b)
  {
    NarrowedWindow(Value(g, p, 0, ply), s, a, b, a', b');
  }

  /** The loop's result, judged against the caller's window, is a sound entry. */
  lemma EntryContract(g: Game, p: Position, depth: nat, ply: nat, s: Score, move: Option<Move>, a: Score, b: Score, a': Score, b': Score)
    requires depth >= 1 && Lt(a, b)
    requires Narrows(Value(g, p, depth, ply), a, b, a', b')
    requires FailSoft(Value(g, p, depth, ply), s, a', b')
    requires move.Some? ==> move.value in Legal(g, p) && GoesOn(g, p)
    requires Lt(a', s) && Lt(s, b') ==> Attains(g, p, depth, ply, move, s)
    ensures FailSoft(Value(g, p, depth, ply), s, a, b)
    ensures var flag := if Le(s, a) then Upper else if Le(b, s) then Lower else Exact;
      var e := Entry(depth, s, flag, move);
      EntrySound(g, p, ply, e) && (a == a' && b == b' ==> EntryClean(g, p, ply, e))
  {
    NarrowedWindow(Value(g, p, depth, ply), s, a, b, a', b');
  }

  /** The loop over the ordered moves, each searched with what is left of the window. */
  method MinimaxLoop(g: Game, board: Board, moves: seq<Move>, depth: nat, alphaIn: Score, betaIn: Score, ply: nat, clock: Clock, deadline: int, tt: Table, ghost root: Position)
    returns (r: Outcome)
    requires board.Valid() && depth >= 1 && Lt(alphaIn, betaIn)
    requires TerminalScore(g, board.Top(), ply).None?
    requires SameMembers(moves, Legal(g, board.Top()))
    requires TableWithin(tt.Now(), ply + depth)
    modifies board, clock, tt
    ensures board.stack == old(board.stack)
    ensures TableWithin(tt.Now(), ply + depth)
    ensures SameUpTo(old(tt.Now()), tt.Now(), ply)
    ensures r.Done? ==>
      Run(r.score, r.move, tt.entries)
      == LoopRun(g, old(board.Top()), moves, Worst(White(g, old(board.Top()))), None, Window(alphaIn, betaIn), depth, ply, old(tt.entries))
    ensures old(Trusted(g, root, ply + depth, tt.Now(), board.Top(), ply)) ==>
      && Trusted(g, root, ply + depth, tt.Now(), old(board.Top()), ply)
      && MinimaxDone(g, old(board.Top()), depth, ply, r, alphaIn, betaIn)
      && (r.Done? && Lt(alphaIn, r.score) && Lt(r.score, betaIn) ==> Attains(g, old(board.Top()), depth, ply, r.move, r.score))
    ensures clock.now >= old(clock.now) && (r.TimedOut? ==> clock.now >= deadline)
    decreases depth - 1, 1
  {
    hide BestOf;
    hide Children;
    hide Value;
    hide FailSoft;
    hide TableSound;
    hide TableWithin;
    hide Attains;
    hide Coherent;
    hide Reached;
    hide LoopRun;
    hide MinimaxRun;
    hide MoveAttains;
    hide LoopProgress;
    hide Trusted;
    hide SoundCall;
    hide OwnSlot;
    hide CannotNarrow;
    hide MinimaxDone;
    var p := board.Top();
    var white := White(g, p);
    ghost var trusted := Trusted(g, root, ply + depth, tt.Now(), p, ply);
    var alpha, beta := alphaIn, betaIn;
    var start := Worst(white);
    var best, move, i, cut := start, None, 0, false;
    LoopBegins(g, p, depth, ply, moves, alphaIn, betaIn);
    ghost var result := LoopRun(g, p, moves, start, None, Window(alphaIn, betaIn), depth, ply, tt.entries);
    assert moves[0..] == moves;
    while i < |moves| && !cut
      invariant i <= |moves| && board.stack == old(board.stack)
      invariant clock.now >= old(clock.now)
      invariant TableWithin(tt.Now(), ply + depth) && SameUpTo(old(tt.Now()), tt.Now(), ply)
      invariant LoopWindow(white, best, alphaIn, betaIn, alpha, beta, cut)
      invariant result == if cut then Run(best, move, tt.entries) else LoopRun(g, p, moves[i..], best, move, Window(alpha, beta), depth, ply, tt.entries)
      invariant trusted ==> Trusted(g, root, ply + depth, tt.Now(), p, ply) && LoopProgress(g, p, depth, ply, moves, i, best, move, alphaIn, betaIn)
    {
      ghost var before := tt.Now();
      LoopRunStep(g, p, moves[i..], best, move, Window(alpha, beta), depth, ply, tt.entries);
      assert moves[i..][1..] == moves[i + 1..] && moves[i] in moves;
      if trusted {
        ChildTrusted(g, root, before, p, depth, ply, moves[i]);
      }
      board.Push(g, moves[i]);
      var child, narrowed := Minimax(g, board, depth - 1, alpha, beta, ply + 1, clock, deadline, tt, root);
      board.Pop();
      if trusted {
        ChildSound(g, root, before, tt.Now(), p, depth, ply, moves, i, best, move, child, alphaIn, betaIn, alpha, beta, narrowed);
      }
      if child.TimedOut? {
        StoppedLoop(g, p, depth, ply, alphaIn, betaIn);
        return TimedOut;
      }
      if Better(white, best, child.score) != best {
        move := Some(moves[i]);
      }
      best := Better(white, best, child.score);
      if white {
        alpha := Max(alpha, best);
      } else {
        beta := Min(beta, best);
      }
      cut := Le(beta, alpha);
      i := i + 1;
    }
    LoopRunEnd(g, p, best, move, Window(alpha, beta), depth, ply, tt.entries);
    assert !cut ==> moves[i..] == [];
    assert result == Run(best, move, tt.entries);
    if trusted {
      LoopFinishes(g, p, depth, ply, moves, i, best, move, alphaIn, betaIn, alpha, beta, cut);
    }
    return Done(best, move);
  }

  /** How far a trusted loop over the moves has come. */
  ghost predicate LoopProgress(g: Game, p: Position, depth: nat, ply: nat, moves: seq<Move>, i: nat, best: Score, move: Option<Move>, alpha: Score, beta: Score)
    requires i <= |moves| && depth >= 1
  {
    && FailSoft(BestOf(White(g, p), Worst(White(g, p)), moves[..i], Children(g, p, depth - 1, ply + 1)), best, alpha, beta)
    && (move.Some? ==> move.value in Legal(g, p))
    && (Lt(alpha, best) && Lt(best, beta) ==> Attains(g, p, depth, ply, move, best))
  }

  lemma LoopBegins(g: Game, p: Position, depth: nat, ply: nat, moves: seq<Move>, alpha: Score, beta: Score)
    requires depth >= 1
    ensures LoopProgress(g, p, depth, ply, moves, 0, Worst(White(g, p)), None, alpha, beta)
  {
    hide Attains;
  }

  lemma StoppedLoop(g: Game, p: Position, depth: nat, ply: nat, alpha: Score, beta: Score)
    ensures MinimaxDone(g, p, depth, ply, TimedOut, alpha, beta)
  {
  }

  /** A child of a trusted call may be trusted. */
  lemma ChildTrusted(g: Game, root: Position, t: View, p: Position, depth: nat, ply: nat, m: Move)
    requires Trusted(g, root, ply + depth, t, p, ply) && depth >= 1 && GoesOn(g, p) && m in Legal(g, p)
    ensures Trusted(g, root, ply + 1 + (depth - 1), t, Play(g, p, m), ply + 1)
  {
    hide Coherent;
    hide TableSound;
    ReachedNext(g, root, p, ply, m);
  }

  /** What a trusted child's answer does for the loop. */
  lemma ChildSound(g: Game, root: Position, before: View, after: View, p: Position, depth: nat, ply: nat, moves: seq<Move>, i: nat,
                   best: Score, move: Option<Move>, child: Outcome, alphaIn: Score, betaIn: Score, alpha: Score, beta: Score, narrowed: bool)
    requires Trusted(g, root, ply + depth, before, p, ply) && depth >= 1 && i < |moves| && SameMembers(moves, Legal(g, p))
    requires SoundCall(g, root, after, Play(g, p, moves[i]), depth - 1, ply + 1, child, alpha, beta, narrowed)
    requires LoopProgress(g, p, depth, ply, moves, i, best, move, alphaIn, betaIn)
    requires LoopWindow(White(g, p), best, alphaIn, betaIn, alpha, beta, false)
    ensures Trusted(g, root, ply + depth, after, p, ply)
    ensures child.Done? ==>
      var better := Better(White(g, p), best, child.score);
      LoopProgress(g, p, depth, ply, moves, i + 1, better, if better != best then Some(moves[i]) else move, alphaIn, betaIn)
  {
    hide BestOf;
    hide Children;
    hide Value;
    hide TableSound;
    hide Attains;
    hide Coherent;
    hide Reached;
    hide MoveAttains;
    if child.Done? {
      LoopWindowShape(White(g, p), best, alphaIn, betaIn, alpha, beta);
      hide FailSoft;
      MinimaxStep(g, p, depth, ply, moves, i, best, child.score, alphaIn, betaIn);
    }
  }

  lemma LoopWindowShape(white: bool, best: Score, alpha0: Score, beta0: Score, alpha: Score, beta: Score)
    requires LoopWindow(white, best, alpha0, beta0, alpha, beta, false)
    ensures if white then Lt(best, beta0) && alpha == Max(alpha0, best) && beta == beta0
            else Lt(alpha0, best) && alpha == alpha0 && beta == Min(beta0, best)
  {
  }

  lemma LoopFinishes(g: Game, p: Position, depth: nat, ply: nat, moves: seq<Move>, i: nat, best: Score, move: Option<Move>,
                     alphaIn: Score, betaIn: Score, alpha: Score, beta: Score, cut: bool)
    requires depth >= 1 && i <= |moves| && (i < |moves| ==> cut)
    requires TerminalScore(g, p, ply).None? && SameMembers(moves, Legal(g, p))
    requires LoopProgress(g, p, depth, ply, moves, i, best, move, alphaIn, betaIn)
    requires LoopWindow(White(g, p), best, alphaIn, betaIn, alpha, beta, cut)
    ensures MinimaxDone(g, p, depth, ply, Done(best, move), alphaIn, betaIn)
    ensures Lt(alphaIn, best) && Lt(best, betaIn) ==> Attains(g, p, depth, ply, move, best)
  {
    hide Attains;
    hide Value;
    hide Children;
    hide BestOf;
    hide FailSoft;
    LoopResult(White(g, p), Worst(White(g, p)), moves, i, Children(g, p, depth - 1, ply + 1), best, alphaIn, betaIn, cut);
    ValueOverOrdered(g, p, depth, ply, moves);
  }

  lemma LoopRunStep(g: Game, p: Position, moves: seq<Move>, best: Score, move: Option<Move>, w: Window, depth: nat, ply: nat, t: Entries)
    requires depth >= 1 && moves != []
    ensures var child := MinimaxRun(g, Play(g, p, moves[0]), depth - 1, w, ply + 1, t);
      var better := Better(White(g, p), best, child.score);
      var found := if better != best then Some(moves[0]) else move;
      var narrower := Tightened(White(g, p), w, better);
      LoopRun(g, p, moves, best, move, w, depth, ply, t)
      == if Closed(narrower) then Run(better, found, child.table) else LoopRun(g, p, moves[1..], better, found, narrower, depth, ply, child.table)
  {
    hide MinimaxRun;
  }

  lemma LoopRunEnd(g: Game, p: Position, best: Score, move: Option<Move>, w: Window, depth: nat, ply: nat, t: Entries)
    requires depth >= 1
    ensures LoopRun(g, p, [], best, move, w, depth, ply, t) == Run(best, move, t)
  {
  }

  lemma ValueOverOrdered(g: Game, p: Position, depth: nat, ply: nat, moves: seq<Move>)
    requires depth >= 1 && TerminalScore(g, p, ply).None?
    requires SameMembers(moves, Legal(g, p))
    ensures Value(g, p, depth, ply) == BestOf(White(g, p), Worst(White(g, p)), moves, Children(g, p, depth - 1, ply + 1))
  {
    BestOfSameMembers(White(g, p), Worst(White(g, p)), moves, Legal(g, p), Children(g, p, depth - 1, ply + 1));
  }

  /** One searched child: the contract extends to one more move, and a strictly
      better score inside the window is the child's exact value. */
  lemma MinimaxStep(g: Game, p: Position, depth: nat, ply: nat, moves: seq<Move>, i: nat, best: Score, s: Score, alpha0: Score, beta0: Score)
    requires i < |moves| && depth >= 1 && Lt(alpha0, beta0)
    requires SameMembers(moves, Legal(g, p))
    requires var white, f := White(g, p), Children(g, p, depth - 1, ply + 1);
      && FailSoft(BestOf(white, Worst(white), moves[..i], f), best, alpha0, beta0)
      && var v := Value(g, Play(g, p, moves[i]), depth - 1, ply + 1);
      if white then Lt(best, beta0) && FailSoft(v, s, Max(alpha0, best), beta0)
      else Lt(alpha0, best) && FailSoft(v, s, alpha0, Min(beta0, best))
    ensures moves[i] in Legal(g, p)
    ensures var white := White(g, p);
      var best' := Better(white, best, s);
      && FailSoft(BestOf(white, Worst(white), moves[..i + 1], Children(g, p, depth - 1, ply + 1)), best', alpha0, beta0)
      && (best' != best && Lt(alpha0, best') && Lt(best', beta0) ==> Attains(g, p, depth, ply, Some(moves[i]), best'))
  {
    var white, f := White(g, p), Children(g, p, depth - 1, ply + 1);
    BestOfStep(white, Worst(white), moves, f, i);
    assert moves[i] in moves;
    var V, v := BestOf(white, Worst(white), moves[..i], f), f(moves[i]);
    if white {
      FailSoftMaxStep(V, best, v, s, alpha0, beta0);
    } else {
      FailSoftMinStep(V, best, v, s, alpha0, beta0);
    }
  }

  /** One complete pass over the root's moves, each searched with the window the
      earlier ones left. It computes what `RootRun` says; where the root's boards are told
      apart the result is a true best move with its exact value. */
  method RootSearch(g: Game, board: Board, depth: nat, clock: Clock, deadline: int, tt: Table, preferred: Option<Move>) returns (r: Outcome)
    requires StuckIsOver(g)
    requires board.Valid() && depth >= 1
    requires TableWithin(tt.Now(), depth) && TableFinite(tt.entries)
    modifies board, clock, tt
    ensures board.stack == old(board.stack)
    ensures TableWithin(tt.Now(), depth) && (r.Done? ==> TableFinite(tt.entries))
    ensures r.Done? ==> Run(r.score, r.move, tt.entries) == RootRun(g, old(board.Top()), depth, preferred, old(tt.entries))
    ensures r.Done? && r.move.Some? ==> r.move.value in Legal(g, old(board.Top()))
    ensures r.Done? && Legal(g, old(board.Top())) == [] ==> r == Done(Fin(0), None)
    ensures Coherent(g, old(board.Top()), depth) && TableSound(g, old(board.Top()), old(tt.Now())) ==>
      && TableSound(g, old(board.Top()), tt.Now())
      && (r.Done? && Legal(g, old(board.Top())) != [] ==>
            && r.score == RootValue(g, old(board.Top()), depth)
            && Attains(g, old(board.Top()), depth, 0, r.move, r.score)
            && (ModestEvals(g, old(board.Top()), depth) ==>
                  MatesAnswered(g, old(board.Top()), depth, r.move.value, r.score) && MateInOneAnswered(g, old(board.Top()), r.move.value, r.score)))
    ensures clock.now >= old(clock.now) && (r.TimedOut? ==> clock.now >= deadline)
  {
    hide BestOf;
    hide Children;
    hide Value;
    hide FailSoft;
    hide TableSound;
    hide TableWithin;
    hide Attains;
    hide Coherent;
    hide Reached;
    hide RootLoopRun;
    hide MinimaxRun;
    hide RootProgress;
    hide SoundCall;
    hide Trusted;
    hide RootValue;
    hide TableFinite;
    hide OrderMoves;
    hide ModestEvals;
    hide MatesAnswered;
    hide MateInOneAnswered;
    var p := board.Top();
    ghost var trusted := Coherent(g, p, depth) && TableSound(g, p, tt.Now());
    var moves := OrderMoves(g, p, Legal(g, p), preferred);
    if moves == [] {
      return Done(Fin(0), None);
    }
    var white := White(g, p);
    var best, move, i := Worst(white), None, 0;
    var alpha, beta := NegInf, PosInf;
    RootStart(g, p, depth, moves);
    ghost var result := RootLoopRun(g, p, moves, best, None, Window(alpha, beta), depth, tt.entries);
    assert moves[0..] == moves;
    while i < |moves|
      invariant i <= |moves| && board.stack == old(board.stack)
      invariant TableWithin(tt.Now(), depth) && clock.now >= old(clock.now)
      invariant move.Some? ==> move.value in Legal(g, p)
      invariant if white then alpha == best && beta == PosInf else beta == best && alpha == NegInf
      invariant TableFinite(tt.entries) && (best.Fin? || best == Worst(white))
      invariant result == RootLoopRun(g, p, moves[i..], best, move, Window(alpha, beta), depth, tt.entries)
      invariant trusted ==> Coherent(g, p, depth) && TableSound(g, p, tt.Now()) && RootProgress(g, p, depth, moves, i, best, move)
    {
      var late := clock.Expired(deadline);
      if late {
        return TimedOut;
      }
      ghost var before := tt.Now();
      MinimaxRunFinite(g, Play(g, p, moves[i]), depth - 1, Window(alpha, beta), 1, tt.entries);
      RootRunStep(g, p, moves[i..], best, move, Window(alpha, beta), depth, tt.entries);
      assert moves[i..][1..] == moves[i + 1..] && moves[i] in moves;
      if trusted {
        RootChildTrusted(g, p, before, depth, moves[i]);
      }
      board.Push(g, moves[i]);
      var child, narrowed := Minimax(g, board, depth - 1, alpha, beta, 1, clock, deadline, tt, p);
      board.Pop();
      if trusted {
        RootChildSound(g, p, before, tt.Now(), depth, moves, i, best, move, child, alpha, beta, narrowed);
      }
      if child.TimedOut? {
        return TimedOut;
      }
      if (white && Lt(best, child.score)) || (!white && Lt(child.score, best)) {
        best, move := child.score, Some(moves[i]);
      }
      if white {
        alpha := Max(alpha, best);
      } else {
        beta := Min(beta, best);
      }
      i := i + 1;
    }
    assert moves[i..] == [];
    RootRunEnd(g, p, best, move, Window(alpha, beta), depth, tt.entries);
    if trusted {
      RootFinish(g, p, depth, moves, best, move);
      if ModestEvals(g, p, depth) {
        RootMates(g, p, depth, move.value, best);
      }
    }
    return Done(best, move);
  }

  lemma RootMates(g: Game, p: Position, depth: nat, move: Move, score: Score)
    requires ModestEvals(g, p, depth) && StuckIsOver(g) && depth >= 1 && Legal(g, p) != []
    requires score == RootValue(g, p, depth) && Attains(g, p, depth, 0, Some(move), score)
    ensures MatesAnswered(g, p, depth, move, score) && MateInOneAnswered(g, p, move, score)
  {
    hide RootValue;
    hide ModestEvals;
    hide MatesAnswered;
    hide MateInOneAnswered;
    hide Value;
    MatesFound(g, p, depth, move, score);
    MateInOneFound(g, p, depth, move, score);
  }

  lemma RootRunStep(g: Game, p: Position, moves: seq<Move>, best: Score, move: Option<Move>, w: Window, depth: nat, t: Entries)
    requires depth >= 1 && moves != []
    ensures var white := White(g, p);
      var child := MinimaxRun(g, Play(g, p, moves[0]), depth - 1, w, 1, t);
      var wins := if white then Lt(best, child.score) else Lt(child.score, best);
      var score := if wins then child.score else best;
      RootLoopRun(g, p, moves, best, move, w, depth, t)
      == RootLoopRun(g, p, moves[1..], score, if wins then Some(moves[0]) else move, Tightened(white, w, score), depth, child.table)
  {
    hide MinimaxRun;
  }

  lemma RootRunEnd(g: Game, p: Position, best: Score, move: Option<Move>, w: Window, depth: nat, t: Entries)
    requires depth >= 1
    ensures RootLoopRun(g, p, [], best, move, w, depth, t) == Run(best, move, t)
  {
  }

  lemma RootChildTrusted(g: Game, p: Position, t: View, depth: nat, m: Move)
    requires depth >= 1 && Coherent(g, p, depth) && TableSound(g, p, t) && m in Legal(g, p)
    ensures Trusted(g, p, 1 + (depth - 1), t, Play(g, p, m), 1)
  {
    hide Coherent;
    hide TableSound;
    assert Reached(g, p, p, 0);
    ReachedNext(g, p, p, 0, m);
  }

  lemma RootChildSound(g: Game, p: Position, before: View, after: View, depth: nat, moves: seq<Move>, i: nat, best: Score, move: Option<Move>,
                       child: Outcome, alpha: Score, beta: Score, narrowed: bool)
    requires StuckIsOver(g) && depth >= 1 && i < |moves| && SameMembers(moves, Legal(g, p))
    requires RootProgress(g, p, depth, moves, i, best, move)
    requires if White(g, p) then alpha == best && beta == PosInf else beta == best && alpha == NegInf
    requires SoundCall(g, p, after, Play(g, p, moves[i]), depth - 1, 1, child, alpha, beta, narrowed)
    ensures TableSound(g, p, after)
    ensures child.Done? ==>
      var wins := if White(g, p) then Lt(best, child.score) else Lt(child.score, best);
      RootProgress(g, p, depth, moves, i + 1, if wins then child.score else best, if wins then Some(moves[i]) else move)
  {
    hide BestOf;
    hide Children;
    hide Value;
    hide TableSound;
    hide Attains;
    hide FailSoft;
    hide MoveAttains;
    hide RootProgress;
    if child.Done? {
      RootStep(g, p, depth, moves, i, best, move, child.score);
    }
  }

  /** After `i` root moves the best score is exact and, once there is one, attained. */
  ghost predicate RootProgress(g: Game, p: Position, depth: nat, moves: seq<Move>, i: nat, best: Score, move: Option<Move>)
    requires i <= |moves| && depth >= 1
  {
    && best == BestOf(White(g, p), Worst(White(g, p)), moves[..i], Children(g, p, depth - 1, 1))
    && (i == 0 ==> best == Worst(White(g, p)))
    && (i > 0 ==> best.Fin? && Attains(g, p, depth, 0, move, best))
  }

  lemma RootStart(g: Game, p: Position, depth: nat, moves: seq<Move>)
    requires depth >= 1
    ensures RootProgress(g, p, depth, moves, 0, Worst(White(g, p)), None)
  {
  }

  lemma RootStep(g: Game, p: Position, depth: nat, moves: seq<Move>, i: nat, best: Score, move: Option<Move>, s: Score)
    requires StuckIsOver(g) && i < |moves| && depth >= 1
    requires SameMembers(moves, Legal(g, p))
    requires RootProgress(g, p, depth, moves, i, best, move)
    requires var white := White(g, p);
      FailSoft(Value(g, Play(g, p, moves[i]), depth - 1, 1), s, if white then best else NegInf, if white then PosInf else best)
    ensures var white := White(g, p);
      var better := (white && Lt(best, s)) || (!white && Lt(s, best));
      RootProgress(g, p, depth, moves, i + 1, if better then s else best, if better then Some(moves[i]) else move)
  {
    var white, f := White(g, p), Children(g, p, depth - 1, 1);
    BestOfStep(white, Worst(white), moves, f, i);
    assert moves[i] in moves;
    ValueFinite(g, Play(g, p, moves[i]), depth - 1, 1);
  }

  lemma RootFinish(g: Game, p: Position, depth: nat, moves: seq<Move>, best: Score, move: Option<Move>)
    requires depth >= 1 && moves != []
    requires SameMembers(moves, Legal(g, p))
    requires RootProgress(g, p, depth, moves, |moves|, best, move)
    ensures best == RootValue(g, p, depth) && Attains(g, p, depth, 0, move, best)
  {
    assert moves[..|moves|] == moves;
    BestOfSameMembers(White(g, p), Worst(White(g, p)), moves, Legal(g, p), Children(g, p, depth - 1, 1));
  }

  /** The static fallback for a clock that stops the search before depth one. */
  method StaticBestMove(g: Game, board: Board) returns (move: Move, score: Score)
    requires board.Valid() && Legal(g, board.Top()) != []
    modifies board
    ensures board.stack == old(board.stack)
    ensures var p := old(board.Top());
      && move in Legal(g, p)
      && score == StaticBest(g, p) == StaticScore(g, Play(g, p, move))
      && ((exists m :: MatesAtOnce(g, p, m)) ==> MatesAtOnce(g, p, move))
  {
    hide BestOf;
    hide MatesAtOnce;
    var p := board.Top();
    var moves, white := Legal(g, p), White(g, p);
    ghost var f := StaticScores(g, p);
    move, score := moves[0], Worst(white);
    StaticStart(white, moves, f);
    for i := 0 to |moves|
      invariant board.stack == old(board.stack)
      invariant move in moves
      invariant score == BestOf(white, Worst(white), moves[..i], f)
      invariant score == Worst(white) || score == StaticScore(g, Play(g, p, move))
      invariant i > 0 && score == Worst(white) ==> StaticScore(g, Play(g, p, moves[0])) == Worst(white)
      invariant score == Worst(white) ==> move == moves[0]
    {
      board.Push(g, moves[i]);
      var s := StaticScore(g, board.Top());
      board.Pop();
      StaticStep(g, p, moves, i);
      if (white && Lt(score, s)) || (!white && Lt(s, score)) {
        move, score := moves[i], s;
      }
    }
    assert moves[..|moves|] == moves;
    StaticMate(g, p, move);
  }

  lemma StaticStart(white: bool, moves: seq<Move>, f: Move -> Score)
    ensures BestOf(white, Worst(white), moves[..0], f) == Worst(white)
  {
  }

  lemma StaticStep(g: Game, p: Position, moves: seq<Move>, i: nat)
    requires i < |moves|
    ensures BestOf(White(g, p), Worst(White(g, p)), moves[..i + 1], StaticScores(g, p))
      == Better(White(g, p), BestOf(White(g, p), Worst(White(g, p)), moves[..i], StaticScores(g, p)), StaticScore(g, Play(g, p, moves[i])))
  {
    BestOfStep(White(g, p), Worst(White(g, p)), moves, StaticScores(g, p), i);
  }

  lemma WiderHorizon(t: View, horizon: nat, wider: nat)
    requires TableWithin(t, horizon) && horizon <= wider
    ensures TableWithin(t, wider)
  {
  }

  /** Iterative deepening with one table for all depths: whatever the clock does,
      the answer is that of the last depth searched to its end (or, if none was,
      the static fallback), exact and attained where the root's boards are told apart. */
  method IterativeSearch(g: Game, board: Board, maxDepth: nat, budget: nat, clock: Clock)
    returns (move: Option<Move>, score: Score, ghost completed: nat)
    requires StuckIsOver(g)
    requires board.Valid()
    modifies board, clock
    ensures board.stack == old(board.stack)
    ensures completed <= maxDepth
    ensures Legal(g, old(board.Top())) == [] ==> move.None? && score == Fin(0)
    ensures Legal(g, old(board.Top())) != [] ==> move.Some? && move.value in Legal(g, old(board.Top()))
    ensures completed >= 1 && Coherent(g, old(board.Top()), maxDepth) ==>
      && score == RootValue(g, old(board.Top()), completed)
      && Attains(g, old(board.Top()), completed, 0, move, score)
    ensures completed >= 1 && Coherent(g, old(board.Top()), maxDepth) && ModestEvals(g, old(board.Top()), maxDepth) ==>
      MatesAnswered(g, old(board.Top()), completed, move.value, score) && MateInOneAnswered(g, old(board.Top()), move.value, score)
    ensures completed == 0 && Legal(g, old(board.Top())) != [] ==>
      && score == StaticBest(g, old(board.Top())) == StaticScore(g, Play(g, old(board.Top()), move.value))
      && ((exists m :: MatesAtOnce(g, old(board.Top()), m)) ==> MatesAtOnce(g, old(board.Top()), move.value))
    ensures Legal(g, old(board.Top())) == [] || completed == maxDepth || clock.now >= old(clock.now) + budget
  {
    hide ModestEvals;
    hide MatesAnswered;
    hide MateInOneAnswered;
    hide MatesAtOnce;
    hide RootValue;
    hide RootRun;
    hide TableSound;
    hide Coherent;
    hide StuckIsOver;
    var p := board.Top();
    ghost var trusted := Coherent(g, p, maxDepth);
    completed := 0;
    if Legal(g, p) == [] {
      return None, Fin(0), 0;
    }
    var deadline := clock.now + budget;
    var tt := new Table();
    EmptyTableSound(g, p);
    var fallback, s := StaticBestMove(g, board);
    move, score := Some(fallback), s;
    var preferred: Option<Move>, depth := None, 1;
    while depth <= maxDepth
      invariant 1 <= depth <= maxDepth + 1
      invariant completed == depth - 1
      invariant fresh(tt) && board.stack == old(board.stack) && TableWithin(tt.Now(), depth - 1) && TableFinite(tt.entries)
      invariant move.Some? && move.value in Legal(g, p)
      invariant trusted ==> TableSound(g, p, tt.Now())
      invariant completed >= 1 && trusted ==> score == RootValue(g, p, completed) && Attains(g, p, completed, 0, move, score)
      invariant completed >= 1 && trusted && ModestEvals(g, p, maxDepth) ==>
        MatesAnswered(g, p, completed, move.value, score) && MateInOneAnswered(g, p, move.value, score)
      invariant completed == 0 ==> score == StaticBest(g, p) == StaticScore(g, Play(g, p, move.value))
      invariant completed == 0 ==> (exists m :: MatesAtOnce(g, p, m)) ==> MatesAtOnce(g, p, move.value)
      invariant clock.now >= old(clock.now)
    {
      var late := clock.Expired(deadline);
      if late {
        break;
      }
      WiderHorizon(tt.Now(), depth - 1, depth);
      if trusted {
        CoherentShallower(g, p, depth, maxDepth);
      }
      if ModestEvals(g, p, maxDepth) {
        ModestShallower(g, p, depth, maxDepth);
      }
      var r := RootSearch(g, board, depth, clock, deadline, tt, preferred);
      if r.TimedOut? {
        break;
      }
      if r.move.Some? {
        move, score, preferred := r.move, r.score, r.move;
      }
      completed := depth;
      depth := depth + 1;
    }
  }

  lemma EmptyTableSound(g: Game, root: Position)
    ensures TableSound(g, root, View(map[], {})) && TableWithin(View(map[], {}), 0)
  {
  }
}
