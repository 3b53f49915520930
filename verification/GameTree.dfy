/** The two-player game the engine searches, and the plain meaning of a search:
    depth-limited minimax whose leaves are plain quiescence values, with no
    windows, no table and no clock. */
module GameTree {
  import opened Options
  import opened Scores
  import opened Sorting

  // A position is a whole board, move history included; any encoding will do.
  type Position = int
  type Move = int
  // What the transposition table sees of a position: everything but its history.
  type Key = int

  const MATE_SCORE := 100_000
  const QUIESCENCE_DEPTH := 3
  const TABLE_MOVE_PRIORITY := 1_000_000

  datatype Status = Ongoing | Drawn | Checkmate

  datatype Info = Info(
    whiteToMove: bool, status: Status, inCheck: bool, eval: int,
    legal: seq<Move>, tactical: set<Move>)

  datatype Game = Game(
    info: Position -> Info,
    play: (Position, Move) -> Position,
    key: Position -> Key,
    priority: (Position, Move) -> int)

  function InfoOf(g: Game, p: Position): Info { g.info(p) }
  function Play(g: Game, p: Position, m: Move): Position { g.play(p, m) }
  function KeyOf(g: Game, p: Position): Key { g.key(p) }
  function White(g: Game, p: Position): bool { InfoOf(g, p).whiteToMove }
  function Legal(g: Game, p: Position): seq<Move> { InfoOf(g, p).legal }

  /** Alike in all the search reads, and staying so after every legal move. */
  ghost predicate Twins(g: Game, p: Position, q: Position) {
    && InfoOf(g, p) == InfoOf(g, q)
    && forall m {:trigger Play(g, p, m)} {:trigger Play(g, q, m)} ::
        m in Legal(g, p) ==> KeyOf(g, Play(g, p, m)) == KeyOf(g, Play(g, q, m))
  }

  predicate GoesOn(g: Game, p: Position) {
    InfoOf(g, p).status.Ongoing?
  }

  /** The boards `n` plies from a root that a full-width search visits: it plays every
      legal move of the root, and of every other board where the game goes on. */
  ghost predicate Reached(g: Game, root: Position, p: Position, n: nat)
    decreases n
  {
    if n == 0 then p == root
    else exists q: Position, m: Move {:trigger Play(g, q, m)} ::
        Reached(g, root, q, n - 1) && (n == 1 || GoesOn(g, q)) && m in Legal(g, q) && p == Play(g, q, m)
  }

  /** The boards a search of depth `horizon` may visit: past the horizon only the moves
      of quiescence are played, and at most one ply more than its depth. */
  ghost predicate Searched(g: Game, root: Position, horizon: nat, p: Position, n: nat)
    decreases n
  {
    if n <= horizon then Reached(g, root, p, n)
    else
      && n <= horizon + QUIESCENCE_DEPTH + 1
      && exists q: Position, m: Move {:trigger Play(g, q, m)} ::
          Searched(g, root, horizon, q, n - 1) && GoesOn(g, q) && m in QuietMoves(g, q) && p == Play(g, q, m)
  }

  /** The key omits the history, but a search looks at it (repetitions). What the search
      needs of a root: among the finitely many boards it may visit, those met after the
      same number of plies under the same key are alike. */
  ghost predicate Coherent(g: Game, root: Position, horizon: nat) {
    forall n: nat, p: Position, q: Position {:trigger Searched(g, root, horizon, p, n), Searched(g, root, horizon, q, n)} ::
      Searched(g, root, horizon, p, n) && Searched(g, root, horizon, q, n) && KeyOf(g, p) == KeyOf(g, q) ==> Twins(g, p, q)
  }

  lemma ReachedNext(g: Game, root: Position, p: Position, n: nat, m: Move)
    requires Reached(g, root, p, n) && (n == 0 || GoesOn(g, p)) && m in Legal(g, p)
    ensures Reached(g, root, Play(g, p, m), n + 1)
  {
  }

  lemma SearchedNext(g: Game, root: Position, horizon: nat, p: Position, n: nat, m: Move)
    requires Searched(g, root, horizon, p, n) && GoesOn(g, p) && m in QuietMoves(g, p)
    requires n < horizon + QUIESCENCE_DEPTH + 1
    ensures Searched(g, root, horizon, Play(g, p, m), n + 1)
  {
    if n < horizon {
      ReachedNext(g, root, p, n, m);
    }
  }

  /** What a shallower search visits a deeper one visits too. */
  lemma {:induction false} SearchedDeeper(g: Game, root: Position, shallow: nat, deep: nat, p: Position, n: nat)
    requires 1 <= shallow <= deep && Searched(g, root, shallow, p, n)
    ensures Searched(g, root, deep, p, n)
    decreases n
  {
    hide Reached;
    hide QuietMoves;
    if n > shallow {
      var q, m := SearchedBefore(g, root, shallow, p, n);
      hide Searched;
      SearchedDeeper(g, root, shallow, deep, q, n - 1);
      SearchedNext(g, root, deep, q, n - 1, m);
    }
  }

  lemma SearchedBefore(g: Game, root: Position, horizon: nat, p: Position, n: nat) returns (q: Position, m: Move)
    requires n > horizon && Searched(g, root, horizon, p, n)
    ensures n <= horizon + QUIESCENCE_DEPTH + 1
    ensures Searched(g, root, horizon, q, n - 1) && GoesOn(g, q) && m in QuietMoves(g, q) && p == Play(g, q, m)
  {
    hide QuietMoves;
    q, m :| Searched(g, root, horizon, q, n - 1) && GoesOn(g, q) && m in QuietMoves(g, q) && p == Play(g, q, m);
  }

  lemma CoherentShallower(g: Game, root: Position, shallow: nat, deep: nat)
    requires 1 <= shallow <= deep && Coherent(g, root, deep)
    ensures Coherent(g, root, shallow)
  {
    forall n: nat, p: Position, q: Position | Searched(g, root, shallow, p, n) && Searched(g, root, shallow, q, n) && KeyOf(g, p) == KeyOf(g, q)
      ensures Twins(g, p, q)
    {
      SearchedDeeper(g, root, shallow, deep, p, n);
      SearchedDeeper(g, root, shallow, deep, q, n);
    }
  }

  /** Without a legal move the game is over: mate or stalemate. */
  ghost predicate StuckIsOver(g: Game) {
    forall p: Position :: Legal(g, p) == [] ==> InfoOf(g, p).status != Ongoing
  }

  function TerminalScore(g: Game, p: Position, ply: nat): Option<Score> {
    match InfoOf(g, p).status
    case Ongoing => None
    case Drawn => Some(Fin(0))
    case Checkmate => Some(Fin(if White(g, p) then -MATE_SCORE + ply else MATE_SCORE - ply))
  }

  function StandPat(g: Game, p: Position): Score {
    Fin(InfoOf(g, p).eval)
  }

  function Filter(s: seq<Move>, keep: set<Move>): (r: seq<Move>)
    ensures forall m :: m in r <==> m in s && m in keep
  {
    if s == [] then []
    else if s[0] in keep then [s[0]] + Filter(s[1..], keep)
    else Filter(s[1..], keep)
  }

  /** In check every evasion counts; otherwise only captures and promotions. */
  function QuietMoves(g: Game, p: Position): (r: seq<Move>)
    ensures forall m :: m in r ==> m in Legal(g, p)
  {
    var i := InfoOf(g, p);
    if i.inCheck then i.legal else Filter(i.legal, i.tactical)
  }

  /** A position reached by the single forced evasion at the end of quiescence. */
  function LeafScore(g: Game, p: Position, ply: nat): Score {
    match TerminalScore(g, p, ply)
    case Some(s) => s
    case None => StandPat(g, p)
  }

  function LeafScores(g: Game, p: Position, ply: nat): Move -> Score {
    m => LeafScore(g, Play(g, p, m), ply)
  }

  /** Plain quiescence. Standing pat is an option only outside check. */
  function QValue(g: Game, p: Position, ply: nat, qdepth: nat): Score
    decreases qdepth, 0
  {
    var i := InfoOf(g, p);
    var moves := QuietMoves(g, p);
    match TerminalScore(g, p, ply)
    case Some(s) => s
    case None =>
      if moves == [] || (qdepth == 0 && !i.inCheck) then StandPat(g, p)
      else if qdepth == 0 then BestOf(White(g, p), Worst(White(g, p)), moves, LeafScores(g, p, ply + 1))
      else BestOf(White(g, p), QStart(g, p), moves, QChildren(g, p, ply + 1, qdepth - 1))
  }

  function QStart(g: Game, p: Position): Score {
    if InfoOf(g, p).inCheck then Worst(White(g, p)) else StandPat(g, p)
  }

  function QChildren(g: Game, p: Position, ply: nat, qdepth: nat): Move -> Score
    decreases qdepth, 1
  {
    m => QValue(g, Play(g, p, m), ply, qdepth)
  }

  /** Plain minimax to a fixed depth. */
  function Value(g: Game, p: Position, depth: nat, ply: nat): Score
    decreases depth, 0
  {
    match TerminalScore(g, p, ply)
    case Some(s) => s
    case None =>
      if depth == 0 then QValue(g, p, ply, QUIESCENCE_DEPTH)
      else BestOf(White(g, p), Worst(White(g, p)), Legal(g, p), Children(g, p, depth - 1, ply + 1))
  }

  function Children(g: Game, p: Position, depth: nat, ply: nat): Move -> Score
    decreases depth, 1
  {
    m => Value(g, Play(g, p, m), depth, ply)
  }

  /** What the root is worth at a given search depth. */
  function RootValue(g: Game, p: Position, depth: nat): Score
    requires depth >= 1
  {
    BestOf(White(g, p), Worst(White(g, p)), Legal(g, p), Children(g, p, depth - 1, 1))
  }

  function MovePriority(g: Game, p: Position, hint: Option<Move>): Move -> Score {
    m => if hint == Some(m) then Fin(TABLE_MOVE_PRIORITY) else Fin(g.priority(p, m))
  }

  function OrderMoves(g: Game, p: Position, moves: seq<Move>, hint: Option<Move>): (r: seq<Move>)
    ensures SameMembers(r, moves) && |r| == |moves|
  {
    SortPermutes(moves, MovePriority(g, p, hint));
    SortDescending(moves, MovePriority(g, p, hint))
  }

  /** Equal keys at one ply mean equal quiescence values. */
  lemma {:induction false} KeyDeterminesQValue(g: Game, root: Position, horizon: nat, p: Position, q: Position, ply: nat, qdepth: nat)
    requires Coherent(g, root, horizon) && KeyOf(g, p) == KeyOf(g, q)
    requires Searched(g, root, horizon, p, ply) && Searched(g, root, horizon, q, ply) && ply + qdepth <= horizon + QUIESCENCE_DEPTH
    ensures QValue(g, p, ply, qdepth) == QValue(g, q, ply, qdepth)
    decreases qdepth
  {
    hide Searched;
    var moves := QuietMoves(g, p);
    var white := White(g, p);
    assert Twins(g, p, q);
    if TerminalScore(g, p, ply).None? && moves != [] {
      if qdepth == 0 {
        forall m | m in moves
          ensures LeafScores(g, p, ply + 1)(m) == LeafScores(g, q, ply + 1)(m)
        {
          SearchedNext(g, root, horizon, p, ply, m);
          SearchedNext(g, root, horizon, q, ply, m);
          assert Twins(g, Play(g, p, m), Play(g, q, m));
        }
        BestOfSameScores(white, Worst(white), moves, LeafScores(g, p, ply + 1), LeafScores(g, q, ply + 1));
      } else {
        var f, f' := QChildren(g, p, ply + 1, qdepth - 1), QChildren(g, q, ply + 1, qdepth - 1);
        forall m | m in moves
          ensures f(m) == f'(m)
        {
          SearchedNext(g, root, horizon, p, ply, m);
          SearchedNext(g, root, horizon, q, ply, m);
          KeyDeterminesQValue(g, root, horizon, Play(g, p, m), Play(g, q, m), ply + 1, qdepth - 1);
        }
        BestOfSameScores(white, QStart(g, p), moves, f, f');
      }
    }
  }

  lemma ReachedTwins(g: Game, root: Position, horizon: nat, p: Position, q: Position, n: nat)
    requires Coherent(g, root, horizon) && KeyOf(g, p) == KeyOf(g, q) && n <= horizon
    requires Reached(g, root, p, n) && Reached(g, root, q, n)
    ensures Twins(g, p, q)
  {
    hide Reached;
    assert Searched(g, root, horizon, p, n) && Searched(g, root, horizon, q, n);
  }

  /** Twins whose children are worth the same are worth the same. */
  lemma TwinsOfTwins(g: Game, p: Position, q: Position, depth: nat, ply: nat)
    requires Twins(g, p, q) && depth >= 1
    requires TerminalScore(g, p, ply).None? ==>
      forall m :: m in Legal(g, p) ==> Value(g, Play(g, p, m), depth - 1, ply + 1) == Value(g, Play(g, q, m), depth - 1, ply + 1)
    ensures Value(g, p, depth, ply) == Value(g, q, depth, ply)
  {
    if TerminalScore(g, p, ply).None? {
      BestOfSameScores(White(g, p), Worst(White(g, p)), Legal(g, p), Children(g, p, depth - 1, ply + 1), Children(g, q, depth - 1, ply + 1));
    }
  }

  /** Equal keys at one ply mean equal minimax values, as deep as the search looks. */
  lemma {:induction false} KeyDeterminesValue(g: Game, root: Position, horizon: nat, p: Position, q: Position, depth: nat, ply: nat)
    requires Coherent(g, root, horizon) && KeyOf(g, p) == KeyOf(g, q)
    requires Reached(g, root, p, ply) && Reached(g, root, q, ply) && ply + depth <= horizon
    ensures Value(g, p, depth, ply) == Value(g, q, depth, ply)
    decreases depth
  {
    ReachedTwins(g, root, horizon, p, q, ply);
    if depth == 0 {
      LeafTwins(g, root, horizon, p, q, ply);
    } else {
      hide Value;
      hide Reached;
      hide Coherent;
      if TerminalScore(g, p, ply).None? {
        forall m | m in Legal(g, p)
          ensures Value(g, Play(g, p, m), depth - 1, ply + 1) == Value(g, Play(g, q, m), depth - 1, ply + 1)
        {
          ReachedNext(g, root, p, ply, m);
          ReachedNext(g, root, q, ply, m);
          KeyDeterminesValue(g, root, horizon, Play(g, p, m), Play(g, q, m), depth - 1, ply + 1);
        }
      }
      TwinsOfTwins(g, p, q, depth, ply);
    }
  }

  lemma LeafTwins(g: Game, root: Position, horizon: nat, p: Position, q: Position, ply: nat)
    requires Coherent(g, root, horizon) && KeyOf(g, p) == KeyOf(g, q) && ply <= horizon
    requires Reached(g, root, p, ply) && Reached(g, root, q, ply)
    ensures Value(g, p, 0, ply) == Value(g, q, 0, ply)
  {
    hide QValue;
    hide Reached;
    ReachedTwins(g, root, horizon, p, q, ply);
    KeyDeterminesQValue(g, root, horizon, p, q, ply, QUIESCENCE_DEPTH);
  }

  lemma {:induction false} QValueFinite(g: Game, p: Position, ply: nat, qdepth: nat)
    ensures QValue(g, p, ply, qdepth).Fin?
    decreases qdepth
  {
    var moves := QuietMoves(g, p);
    var white := White(g, p);
    if TerminalScore(g, p, ply).None? && moves != [] {
      if qdepth == 0 {
        BestOfFinite(white, Worst(white), moves, LeafScores(g, p, ply + 1));
      } else {
        forall m | m in moves
          ensures QChildren(g, p, ply + 1, qdepth - 1)(m).Fin?
        {
          QValueFinite(g, Play(g, p, m), ply + 1, qdepth - 1);
        }
        BestOfFinite(white, QStart(g, p), moves, QChildren(g, p, ply + 1, qdepth - 1));
      }
    }
  }

  lemma {:induction false} ValueFinite(g: Game, p: Position, depth: nat, ply: nat)
    requires StuckIsOver(g)
    ensures Value(g, p, depth, ply).Fin?
    decreases depth
  {
    if TerminalScore(g, p, ply).None? {
      if depth == 0 {
        QValueFinite(g, p, ply, QUIESCENCE_DEPTH);
      } else {
        forall m | m in Legal(g, p)
          ensures Children(g, p, depth - 1, ply + 1)(m).Fin?
        {
          ValueFinite(g, Play(g, p, m), depth - 1, ply + 1);
        }
        BestOfFinite(White(g, p), Worst(White(g, p)), Legal(g, p), Children(g, p, depth - 1, ply + 1));
      }
    }
  }

  /** The one-ply static score: infinite for mate, zero for a draw. */
  function StaticScore(g: Game, p: Position): Score {
    match InfoOf(g, p).status
    case Ongoing => StandPat(g, p)
    case Drawn => Fin(0)
    case Checkmate => Worst(White(g, p))
  }

  function StaticScores(g: Game, p: Position): Move -> Score {
    m => StaticScore(g, Play(g, p, m))
  }

  function StaticBest(g: Game, p: Position): Score {
    BestOf(White(g, p), Worst(White(g, p)), Legal(g, p), StaticScores(g, p))
  }
}
