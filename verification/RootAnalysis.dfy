/** The analysis layer over the engine: full-window scores and replies for every
    root move, principal variations read back from the table, ranking, and the
    comparison of a played move with the best one. */
module RootAnalysis {
  import opened Options
  import opened Integers
  import opened Scores
  import opened Sorting
  import opened GameTree
  import opened SearchRun
  import opened Search

  datatype Candidate = Candidate(move: Move, score: Score, reply: Option<Move>, line: seq<Move>)

  /** The position a line leads to. */
  function After(g: Game, p: Position, line: seq<Move>): Position {
    if line == [] then p else Play(g, After(g, p, line[..|line| - 1]), line[|line| - 1])
  }

  ghost predicate LegalLine(g: Game, p: Position, line: seq<Move>) {
    forall j :: 0 <= j < |line| ==> line[j] in Legal(g, After(g, p, line[..j]))
  }

  /** A move at ply `j`, read from an exact entry for exactly the remaining depth
      whose score is the true value there; it attains that value unless a table
      bound had narrowed the call that stored it. */
  ghost predicate ReadFromTable(g: Game, t: View, q: Position, m: Move, j: nat, depth: nat) {
    var slot := SlotOf(g, q, j);
    && j < depth
    && slot in t.entries
    && t.entries[slot].flag.Exact? && t.entries[slot].depth == depth - j
    && t.entries[slot].score == Value(g, q, depth - j, j)
    && t.entries[slot].move == Some(m)
    && (slot in t.clean ==> Attains(g, q, depth - j, j, Some(m), Value(g, q, depth - j, j)))
  }

  /** A line for one root move: legal, no longer than the search was deep, second
      move the child search's reply, later moves read from the table. */
  ghost predicate ProvenLine(g: Game, t: View, p: Position, move: Move, reply: Option<Move>, line: seq<Move>, depth: nat) {
    && 1 <= |line| <= depth
    && line[0] == move
    && LegalLine(g, p, line)
    && (|line| >= 2 ==> reply == Some(line[1]))
    && forall j :: 2 <= j < |line| ==> ReadFromTable(g, t, After(g, p, line[..j]), line[j], j, depth)
  }

  lemma AfterExtended(g: Game, p: Position, line: seq<Move>, m: Move)
    ensures After(g, p, line + [m]) == Play(g, After(g, p, line), m)
    ensures After(g, p, []) == p
  {
    assert (line + [m])[..|line|] == line;
  }

  /** Extending a line keeps what was known about its moves. */
  lemma ExtendLine(g: Game, t: View, p: Position, move: Move, reply: Option<Move>, line: seq<Move>, depth: nat, m: Move)
    requires ProvenLine(g, t, p, move, reply, line, depth) && |line| < depth
    requires m in Legal(g, After(g, p, line))
    requires |line| == 1 ==> reply == Some(m)
    requires |line| >= 2 ==> ReadFromTable(g, t, After(g, p, line), m, |line|, depth)
    ensures ProvenLine(g, t, p, move, reply, line + [m], depth)
    ensures After(g, p, line + [m]) == Play(g, After(g, p, line), m)
  {
    hide ReadFromTable;
    var longer := line + [m];
    AfterExtended(g, p, line, m);
    assert longer[..|line|] == line;
    forall j | 0 <= j <= |line|
      ensures longer[..j] == line[..j]
    {
    }
  }

  /** A legal line for one root move, no longer than the search was deep. */
  ghost predicate PlausibleLine(g: Game, p: Position, move: Move, reply: Option<Move>, line: seq<Move>, depth: nat) {
    && 1 <= |line| <= depth
    && line[0] == move
    && LegalLine(g, p, line)
    && (|line| >= 2 ==> reply == Some(line[1]))
  }

  lemma ExtendPlausible(g: Game, p: Position, move: Move, reply: Option<Move>, line: seq<Move>, depth: nat, m: Move)
    requires PlausibleLine(g, p, move, reply, line, depth) && |line| < depth
    requires m in Legal(g, After(g, p, line))
    requires |line| == 1 ==> reply == Some(m)
    ensures PlausibleLine(g, p, move, reply, line + [m], depth)
    ensures After(g, p, line + [m]) == Play(g, After(g, p, line), m)
  {
    var longer := line + [m];
    AfterExtended(g, p, line, m);
    assert longer[..|line|] == line;
    forall j | 0 <= j <= |line|
      ensures longer[..j] == line[..j]
    {
    }
  }

  /** What a read from the table adds to a proven line, and where it leads. */
  lemma ReadExtends(g: Game, t: View, p: Position, move: Move, reply: Option<Move>, line: seq<Move>, depth: nat, probe: Position, m: Move)
    requires TableSound(g, p, t) && TableWithin(t, depth) && ProvenLine(g, t, p, move, reply, line, depth)
    requires 2 <= |line| < depth && probe == After(g, p, line) && Reached(g, p, probe, |line|)
    requires var slot := SlotOf(g, probe, |line|);
      && slot in t.entries && t.entries[slot].flag.Exact? && t.entries[slot].depth >= depth - |line| && t.entries[slot].move == Some(m)
    requires m in Legal(g, probe)
    ensures ProvenLine(g, t, p, move, reply, line + [m], depth)
    ensures Reached(g, p, Play(g, probe, m), |line| + 1)
  {
    hide Value;
    hide Reached;
    hide LegalLine;
    HitHasRequestedDepth(g, p, t, probe, depth - |line|, |line|);
    ReachedNext(g, p, probe, |line|, m);
    hide TableSound;
    hide TableWithin;
    ExtendLine(g, t, p, move, reply, line, depth, m);
  }

  /** Recovers the line the table has already proved; launches no search. The line is
      legal whatever the table; it is proven when the table is sound for the root's boards
      and a reply was found where the game goes on. */
  method PrincipalVariation(g: Game, p: Position, rootMove: Move, reply: Option<Move>, depth: nat, tt: Table) returns (line: seq<Move>)
    requires depth >= 1 && TableWithin(tt.Now(), depth)
    ensures rootMove !in Legal(g, p) ==> line == []
    ensures rootMove in Legal(g, p) ==> PlausibleLine(g, p, rootMove, reply, line, depth)
    ensures rootMove in Legal(g, p) && depth >= 2 && reply.Some? && reply.value in Legal(g, Play(g, p, rootMove)) ==> |line| >= 2
    ensures rootMove in Legal(g, p) && TableSound(g, p, tt.Now()) && (reply.Some? ==> GoesOn(g, Play(g, p, rootMove))) ==>
      ProvenLine(g, tt.Now(), p, rootMove, reply, line, depth)
  {
    hide TableSound;
    hide TableWithin;
    hide Reached;
    hide ProvenLine;
    hide PlausibleLine;
    hide After;
    if rootMove !in Legal(g, p) {
      return [];
    }
    ghost var trusted := TableSound(g, p, tt.Now()) && (reply.Some? ==> GoesOn(g, Play(g, p, rootMove)));
    line := [rootMove];
    var probe := Play(g, p, rootMove);
    FirstMove(g, tt.Now(), p, rootMove, reply, depth);
    if depth <= 1 || reply.None? || reply.value !in Legal(g, probe) {
      return;
    }
    SecondMove(g, tt.Now(), p, rootMove, reply, depth);
    line := line + [reply.value];
    probe := Play(g, probe, reply.value);
    var ply := 2;
    while ply < depth
      invariant 2 <= ply == |line| <= depth
      invariant probe == After(g, p, line)
      invariant PlausibleLine(g, p, rootMove, reply, line, depth)
      invariant trusted ==> Reached(g, p, probe, ply) && ProvenLine(g, tt.Now(), p, rootMove, reply, line, depth)
    {
      var entry := tt.Get(SlotOf(g, probe, ply));
      if entry.None? || !entry.value.flag.Exact? || entry.value.depth < depth - ply || entry.value.move.None?
         || entry.value.move.value !in Legal(g, probe) {
        break;
      }
      var m := entry.value.move.value;
      if trusted {
        ReadExtends(g, tt.Now(), p, rootMove, reply, line, depth, probe, m);
      }
      ExtendPlausible(g, p, rootMove, reply, line, depth, m);
      line := line + [m];
      probe := Play(g, probe, m);
      ply := ply + 1;
    }
  }

  lemma FirstMove(g: Game, t: View, p: Position, move: Move, reply: Option<Move>, depth: nat)
    requires depth >= 1 && move in Legal(g, p)
    ensures ProvenLine(g, t, p, move, reply, [move], depth) && PlausibleLine(g, p, move, reply, [move], depth)
    ensures After(g, p, [move]) == Play(g, p, move)
  {
    assert [move][..0] == [];
    AfterExtended(g, p, [], move);
    assert [] + [move] == [move];
  }

  lemma SecondMove(g: Game, t: View, p: Position, move: Move, reply: Option<Move>, depth: nat)
    requires depth >= 2 && move in Legal(g, p) && reply.Some? && reply.value in Legal(g, Play(g, p, move))
    ensures var line := [move] + [reply.value];
      && ProvenLine(g, t, p, move, reply, line, depth) && PlausibleLine(g, p, move, reply, line, depth)
      && After(g, p, line) == Play(g, Play(g, p, move), reply.value)
      && (GoesOn(g, Play(g, p, move)) ==> Reached(g, p, After(g, p, line), 2))
  {
    FirstMove(g, t, p, move, reply, depth);
    hide ProvenLine;
    ExtendLine(g, t, p, move, reply, [move], depth, reply.value);
    ProvenIsPlausible(g, t, p, move, reply, [move] + [reply.value], depth);
    FirstReached(g, p, move, reply.value);
  }

  lemma ProvenIsPlausible(g: Game, t: View, p: Position, move: Move, reply: Option<Move>, line: seq<Move>, depth: nat)
    requires ProvenLine(g, t, p, move, reply, line, depth)
    ensures PlausibleLine(g, p, move, reply, line, depth)
  {
  }

  lemma FirstReached(g: Game, p: Position, rootMove: Move, reply: Move)
    requires rootMove in Legal(g, p) && reply in Legal(g, Play(g, p, rootMove))
    ensures GoesOn(g, Play(g, p, rootMove)) ==> Reached(g, p, Play(g, Play(g, p, rootMove), reply), 2)
  {
    assert Reached(g, p, p, 0);
    ReachedNext(g, p, p, 0, rootMove);
    if GoesOn(g, Play(g, p, rootMove)) {
      ReachedNext(g, p, Play(g, p, rootMove), 1, reply);
    }
  }

  /** When no narrowed entry was read, the line keeps the root move's value all the
      way to its end: it is optimal play for both sides. */
  lemma {:induction false} LineAttainsScore(g: Game, t: View, p: Position, c: Candidate, depth: nat, n: nat)
    requires ProvenLine(g, t, p, c.move, c.reply, c.line, depth)
    requires c.score == Value(g, Play(g, p, c.move), depth - 1, 1)
    requires |c.line| >= 2 ==> Attains(g, Play(g, p, c.move), depth - 1, 1, c.reply, c.score)
    requires forall j :: 2 <= j < |c.line| ==> SlotOf(g, After(g, p, c.line[..j]), j) in t.clean
    requires 1 <= n <= |c.line|
    ensures Value(g, After(g, p, c.line[..n]), depth - n, n) == c.score
  {
    hide Value;
    hide After;
    hide LegalLine;
    assert c.line[..1] == [] + [c.move];
    AfterExtended(g, p, [], c.move);
    if n > 1 {
      LineAttainsScore(g, t, p, c, depth, n - 1);
      assert c.line[..n] == c.line[..n - 1] + [c.line[n - 1]];
      AfterExtended(g, p, c.line[..n - 1], c.line[n - 1]);
      assert n > 2 ==> ReadFromTable(g, t, After(g, p, c.line[..n - 1]), c.line[n - 1], n - 1, depth);
    }
  }

  /** One root move's evidence: its exact value, an optimal reply exactly when the
      reply was searched, and a line. */
  ghost predicate Evidence(g: Game, p: Position, depth: nat, c: Candidate) {
    && depth >= 1
    && c.move in Legal(g, p)
    && c.score.Fin?
    && c.score == Value(g, Play(g, p, c.move), depth - 1, 1)
    && (c.reply.Some? <==> depth >= 2 && TerminalScore(g, Play(g, p, c.move), 1).None?)
    && (c.reply.Some? ==> Attains(g, Play(g, p, c.move), depth - 1, 1, c.reply, c.score))
    && 1 <= |c.line| <= depth && c.line[0] == c.move && LegalLine(g, p, c.line)
    && (c.reply.Some? ==> |c.line| >= 2 && c.reply == Some(c.line[1]))
  }

  /** Every legal move, in order, each with its evidence. */
  ghost predicate CompletePass(g: Game, p: Position, depth: nat, cs: seq<Candidate>) {
    && (forall i :: 0 <= i < |cs| ==> Evidence(g, p, depth, cs[i]))
    && (forall m :: m in Legal(g, p) ==> exists i :: 0 <= i < |cs| && cs[i].move == m)
  }

  /** Calls at the first ply all have the full window, so nothing ever narrows them. */
  ghost predicate FirstPlyClean(t: View) {
    forall k: Slot :: k in t.entries && k.1 <= 1 ==> k in t.clean && t.entries[k].flag.Exact?
  }

  datatype Analysis = AnalysisTimedOut | Analysed(candidates: seq<Candidate>)

  /** Every legal move has its candidate, scored by a number. */
  ghost predicate FullPass(g: Game, p: Position, cs: seq<Candidate>) {
    && (forall i :: 0 <= i < |cs| ==> cs[i].move in Legal(g, p) && cs[i].score.Fin?)
    && (forall m :: m in Legal(g, p) ==> exists i :: 0 <= i < |cs| && cs[i].move == m)
    && (NoRepeats(Legal(g, p)) ==> OncePerMove(cs))
  }

  predicate NoRepeats(moves: seq<Move>) {
    forall i, j :: 0 <= i < j < |moves| ==> moves[i] != moves[j]
  }

  ghost predicate OncePerMove(cs: seq<Candidate>) {
    forall i, j :: 0 <= i < j < |cs| ==> cs[i].move != cs[j].move
  }

  lemma {:induction false} CountOnce<T>(s: seq<T>)
    ensures (forall i, j :: 0 <= i < j < |s| ==> s[i] != s[j]) <==> forall x :: x in s ==> multiset(s)[x] <= 1
  {
    if s != [] {
      var first, rest := s[0], s[1..];
      CountOnce(rest);
      assert s == [first] + rest;
      assert multiset(s)[first] == 1 + multiset(rest)[first];
      assert first in rest <==> first in multiset(rest);
      assert forall k :: 0 <= k < |rest| ==> rest[k] == s[k + 1];
      if forall i, j :: 0 <= i < j < |s| ==> s[i] != s[j] {
        assert first !in rest;
      }
      if forall x :: x in s ==> multiset(s)[x] <= 1 {
        forall x | x in rest
          ensures multiset(rest)[x] <= 1
        {
          assert x in s;
        }
        forall i, j | 0 <= i < j < |s|
          ensures s[i] != s[j]
        {
          if i > 0 {
            assert s[i] == rest[i - 1] && s[j] == rest[j - 1];
          } else {
            assert s[j] == rest[j - 1];
            assert s[j] in rest;
          }
        }
      }
    }
  }

  /** Ordering the moves repeats none. */
  lemma OrderRepeatsNone(g: Game, p: Position, moves: seq<Move>, hint: Option<Move>)
    requires NoRepeats(moves)
    ensures NoRepeats(OrderMoves(g, p, moves, hint))
  {
    var ordered := OrderMoves(g, p, moves, hint);
    SortPermutes(moves, MovePriority(g, p, hint));
    CountOnce(moves);
    CountOnce(ordered);
    forall x | x in ordered
      ensures multiset(ordered)[x] <= 1
    {
      assert x in moves;
    }
  }

  /** Ranking keeps one candidate per move. */
  lemma RankingRepeatsNone(white: bool, cs: seq<Candidate>)
    requires OncePerMove(cs)
    ensures OncePerMove(RankRootCandidates(white, cs))
  {
    var ranked := RankRootCandidates(white, cs);
    RankingSound(white, cs);
    CountOnce(cs);
    CountOnce(ranked);
    forall c | c in ranked
      ensures multiset(ranked)[c] <= 1
    {
      assert c in cs;
    }
    forall i, j | 0 <= i < j < |ranked|
      ensures ranked[i].move != ranked[j].move
    {
      assert ranked[i] in cs && ranked[j] in cs;
      var a :| 0 <= a < |cs| && cs[a] == ranked[i];
      var b :| 0 <= b < |cs| && cs[b] == ranked[j];
    }
  }

  ghost predicate ProvenLines(g: Game, p: Position, depth: nat, cs: seq<Candidate>, views: seq<View>) {
    |cs| == |views| && forall i :: 0 <= i < |cs| ==> ProvenLine(g, views[i], p, cs[i].move, cs[i].reply, cs[i].line, depth)
  }

  /** Scores every root move with the full window and one shared table. Where the root's
      boards are told apart, every score is exact and every reply optimal. */
  method AnalyzeRootCandidates(g: Game, board: Board, depth: nat, clock: Clock, deadline: int) returns (r: Analysis, ghost views: seq<View>)
    requires StuckIsOver(g)
    requires board.Valid() && depth >= 1
    modifies board, clock
    ensures board.stack == old(board.stack)
    ensures r.Analysed? ==> FullPass(g, old(board.Top()), r.candidates) && |r.candidates| == |Legal(g, old(board.Top()))|
    ensures r.Analysed? && Coherent(g, old(board.Top()), depth) ==>
      CompletePass(g, old(board.Top()), depth, r.candidates) && ProvenLines(g, old(board.Top()), depth, r.candidates, views)
    ensures clock.now >= old(clock.now) && (r.AnalysisTimedOut? ==> clock.now >= deadline)
  {
    hide FailSoft;
    hide Value;
    hide TableSound;
    hide TableWithin;
    hide Coherent;
    hide StuckIsOver;
    hide TableFinite;
    hide MinimaxRun;
    hide ProvenLine;
    hide PlausibleLine;
    hide CannotNarrow;
    hide OwnSlot;
    hide SameButOwn;
    hide SoundCall;
    hide Trusted;
    hide FirstPlyClean;
    hide Evidence;
    hide Reached;
    hide FullPass;
    hide CompletePass;
    hide TrustedSoFar;
    hide ProvenLines;
    hide OrderMoves;
    var p := board.Top();
    ghost var trusted := Coherent(g, p, depth);
    NoneTrusted(g, p, depth);
    var moves := OrderMoves(g, p, Legal(g, p), None);
    var tt := new Table();
    EmptyTableSound(g, p);
    FreshTable();
    WiderHorizon(tt.Now(), 0, depth);
    var cs: seq<Candidate> := [];
    views := [];
    var i := 0;
    while i < |moves|
      invariant i <= |moves| && |cs| == |views| == i
      invariant clock.now >= old(clock.now)
      invariant fresh(tt) && board.stack == old(board.stack) && TableWithin(tt.Now(), depth) && TableFinite(tt.entries) && FirstPlyClean(tt.Now())
      invariant forall j :: 0 <= j < i ==> cs[j].move == moves[j] && cs[j].score.Fin?
      invariant trusted ==> TableSound(g, p, tt.Now()) && TrustedSoFar(g, p, depth, cs, views)
    {
      var late := clock.Expired(deadline);
      if late {
        return AnalysisTimedOut, [];
      }
      ghost var before := tt.Now();
      assert moves[i] in moves;
      if trusted {
        RootChildTrusted(g, p, before, depth, moves[i]);
      }
      MinimaxRunFinite(g, Play(g, p, moves[i]), depth - 1, Window(NegInf, PosInf), 1, tt.entries);
      board.Push(g, moves[i]);
      var child, unnarrowed := Minimax(g, board, depth - 1, NegInf, PosInf, 1, clock, deadline, tt, p);
      board.Pop();
      if child.TimedOut? {
        return AnalysisTimedOut, [];
      }
      StillClean(g, p, moves[i], depth, child, unnarrowed, before, tt.Now());
      var line := PrincipalVariation(g, p, moves[i], child.move, depth, tt);
      var c := Candidate(moves[i], child.score, child.move, line);
      if trusted {
        TrustedCandidate(g, p, depth, c, child, unnarrowed, before, tt.Now());
        OneMoreTrusted(g, p, depth, cs, views, c, tt.Now());
      }
      cs, views := cs + [c], views + [tt.Now()];
      i := i + 1;
    }
    if NoRepeats(Legal(g, p)) {
      OrderRepeatsNone(g, p, Legal(g, p), None);
    }
    FullCover(g, p, moves, cs);
    if trusted {
      TrustedCovered(g, p, depth, moves, cs, views);
    }
    return Analysed(cs), views;
  }

  /** What is known of the candidates so far, each with the table its line was read from. */
  ghost predicate TrustedSoFar(g: Game, p: Position, depth: nat, cs: seq<Candidate>, views: seq<View>) {
    (forall j :: 0 <= j < |cs| ==> Evidence(g, p, depth, cs[j])) && ProvenLines(g, p, depth, cs, views)
  }

  lemma NoneTrusted(g: Game, p: Position, depth: nat)
    ensures TrustedSoFar(g, p, depth, [], [])
  {
  }

  lemma OneMoreTrusted(g: Game, p: Position, depth: nat, cs: seq<Candidate>, views: seq<View>, c: Candidate, t: View)
    requires TrustedSoFar(g, p, depth, cs, views)
    requires Evidence(g, p, depth, c) && ProvenLine(g, t, p, c.move, c.reply, c.line, depth)
    ensures TrustedSoFar(g, p, depth, cs + [c], views + [t])
  {
    hide Evidence;
    hide ProvenLine;
  }

  lemma TrustedCovered(g: Game, p: Position, depth: nat, moves: seq<Move>, cs: seq<Candidate>, views: seq<View>)
    requires SameMembers(moves, Legal(g, p)) && |cs| == |moves| && TrustedSoFar(g, p, depth, cs, views)
    requires forall j :: 0 <= j < |cs| ==> cs[j].move == moves[j]
    ensures CompletePass(g, p, depth, cs) && ProvenLines(g, p, depth, cs, views)
  {
    hide Evidence;
    hide ProvenLine;
    Covered(g, p, depth, moves, cs);
  }

  lemma FreshTable()
    ensures TableFinite(map[]) && FirstPlyClean(View(map[], {}))
  {
  }

  lemma FullCover(g: Game, p: Position, moves: seq<Move>, cs: seq<Candidate>)
    requires SameMembers(moves, Legal(g, p)) && |cs| == |moves|
    requires forall j :: 0 <= j < |cs| ==> cs[j].move == moves[j] && cs[j].score.Fin?
    requires NoRepeats(Legal(g, p)) ==> NoRepeats(moves)
    ensures FullPass(g, p, cs)
  {
    forall j | 0 <= j < |cs|
      ensures cs[j].move in Legal(g, p)
    {
      assert moves[j] in moves;
    }
    forall m | m in Legal(g, p)
      ensures exists i :: 0 <= i < |cs| && cs[i].move == m
    {
      assert m in moves;
      var i :| 0 <= i < |moves| && moves[i] == m;
      assert cs[i].move == m;
    }
  }

  /** Full-window calls at the first ply leave only clean exact entries there. */
  lemma StillClean(g: Game, p: Position, move: Move, depth: nat, r: Outcome, unnarrowed: bool, before: View, after: View)
    requires r.Done? && r.score.Fin? && FirstPlyClean(before)
    requires var q := Play(g, p, move);
      && (CannotNarrow(before, SlotOf(g, q, 1)) ==> unnarrowed)
      && OwnSlot(before, after, SlotOf(g, q, 1), r, NegInf, PosInf, unnarrowed)
      && SameButOwn(before, after, 1, SlotOf(g, q, 1))
    ensures FirstPlyClean(after) && unnarrowed
  {
    var q := Play(g, p, move);
    forall k: Slot | k in after.entries && k.1 <= 1
      ensures k in after.clean && after.entries[k].flag.Exact?
    {
      if k != SlotOf(g, q, 1) {
        assert SameSlot(before, after, k);
      }
    }
  }

  /** The evidence of a trusted full-window call and the line read after it. */
  lemma TrustedCandidate(g: Game, p: Position, depth: nat, c: Candidate, child: Outcome, unnarrowed: bool, before: View, after: View)
    requires StuckIsOver(g) && depth >= 1 && child.Done? && c.move in Legal(g, p)
    requires c.score == child.score && c.reply == child.move && FirstPlyClean(before)
    requires SoundCall(g, p, after, Play(g, p, c.move), depth - 1, 1, child, NegInf, PosInf, unnarrowed)
    requires var q := Play(g, p, c.move);
      && (CannotNarrow(before, SlotOf(g, q, 1)) ==> unnarrowed)
      && OwnSlot(before, after, SlotOf(g, q, 1), child, NegInf, PosInf, unnarrowed)
      && SameButOwn(before, after, 1, SlotOf(g, q, 1))
    requires PlausibleLine(g, p, c.move, c.reply, c.line, depth)
    requires depth >= 2 && c.reply.Some? && c.reply.value in Legal(g, Play(g, p, c.move)) ==> |c.line| >= 2
    requires TableSound(g, p, after) && (c.reply.Some? ==> GoesOn(g, Play(g, p, c.move))) ==>
      ProvenLine(g, after, p, c.move, c.reply, c.line, depth)
    ensures TableSound(g, p, after) && Evidence(g, p, depth, c) && ProvenLine(g, after, p, c.move, c.reply, c.line, depth)
  {
    hide TableSound;
    hide Value;
    hide LegalLine;
    hide FirstPlyClean;
    hide ReadFromTable;
    FullWindowChild(g, p, depth, c.move, child, unnarrowed, before, after);
    hide CannotNarrow;
    hide OwnSlot;
    hide SameButOwn;
    EvidenceFromLine(g, after, p, depth, c);
  }

  /** A full-window call from a clean first ply is exact, and its move optimal. */
  lemma FullWindowChild(g: Game, p: Position, depth: nat, move: Move, r: Outcome, unnarrowed: bool, before: View, after: View)
    requires StuckIsOver(g) && depth >= 1 && r.Done?
    requires FirstPlyClean(before)
    requires var q := Play(g, p, move);
      && MinimaxDone(g, q, depth - 1, 1, r, NegInf, PosInf)
      && MoveAttains(g, q, depth - 1, 1, r, NegInf, PosInf, unnarrowed)
      && (CannotNarrow(before, SlotOf(g, q, 1)) ==> unnarrowed)
      && OwnSlot(before, after, SlotOf(g, q, 1), r, NegInf, PosInf, unnarrowed)
      && SameButOwn(before, after, 1, SlotOf(g, q, 1))
    ensures FirstPlyClean(after)
    ensures var q := Play(g, p, move);
      && r.score.Fin? && r.score == Value(g, q, depth - 1, 1)
      && (r.move.Some? <==> depth >= 2 && TerminalScore(g, q, 1).None?)
      && (r.move.Some? ==> Attains(g, q, depth - 1, 1, r.move, r.score))
  {
    var q := Play(g, p, move);
    ValueFinite(g, q, depth - 1, 1);
    forall k: Slot | k in after.entries && k.1 <= 1
      ensures k in after.clean && after.entries[k].flag.Exact?
    {
      if k != SlotOf(g, q, 1) {
        assert SameSlot(before, after, k);
      }
    }
  }

  lemma EvidenceFromLine(g: Game, t: View, p: Position, depth: nat, c: Candidate)
    requires depth >= 1 && c.move in Legal(g, p) && c.score.Fin?
    requires c.score == Value(g, Play(g, p, c.move), depth - 1, 1)
    requires c.reply.Some? <==> depth >= 2 && TerminalScore(g, Play(g, p, c.move), 1).None?
    requires c.reply.Some? ==> Attains(g, Play(g, p, c.move), depth - 1, 1, c.reply, c.score) && |c.line| >= 2
    requires ProvenLine(g, t, p, c.move, c.reply, c.line, depth)
    ensures Evidence(g, p, depth, c)
  {
  }

  lemma Covered(g: Game, p: Position, depth: nat, moves: seq<Move>, cs: seq<Candidate>)
    requires SameMembers(moves, Legal(g, p)) && |cs| == |moves|
    requires forall j :: 0 <= j < |cs| ==> cs[j].move == moves[j] && Evidence(g, p, depth, cs[j])
    ensures CompletePass(g, p, depth, cs)
  {
    forall m | m in Legal(g, p)
      ensures exists i :: 0 <= i < |cs| && cs[i].move == m
    {
      assert m in moves;
      var i :| 0 <= i < |moves| && moves[i] == m;
      assert cs[i].move == m;
    }
  }

  /** The score as the side to move sees it: larger is better. */
  function SideScore(white: bool): Candidate -> Score {
    (c: Candidate) => if white then c.score else Neg(c.score)
  }

  /** Best first for the side to move, ties in search order. */
  function RankRootCandidates(white: bool, cs: seq<Candidate>): seq<Candidate> {
    SortDescending(cs, SideScore(white))
  }

  /** Ranking loses and invents nothing, and no candidate beats an earlier one. */
  lemma RankingSound(white: bool, cs: seq<Candidate>)
    ensures var ranked := RankRootCandidates(white, cs);
      && multiset(ranked) == multiset(cs) && |ranked| == |cs|
      && (forall c :: c in ranked <==> c in cs)
      && forall i, j :: 0 <= i < j < |ranked| ==> AsGood(white, ranked[i].score, ranked[j].score)
  {
    var ranked := RankRootCandidates(white, cs);
    SortPermutes(cs, SideScore(white));
    SortIsDescending(cs, SideScore(white));
    forall i, j | 0 <= i < j < |ranked|
      ensures AsGood(white, ranked[i].score, ranked[j].score)
    {
      assert Le(SideScore(white)(ranked[j]), SideScore(white)(ranked[i]));
    }
    forall c
      ensures c in ranked <==> c in cs
    {
      assert c in multiset(ranked) <==> c in multiset(cs);
    }
  }

  /** The root value bounds every child and is attained by one. */
  lemma RootValueIsBest(g: Game, p: Position, depth: nat) returns (m: Move)
    requires StuckIsOver(g) && depth >= 1 && Legal(g, p) != []
    ensures forall c: Candidate :: Evidence(g, p, depth, c) ==> AsGood(White(g, p), RootValue(g, p, depth), c.score)
    ensures Attains(g, p, depth, 0, Some(m), RootValue(g, p, depth)) && RootValue(g, p, depth).Fin?
  {
    hide Value;
    var white, moves, f := White(g, p), Legal(g, p), Children(g, p, depth - 1, 1);
    BestOfBounds(white, Worst(white), moves, f);
    BestOfAttained(white, Worst(white), moves, f);
    assert moves[0] in moves;
    ValueFinite(g, Play(g, p, moves[0]), depth - 1, 1);
    m :| m in moves && f(m) == RootValue(g, p, depth);
    ValueFinite(g, Play(g, p, m), depth - 1, 1);
    forall c: Candidate | Evidence(g, p, depth, c)
      ensures AsGood(white, RootValue(g, p, depth), c.score)
    {
      assert f(c.move) == c.score;
    }
  }

  /** The two root drivers agree: the first ranked full-window candidate has exactly
      the value that the narrowing-window root search returns. */
  lemma DriversAgree(g: Game, p: Position, depth: nat, cs: seq<Candidate>)
    requires StuckIsOver(g) && depth >= 1
    requires CompletePass(g, p, depth, cs) && Legal(g, p) != []
    ensures cs != [] && |RankRootCandidates(White(g, p), cs)| == |cs|
    ensures var first := RankRootCandidates(White(g, p), cs)[0];
      first.score == RootValue(g, p, depth) && Attains(g, p, depth, 0, Some(first.move), first.score)
    ensures forall c :: c in cs ==> AsGood(White(g, p), RootValue(g, p, depth), c.score)
  {
    hide RootValue;
    hide Value;
    hide LegalLine;
    var white, ranked := White(g, p), RankRootCandidates(White(g, p), cs);
    var m := RootValueIsBest(g, p, depth);
    var i :| 0 <= i < |cs| && cs[i].move == m;
    RankingSound(white, cs);
    assert cs[i] in ranked && ranked[0] in cs;
    assert Evidence(g, p, depth, cs[i]) && Evidence(g, p, depth, ranked[0]);
    var j :| 0 <= j < |ranked| && ranked[j] == cs[i];
    assert AsGood(white, ranked[0].score, ranked[j].score);
  }

  datatype Comparison =
    | IllegalMove
    | ComparisonTimedOut
    | Compared(best: Candidate, played: Candidate, loss: int, count: nat, second: Option<Candidate>, gap: Option<int>)

  /** The last candidate for a move, as a dictionary built in order keeps it. */
  function ByMove(cs: seq<Candidate>, m: Move): Option<Candidate> {
    if cs == [] then None
    else if cs[|cs| - 1].move == m then Some(cs[|cs| - 1])
    else ByMove(cs[..|cs| - 1], m)
  }

  lemma {:induction false} ByMoveFinds(cs: seq<Candidate>, m: Move, i: nat)
    requires i < |cs| && cs[i].move == m
    ensures ByMove(cs, m).Some? && ByMove(cs, m).value in cs && ByMove(cs, m).value.move == m
  {
    var n := |cs| - 1;
    if cs[n].move != m {
      ByMoveFinds(cs[..n], m, i);
    }
  }

  function Difference(white: bool, a: Score, b: Score): int
    requires a.Fin? && b.Fin?
  {
    if white then a.v - b.v else b.v - a.v
  }

  /** A comparison that means what it says: both scores are exact at one depth, the
      loss is their difference before any clamping, and the gap likewise. */
  ghost predicate ComparisonExact(g: Game, p: Position, depth: nat, m: Move, r: Comparison)
    requires depth >= 1 && r.Compared?
  {
    var white := White(g, p);
    && Evidence(g, p, depth, r.best) && Evidence(g, p, depth, r.played) && r.played.move == m
    && r.best.score == RootValue(g, p, depth)
    && r.loss == Difference(white, RootValue(g, p, depth), Value(g, Play(g, p, m), depth - 1, 1)) >= 0
    && (r.loss == 0 <==> Attains(g, p, depth, 0, Some(m), RootValue(g, p, depth)))
    && r.count == |Legal(g, p)|
    && (r.second.Some? <==> r.count >= 2) && (r.gap.Some? <==> r.second.Some?)
    && (r.second.Some? ==>
          && Evidence(g, p, depth, r.second.value)
          && r.gap.value == Difference(white, r.best.score, r.second.value.score) >= 0)
    && (r.second.Some? && NoRepeats(Legal(g, p)) ==> RunnerUp(g, p, depth, r.best.move, r.second.value.move, r.gap.value))
  }

  /** The runner-up is another move, worth no less than any move but the best, and the gap
      is the difference between the two in exact value. */
  ghost predicate RunnerUp(g: Game, p: Position, depth: nat, best: Move, second: Move, gap: int)
    requires depth >= 1
  {
    var worth := Children(g, p, depth - 1, 1);
    && second in Legal(g, p) && second != best
    && (forall m :: m in Legal(g, p) ==> AsGood(White(g, p), worth(best), worth(m)))
    && (forall m :: m in Legal(g, p) && m != best ==> AsGood(White(g, p), worth(second), worth(m)))
    && worth(best).Fin? && worth(second).Fin?
    && gap == if White(g, p) then worth(best).v - worth(second).v else worth(second).v - worth(best).v
  }

  lemma SecondIsRunnerUp(g: Game, p: Position, depth: nat, cs: seq<Candidate>, gap: int)
    requires StuckIsOver(g) && depth >= 1 && CompletePass(g, p, depth, cs) && OncePerMove(cs) && |cs| >= 2
    requires var ranked := RankRootCandidates(White(g, p), cs);
      && |ranked| == |cs| && ranked[0].score.Fin? && ranked[1].score.Fin?
      && gap == Difference(White(g, p), ranked[0].score, ranked[1].score)
    ensures var ranked := RankRootCandidates(White(g, p), cs);
      RunnerUp(g, p, depth, ranked[0].move, ranked[1].move, gap)
  {
    hide Value;
    hide LegalLine;
    var white, ranked := White(g, p), RankRootCandidates(White(g, p), cs);
    RankingSound(white, cs);
    RankingRepeatsNone(white, cs);
    forall i | 0 <= i < |ranked|
      ensures ranked[i].move in Legal(g, p) && ranked[i].score == Children(g, p, depth - 1, 1)(ranked[i].move)
    {
      assert ranked[i] in cs;
    }
    forall m | m in Legal(g, p)
      ensures exists j :: 0 <= j < |ranked| && ranked[j].move == m
    {
      var i :| 0 <= i < |cs| && cs[i].move == m;
      assert cs[i] in ranked;
      var j :| 0 <= j < |ranked| && ranked[j] == cs[i];
    }
    hide Evidence;
    hide CompletePass;
    forall m | m in Legal(g, p)
      ensures AsGood(white, ranked[0].score, Children(g, p, depth - 1, 1)(m))
      ensures m != ranked[0].move ==> AsGood(white, ranked[1].score, Children(g, p, depth - 1, 1)(m))
    {
      var j :| 0 <= j < |ranked| && ranked[j].move == m;
    }
  }

  /** Compares a played move with the best one, from one complete pass. */
  method CompareRootMove(g: Game, board: Board, played: Move, depth: nat, clock: Clock, deadline: int) returns (r: Comparison)
    requires StuckIsOver(g)
    requires board.Valid() && depth >= 1
    modifies board, clock
    ensures board.stack == old(board.stack)
    ensures r.IllegalMove? <==> played !in Legal(g, old(board.Top()))
    ensures r.Compared? && Coherent(g, old(board.Top()), depth) ==> ComparisonExact(g, old(board.Top()), depth, played, r)
    ensures clock.now >= old(clock.now) && (r.ComparisonTimedOut? ==> clock.now >= deadline)
  {
    hide Coherent;
    hide FullPass;
    hide CompletePass;
    hide ComparisonExact;
    hide OncePerMove;
    hide NoRepeats;
    hide RankRootCandidates;
    hide ByMove;
    hide RootValue;
    hide Value;
    var p := board.Top();
    if played !in Legal(g, p) {
      return IllegalMove;
    }
    var a, _ := AnalyzeRootCandidates(g, board, depth, clock, deadline);
    if a.AnalysisTimedOut? {
      return ComparisonTimedOut;
    }
    var white := White(g, p);
    var ranked := RankRootCandidates(white, a.candidates);
    var found := ByMove(a.candidates, played);
    FullPassParts(g, p, played, a.candidates);
    var best, mine := ranked[0], found.value;
    var second := if |ranked| > 1 then Some(ranked[1]) else None;
    var gap := if second.None? then None
               else if best.score == second.value.score then Some(0)
               else Some(Clamped(Difference(white, best.score, second.value.score)));
    r := Compared(best, mine, Clamped(Difference(white, best.score, mine.score)), |a.candidates|, second, gap);
    if Coherent(g, p, depth) {
      PassCompared(g, p, depth, played, a.candidates, r);
    }
  }

  /** What is built from a complete pass that way is an exact comparison. */
  lemma PassCompared(g: Game, p: Position, depth: nat, m: Move, cs: seq<Candidate>, r: Comparison)
    requires StuckIsOver(g) && depth >= 1 && m in Legal(g, p)
    requires CompletePass(g, p, depth, cs) && |cs| == |Legal(g, p)| && (NoRepeats(Legal(g, p)) ==> OncePerMove(cs))
    requires r.Compared? && r.best.score.Fin? && r.played.score.Fin? && r.count == |cs|
    requires var ranked, mine := RankRootCandidates(White(g, p), cs), ByMove(cs, m);
      && |ranked| == |cs| > 0 && r.best == ranked[0] && mine == Some(r.played)
      && r.second == if |ranked| > 1 then Some(ranked[1]) else None
    requires r.loss == Clamped(Difference(White(g, p), r.best.score, r.played.score))
    requires r.second.None? ==> r.gap.None?
    requires r.second.Some? ==> r.second.value.score.Fin? && r.gap == Some(Clamped(Difference(White(g, p), r.best.score, r.second.value.score)))
    ensures ComparisonExact(g, p, depth, m, r)
  {
    ComparisonParts(g, p, depth, m, cs);
    hide Evidence;
    hide CompletePass;
    hide Value;
    hide RootValue;
    hide Attains;
    hide OncePerMove;
    hide NoRepeats;
    hide RunnerUp;
    hide RankRootCandidates;
    hide ByMove;
    if |cs| > 1 && NoRepeats(Legal(g, p)) {
      SecondIsRunnerUp(g, p, depth, cs, Difference(White(g, p), r.best.score, r.second.value.score));
    }
    PlayedScore(g, p, depth, r.played);
  }

  /** Every candidate of a full pass can be ranked, found and subtracted. */
  lemma FullPassParts(g: Game, p: Position, m: Move, cs: seq<Candidate>)
    requires m in Legal(g, p) && FullPass(g, p, cs)
    ensures var ranked, mine := RankRootCandidates(White(g, p), cs), ByMove(cs, m);
      && ranked != [] && |ranked| == |cs| && ranked[0].score.Fin? && (|ranked| > 1 ==> ranked[1].score.Fin?)
      && mine.Some? && mine.value.score.Fin? && mine.value.move == m
    ensures NoRepeats(Legal(g, p)) ==> OncePerMove(cs)
  {
    var ranked := RankRootCandidates(White(g, p), cs);
    RankingSound(White(g, p), cs);
    var i :| 0 <= i < |cs| && cs[i].move == m;
    ByMoveFinds(cs, m, i);
    forall c | c in cs
      ensures c.score.Fin?
    {
      var j :| 0 <= j < |cs| && cs[j] == c;
    }
    assert ranked[0] in cs;
    if |ranked| > 1 {
      assert ranked[1] in cs;
    }
  }

  lemma PlayedScore(g: Game, p: Position, depth: nat, c: Candidate)
    requires Evidence(g, p, depth, c)
    ensures c.score == Value(g, Play(g, p, c.move), depth - 1, 1)
  {
  }

  /** Everything the comparison needs from a complete pass. */
  lemma ComparisonParts(g: Game, p: Position, depth: nat, m: Move, cs: seq<Candidate>)
    requires StuckIsOver(g) && depth >= 1 && m in Legal(g, p)
    requires CompletePass(g, p, depth, cs)
    ensures var white, ranked, mine := White(g, p), RankRootCandidates(White(g, p), cs), ByMove(cs, m);
      && ranked != [] && |ranked| == |cs| && mine.Some?
      && Evidence(g, p, depth, ranked[0]) && ranked[0].score == RootValue(g, p, depth)
      && Evidence(g, p, depth, mine.value) && mine.value.move == m
      && Difference(white, ranked[0].score, mine.value.score) >= 0
      && (Difference(white, ranked[0].score, mine.value.score) == 0 <==> Attains(g, p, depth, 0, Some(m), RootValue(g, p, depth)))
      && (|ranked| > 1 ==> Evidence(g, p, depth, ranked[1]) && Difference(white, ranked[0].score, ranked[1].score) >= 0)
  {
    hide Value;
    hide RootValue;
    var white := White(g, p);
    var ranked := RankRootCandidates(white, cs);
    DriversAgree(g, p, depth, cs);
    RankingSound(white, cs);
    var i :| 0 <= i < |cs| && cs[i].move == m;
    ByMoveFinds(cs, m, i);
    forall c | c in cs
      ensures Evidence(g, p, depth, c)
    {
    }
    assert ranked[0] in cs;
    if |ranked| > 1 {
      assert ranked[1] in cs;
    }
  }

  /** Deepening comparison: the answer is that of the deepest completed pass, never
      a mixture of depths. */
  method CompareRootMoveIterative(g: Game, board: Board, played: Move, maxDepth: nat, budget: nat, clock: Clock) returns (r: Comparison, ghost completed: nat)
    requires StuckIsOver(g)
    requires board.Valid() && maxDepth >= 1
    modifies board, clock
    ensures board.stack == old(board.stack)
    ensures r.IllegalMove? <==> played !in Legal(g, old(board.Top()))
    ensures r.Compared? <==> completed >= 1
    ensures completed <= maxDepth
    ensures completed >= 1 && Coherent(g, old(board.Top()), maxDepth) ==> ComparisonExact(g, old(board.Top()), completed, played, r)
    ensures r.IllegalMove? || completed == maxDepth || clock.now >= old(clock.now) + budget
  {
    hide Coherent;
    hide ComparisonExact;
    var p := board.Top();
    completed := 0;
    if played !in Legal(g, p) {
      return IllegalMove, 0;
    }
    var deadline := clock.now + budget;
    r := ComparisonTimedOut;
    var depth := 1;
    while depth <= maxDepth
      invariant 1 <= depth <= maxDepth + 1 && completed == depth - 1
      invariant board.stack == old(board.stack)
      invariant clock.now >= old(clock.now)
      invariant !r.IllegalMove? && (r.Compared? <==> completed >= 1)
      invariant completed >= 1 && Coherent(g, p, maxDepth) ==> ComparisonExact(g, p, completed, played, r)
    {
      if Coherent(g, p, maxDepth) {
        CoherentShallower(g, p, depth, maxDepth);
      }
      var late := clock.Expired(deadline);
      if late {
        break;
      }
      var next := CompareRootMove(g, board, played, depth, clock, deadline);
      if next.ComparisonTimedOut? {
        break;
      }
      r, completed := next, depth;
      depth := depth + 1;
    }
  }

  datatype Snapshot = SnapshotTimedOut | Snapshot(candidates: seq<Candidate>, depth: nat, count: nat)

  /** The deepest complete ranked pass within the budget. */
  method AnalyzeRootIterative(g: Game, board: Board, maxDepth: nat, budget: nat, clock: Clock) returns (r: Snapshot)
    requires StuckIsOver(g)
    requires board.Valid() && maxDepth >= 1
    modifies board, clock
    ensures board.stack == old(board.stack)
    ensures r.Snapshot? ==>
      && 1 <= r.depth <= maxDepth && r.count == |r.candidates| == |Legal(g, old(board.Top()))|
      && (r.candidates == [] ==> r.depth == 1)
    ensures (r.Snapshot? && (r.depth == maxDepth || r.candidates == [])) || clock.now >= old(clock.now) + budget
    ensures r.Snapshot? && Coherent(g, old(board.Top()), maxDepth) ==>
      && CompletePass(g, old(board.Top()), r.depth, r.candidates)
      && (r.candidates != [] ==> r.candidates[0].score == RootValue(g, old(board.Top()), r.depth))
  {
    hide Coherent;
    hide FullPass;
    hide CompletePass;
    hide RootValue;
    var p := board.Top();
    var deadline := clock.now + budget;
    r := SnapshotTimedOut;
    var depth := 1;
    while depth <= maxDepth
      invariant 1 <= depth <= maxDepth + 1
      invariant board.stack == old(board.stack)
      invariant clock.now >= old(clock.now)
      invariant r.Snapshot? <==> depth > 1
      invariant r.Snapshot? ==>
        r.depth == depth - 1 >= 1 && r.count == |r.candidates| == |Legal(g, p)| > 0
      invariant r.Snapshot? && Coherent(g, p, maxDepth) ==>
        && CompletePass(g, p, r.depth, r.candidates)
        && r.candidates[0].score == RootValue(g, p, r.depth)
    {
      var late := clock.Expired(deadline);
      if late {
        break;
      }
      var a, _ := AnalyzeRootCandidates(g, board, depth, clock, deadline);
      if a.AnalysisTimedOut? {
        break;
      }
      var ranked := RankRootCandidates(White(g, p), a.candidates);
      RankingSound(White(g, p), a.candidates);
      r := Snapshot(ranked, depth, |ranked|);
      if Coherent(g, p, maxDepth) {
        CoherentShallower(g, p, depth, maxDepth);
        RankedPass(g, p, depth, a.candidates);
      }
      if ranked == [] {
        return;
      }
      if Coherent(g, p, maxDepth) {
        DriversAgree(g, p, depth, a.candidates);
      }
      depth := depth + 1;
    }
  }

  /** Ranking a complete pass leaves a complete pass. */
  lemma RankedPass(g: Game, p: Position, depth: nat, cs: seq<Candidate>)
    requires CompletePass(g, p, depth, cs)
    ensures CompletePass(g, p, depth, RankRootCandidates(White(g, p), cs))
    ensures |RankRootCandidates(White(g, p), cs)| == |cs|
  {
    hide Evidence;
    RankingSound(White(g, p), cs);
    var ranked := RankRootCandidates(White(g, p), cs);
    forall i | 0 <= i < |ranked|
      ensures Evidence(g, p, depth, ranked[i])
    {
      assert ranked[i] in cs;
    }
    forall m | m in Legal(g, p)
      ensures exists i :: 0 <= i < |ranked| && ranked[i].move == m
    {
      var i :| 0 <= i < |cs| && cs[i].move == m;
      assert cs[i] in ranked;
      var j :| 0 <= j < |ranked| && ranked[j] == cs[i];
    }
  }
}
