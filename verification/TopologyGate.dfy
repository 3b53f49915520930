/** The quality gate over a finished area, and why materialised areas pass it. */
module TopologyGate {
  import opened Options
  import opened Integers
  import opened GridGraph
  import opened Breadth
  import opened Articulation
  import opened CycleRank
  import opened Maze
  import opened LayoutGenerator
  import opened Materialize

  const MIN_EXIT_DISTANCE := 4

  datatype Reason =
    | InvalidGrid
    | InvalidPartyStart
    | DisconnectedCells
    | MissingExit
    | UnreachableExit
    | ExitTooClose
    | UnreachableAnchor
    | EnemyOverlapsParty
    | OpenRatioLow
    | DeadEndRatioHigh

  datatype Quality = Quality(reasons: seq<Reason>, corridorDominated: bool, walkable: nat, reachable: nat,
                             minExit: Option<int>, maxExit: Option<int>, deadEnds: nat, cuts: nat, rank: nat,
                             anchors: nat, unreachable: nat, overlaps: nat)

  function TileCells(grid: array2<char>, tile: char): (r: set<Point>)
    reads grid
    ensures forall p :: p in r <==> Inside(grid, p) && grid[p.y, p.x] == tile
  {
    set p | p in Box(grid.Length1, grid.Length0) && grid[p.y, p.x] == tile
  }

  function EntryCells(grid: array2<char>, e: Entry): set<Point>
    reads grid
  {
    match e
    case At(p) => {p}
    case OnTile(tile) => TileCells(grid, tile)
    case Nowhere => {}
  }

  function AllEntryCells(grid: array2<char>, es: seq<Entry>): set<Point>
    reads grid
  {
    if es == [] then {} else EntryCells(grid, es[0]) + AllEntryCells(grid, es[1..])
  }

  function EnemyCells(es: seq<Enemy>): set<Point> {
    if es == [] then {} else {es[0].at} + CellsOf(es[0].patrol) + CellsOf(es[0].positions) + EnemyCells(es[1..])
  }

  function EnemyStands(es: seq<Enemy>): set<Point> {
    set i: int | 0 <= i < |es| :: es[i].at
  }

  function CriticalAnchors(m: Manifest, grid: array2<char>): set<Point>
    reads grid
  {
    {m.start} + EnemyCells(m.enemies) + AllEntryCells(grid, m.content) + AllEntryCells(grid, m.exits)
  }

  /** What has to be reached: the start, wherever an enemy stands or walks, and the cells
      content and exits are pinned to or drawn on. */
  lemma CriticalAnchorIff(m: Manifest, grid: array2<char>, p: Point)
    ensures p in CriticalAnchors(m, grid) <==>
      || p == m.start
      || (exists i :: 0 <= i < |m.enemies| && (p == m.enemies[i].at || p in m.enemies[i].patrol || p in m.enemies[i].positions))
      || (exists i :: 0 <= i < |m.content| && Drawn(grid, m.content[i], p))
      || (exists i :: 0 <= i < |m.exits| && Drawn(grid, m.exits[i], p))
  {
    EnemyCellIff(m.enemies, p);
    EntryCellIff(grid, m.content, p);
    EntryCellIff(grid, m.exits, p);
  }

  /** An entry is on its pinned cell, or else wherever its tile is. */
  predicate Drawn(grid: array2<char>, e: Entry, p: Point)
    reads grid
  {
    e == At(p) || (Inside(grid, p) && e == OnTile(grid[p.y, p.x]))
  }

  lemma {:induction false} EnemyCellIff(es: seq<Enemy>, p: Point)
    ensures p in EnemyCells(es) <==> exists i :: 0 <= i < |es| && (p == es[i].at || p in es[i].patrol || p in es[i].positions)
  {
    if es != [] {
      var rest := es[1..];
      EnemyCellIff(rest, p);
      assert forall i :: 1 <= i < |es| ==> es[i] == rest[i - 1];
      assert forall i :: 0 <= i < |rest| ==> rest[i] == es[i + 1];
    }
  }

  lemma {:induction false} EntryCellIff(grid: array2<char>, es: seq<Entry>, p: Point)
    ensures p in AllEntryCells(grid, es) <==> exists i :: 0 <= i < |es| && Drawn(grid, es[i], p)
  {
    if es != [] {
      var rest := es[1..];
      EntryCellIff(grid, rest, p);
      assert forall i :: 1 <= i < |es| ==> es[i] == rest[i - 1];
      assert forall i :: 0 <= i < |rest| ==> rest[i] == es[i + 1];
    }
  }

  /** When each rejection is due, told by paths and shapes instead of by searching. */
  ghost predicate Due(m: Manifest, grid: array2<char>, r: Reason)
    reads grid
  {
    var open := OpenCells(grid);
    var exits := AllEntryCells(grid, m.exits);
    match r
    case InvalidGrid => grid.Length0 == 0 || grid.Length1 == 0
    case InvalidPartyStart => m.start !in open
    case DisconnectedCells => open != {} && (m.start !in open || !AllConnected(open))
    case MissingExit => exits == {}
    case UnreachableExit => exists e :: e in exits && !Connected(open, m.start, e)
    case ExitTooClose => exists e, path :: e in exits && PathFromTo(open, path, m.start, e) && |path| - 1 < MIN_EXIT_DISTANCE
    case UnreachableAnchor => exists a :: a in CriticalAnchors(m, grid) && !Connected(open, m.start, a)
    case EnemyOverlapsParty => m.start in EnemyStands(m.enemies)
    case OpenRatioLow => 4 * |open| < Greatest(1, (grid.Length1 - 2) * (grid.Length0 - 2))
    case DeadEndRatioHigh => 2 * |DeadEnds(open)| > Greatest(1, |open|)
  }

  /** The search covers everything exactly when the cells are connected. */
  lemma CoverageIsConnectivity(open: set<Point>, start: Point, d: map<Point, int>)
    requires ShortestFrom(open, start, d)
    ensures d.Keys <= open
    ensures |d| != |open| <==> open != {} && (start !in open || !AllConnected(open))
  {
    forall v | v in d
      ensures v in open && start in open
    {
      var path :| PathFromTo(open, path, start, v);
    }
    assert |d| == |d.Keys|;
    if d.Keys == open {
      if start in open {
        forall u | u in open
          ensures Connected(open, u, start)
        {
          ConnectedSym(open, start, u);
        }
        HubConnects(open, start);
      }
    } else {
      var v :| v in open && v !in d;
      ProperlySmaller(d.Keys, open, v);
    }
  }

  lemma ProperlySmaller(part: set<Point>, whole: set<Point>, v: Point)
    requires part <= whole && v in whole - part
    ensures |part| < |whole|
  {
    assert |whole - part| + |part| == |whole| && v in whole - part;
  }

  /** The least and greatest distance of the exits that were reached. */
  ghost predicate ExitSpan(exits: set<Point>, d: map<Point, int>, low: Option<int>, high: Option<int>) {
    && (low.None? <==> forall e :: e in exits ==> e !in d)
    && (high.None? <==> low.None?)
    && (low.Some? ==> (exists e :: e in exits && e in d && d[e] == low.value) && forall e :: e in exits && e in d ==> low.value <= d[e])
    && (high.Some? ==> (exists e :: e in exits && e in d && d[e] == high.value) && forall e :: e in exits && e in d ==> d[e] <= high.value)
  }

  method Extremes(exits: set<Point>, d: map<Point, int>) returns (low: Option<int>, high: Option<int>)
    ensures ExitSpan(exits, d, low, high)
  {
    low, high := None, None;
    var rest := exits;
    while rest != {}
      invariant rest <= exits
      invariant low.None? <==> forall e :: e in exits - rest ==> e !in d
      invariant high.None? <==> low.None?
      invariant low.Some? ==> (exists e :: e in exits && e in d && d[e] == low.value) && forall e :: e in exits - rest && e in d ==> low.value <= d[e]
      invariant high.Some? ==> (exists e :: e in exits && e in d && d[e] == high.value) && forall e :: e in exits - rest && e in d ==> d[e] <= high.value
    {
      var e :| e in rest;
      if e in d {
        low := if low.None? || d[e] < low.value then Some(d[e]) else low;
        high := if high.None? || d[e] > high.value then Some(d[e]) else high;
      }
      rest := rest - {e};
    }
  }

  /** An exit is close when some path to it is short. */
  lemma CloseIsShortPath(open: set<Point>, start: Point, d: map<Point, int>, exits: set<Point>, low: Option<int>, high: Option<int>)
    requires ShortestFrom(open, start, d) && ExitSpan(exits, d, low, high)
    ensures low.Some? && low.value < MIN_EXIT_DISTANCE <==>
      exists e, path :: e in exits && PathFromTo(open, path, start, e) && |path| - 1 < MIN_EXIT_DISTANCE
  {
    if e, path :| e in exits && PathFromTo(open, path, start, e) && |path| - 1 < MIN_EXIT_DISTANCE {
      assert Connected(open, start, e);
      assert e in d && d[e] <= |path| - 1;
    }
    if low.Some? && low.value < MIN_EXIT_DISTANCE {
      var e :| e in exits && e in d && d[e] == low.value;
      assert HasPath(open, start, e, d[e]);
      var path :| PathFromTo(open, path, start, e) && |path| == d[e] + 1;
    }
  }

  lemma MissedIsUnconnected(open: set<Point>, start: Point, d: map<Point, int>, cells: set<Point>)
    requires ShortestFrom(open, start, d)
    ensures (set p | p in cells && p !in d) != {} <==> exists e :: e in cells && !Connected(open, start, e)
  {
    var missed := set p | p in cells && p !in d;
    if e :| e in cells && !Connected(open, start, e) {
      assert e in missed;
    }
    if missed != {} {
      var e :| e in missed;
      assert !Connected(open, start, e);
    }
  }

  function Also(s: seq<Reason>, due: bool, r: Reason): (t: seq<Reason>)
    ensures forall q :: q in t <==> q in s || (due && q == r)
  {
    if due then s + [r] else s
  }

  /** The reasons whose checks came out true, in the order the checks are made. */
  function Listed(badStart: bool, disconnected: bool, noExit: bool, exitMissed: bool, exitClose: bool, anchorMissed: bool,
                  overlap: bool, closed: bool, dead: bool): (s: seq<Reason>)
    ensures InvalidGrid !in s
    ensures InvalidPartyStart in s <==> badStart
    ensures DisconnectedCells in s <==> disconnected
    ensures MissingExit in s <==> noExit
    ensures UnreachableExit in s <==> exitMissed
    ensures Reason.ExitTooClose in s <==> exitClose
    ensures UnreachableAnchor in s <==> anchorMissed
    ensures EnemyOverlapsParty in s <==> overlap
    ensures OpenRatioLow in s <==> closed
    ensures DeadEndRatioHigh in s <==> dead
  {
    hide Also;
    var s := Also([], badStart, InvalidPartyStart);
    var s := Also(s, disconnected, DisconnectedCells);
    var s := Also(s, noExit, MissingExit);
    var s := Also(s, exitMissed, UnreachableExit);
    var s := Also(s, exitClose, Reason.ExitTooClose);
    var s := Also(s, anchorMissed, UnreachableAnchor);
    var s := Also(s, overlap, EnemyOverlapsParty);
    var s := Also(s, closed, OpenRatioLow);
    Also(s, dead, DeadEndRatioHigh)
  }

  /** The figures an evaluation reports, each against its meaning. */
  ghost predicate Measured(m: Manifest, grid: array2<char>, q: Quality)
    reads grid
  {
    var open := OpenCells(grid);
    && q.walkable == |open|
    && q.cuts == |set x | x in open && IsArticulation(open, x)|
    && q.rank == Rank(open)
    && (AllConnected(open) && open != {} ==> (q.rank == 0 <==> Acyclic(open)))
    && q.reachable == |set p | p in open && Connected(open, m.start, p)|
    && q.unreachable == |set a | a in CriticalAnchors(m, grid) && !Connected(open, m.start, a)|
    && q.overlaps == |EnemyStands(m.enemies) * AllEntryCells(grid, m.exits)|
    && q.anchors == |CriticalAnchors(m, grid)|
    && q.deadEnds == |DeadEnds(open)|
    && (forall d :: ShortestFrom(open, m.start, d) ==> ExitSpan(AllEntryCells(grid, m.exits), d, q.minExit, q.maxExit))
    && (q.corridorDominated <==> q.rank == 0 && 100 * q.cuts > 82 * Greatest(1, |open|)
                                 && 4 * |set p | p in open && Degree(p, open) == 2| > 3 * Greatest(1, |open|))
  }

  ghost predicate ExactlyDue(m: Manifest, grid: array2<char>, reasons: seq<Reason>)
    reads grid
  {
    forall r :: r in reasons <==> Due(m, grid, r)
  }

  /** What the search decides is what the paths say. */
  lemma SearchDecides(m: Manifest, grid: array2<char>, d: map<Point, int>, low: Option<int>, high: Option<int>)
    requires ShortestFrom(OpenCells(grid), m.start, d) && grid.Length0 != 0 && grid.Length1 != 0
    requires ExitSpan(AllEntryCells(grid, m.exits), d, low, high)
    ensures d.Keys <= OpenCells(grid)
    ensures !Due(m, grid, InvalidGrid)
    ensures Due(m, grid, InvalidPartyStart) <==> m.start !in OpenCells(grid)
    ensures Due(m, grid, DisconnectedCells) <==> |d| != |OpenCells(grid)|
    ensures Due(m, grid, MissingExit) <==> AllEntryCells(grid, m.exits) == {}
    ensures Due(m, grid, UnreachableExit) <==> (set p | p in AllEntryCells(grid, m.exits) && p !in d) != {}
    ensures Due(m, grid, Reason.ExitTooClose) <==> low.Some? && low.value < MIN_EXIT_DISTANCE
    ensures Due(m, grid, UnreachableAnchor) <==> (set p | p in CriticalAnchors(m, grid) && p !in d) != {}
    ensures Due(m, grid, EnemyOverlapsParty) <==> m.start in EnemyStands(m.enemies)
    ensures Due(m, grid, OpenRatioLow) <==> 4 * |OpenCells(grid)| < Greatest(1, (grid.Length1 - 2) * (grid.Length0 - 2))
    ensures Due(m, grid, DeadEndRatioHigh) <==> 2 * |DeadEnds(OpenCells(grid))| > Greatest(1, |OpenCells(grid)|)
  {
    hide Adjacent;
    hide AllConnected;
    hide Connected;
    hide ShortestFrom;
    hide OpenCells;
    hide DeadEnds;
    hide CriticalAnchors;
    hide AllEntryCells;
    hide EnemyStands;
    CoverageIsConnectivity(OpenCells(grid), m.start, d);
    CloseIsShortPath(OpenCells(grid), m.start, d, AllEntryCells(grid, m.exits), low, high);
    MissedIsUnconnected(OpenCells(grid), m.start, d, AllEntryCells(grid, m.exits));
    MissedIsUnconnected(OpenCells(grid), m.start, d, CriticalAnchors(m, grid));
  }

  lemma ReasonsDue(m: Manifest, grid: array2<char>, reasons: seq<Reason>)
    requires InvalidGrid in reasons <==> Due(m, grid, InvalidGrid)
    requires InvalidPartyStart in reasons <==> Due(m, grid, InvalidPartyStart)
    requires DisconnectedCells in reasons <==> Due(m, grid, DisconnectedCells)
    requires MissingExit in reasons <==> Due(m, grid, MissingExit)
    requires UnreachableExit in reasons <==> Due(m, grid, UnreachableExit)
    requires Reason.ExitTooClose in reasons <==> Due(m, grid, Reason.ExitTooClose)
    requires UnreachableAnchor in reasons <==> Due(m, grid, UnreachableAnchor)
    requires EnemyOverlapsParty in reasons <==> Due(m, grid, EnemyOverlapsParty)
    requires OpenRatioLow in reasons <==> Due(m, grid, OpenRatioLow)
    requires DeadEndRatioHigh in reasons <==> Due(m, grid, DeadEndRatioHigh)
    ensures ExactlyDue(m, grid, reasons)
  {
    hide Due;
    forall r
      ensures r in reasons <==> Due(m, grid, r)
    {
      match r {
        case InvalidGrid =>
        case InvalidPartyStart =>
        case DisconnectedCells =>
        case MissingExit =>
        case UnreachableExit =>
        case ExitTooClose =>
        case UnreachableAnchor =>
        case EnemyOverlapsParty =>
        case OpenRatioLow =>
        case DeadEndRatioHigh =>
      }
    }
  }

  /** Lists the reasons to reject, given the search from the start. */
  method Judge(m: Manifest, grid: array2<char>, d: map<Point, int>, low: Option<int>, ghost high: Option<int>) returns (reasons: seq<Reason>)
    requires ShortestFrom(OpenCells(grid), m.start, d) && grid.Length0 != 0 && grid.Length1 != 0
    requires ExitSpan(AllEntryCells(grid, m.exits), d, low, high)
    ensures ExactlyDue(m, grid, reasons) && d.Keys <= OpenCells(grid)
  {
    hide Connected;
    hide ShortestFrom;
    hide OpenCells;
    hide DeadEnds;
    hide CriticalAnchors;
    hide AllEntryCells;
    hide EnemyStands;
    hide Due;
    hide ExactlyDue;
    hide Degree;
    hide Listed;
    var open := OpenCells(grid);
    var exits := AllEntryCells(grid, m.exits);
    var deadEnds := DeadEnds(open);
    var missedExits := set p | p in exits && p !in d;
    var missedAnchors := set p | p in CriticalAnchors(m, grid) && p !in d;
    SearchDecides(m, grid, d, low, high);
    reasons := Listed(
      m.start !in open,
      |d| != |open|,
      exits == {},
      exits != {} && missedExits != {},
      low.Some? && low.value < MIN_EXIT_DISTANCE,
      missedAnchors != {},
      m.start in EnemyStands(m.enemies),
      4 * |open| < Greatest(1, (grid.Length1 - 2) * (grid.Length0 - 2)),
      2 * |deadEnds| > Greatest(1, |open|));
    ReasonsDue(m, grid, reasons);
  }

  /** Evaluates an area: reports exactly the reasons that are due. */
  method Evaluate(m: Manifest, grid: array2<char>) returns (q: Quality)
    ensures grid.Length0 == 0 || grid.Length1 == 0 ==> q.reasons == [InvalidGrid]
    ensures grid.Length0 != 0 && grid.Length1 != 0 ==> ExactlyDue(m, grid, q.reasons)
    ensures grid.Length0 != 0 && grid.Length1 != 0 ==> Measured(m, grid, q)
  {
    hide Adjacent;
    hide AllConnected;
    hide Connected;
    hide IsArticulation;
    hide ShortestFrom;
    hide Acyclic;
    hide Rank;
    hide EdgeCount;
    hide OpenCells;
    hide DeadEnds;
    hide CriticalAnchors;
    hide AllEntryCells;
    hide EnemyStands;
    hide Due;
    hide ExactlyDue;
    hide Measured;
    hide DegreeSum;
    hide Degree;
    hide ExitSpan;
    if grid.Length0 == 0 || grid.Length1 == 0 {
      return Quality([InvalidGrid], false, 0, 0, None, None, 0, 0, 0, 0, 0, 0);
    }
    var open := OpenCells(grid);
    var d := Distances(open, m.start);
    var exits := AllEntryCells(grid, m.exits);
    var anchors := CriticalAnchors(m, grid);
    var low, high := Extremes(exits, d);
    var stands := EnemyStands(m.enemies);
    var missed := set p | p in anchors && p !in d;
    var reasons := Judge(m, grid, d, low, high);
    var cuts := ArticulationPoints(open);
    var rank := Rank(open);
    var corridors := set p | p in open && Degree(p, open) == 2;
    var dominated := rank == 0 && 100 * |cuts| > 82 * Greatest(1, |open|) && 4 * |corridors| > 3 * Greatest(1, |open|);
    q := Quality(reasons, dominated, |open|, |d|, low, high, |DeadEnds(open)|, |cuts|, rank, |anchors|, |missed|, |stands * exits|);
    FiguresMeasured(m, grid, q, open, d, cuts, missed);
  }

  /** The search's sets are sets told by paths, and it is the only search there is. */
  lemma SearchSets(open: set<Point>, start: Point, d: map<Point, int>, anchors: set<Point>)
    requires ShortestFrom(open, start, d) && d.Keys <= open
    ensures |d| == |set p | p in open && Connected(open, start, p)|
    ensures (set a | a in anchors && a !in d) == set a | a in anchors && !Connected(open, start, a)
    ensures forall e :: ShortestFrom(open, start, e) ==> e == d
  {
    hide Connected;
    forall e | ShortestFrom(open, start, e)
      ensures e == d
    {
      DistancesUnique(open, start, d, e);
    }
    assert d.Keys == set p | p in open && Connected(open, start, p);
    assert |d| == |d.Keys|;
  }

  lemma FiguresMeasured(m: Manifest, grid: array2<char>, q: Quality, open: set<Point>, d: map<Point, int>, cuts: set<Point>, missed: set<Point>)
    requires open == OpenCells(grid) && ShortestFrom(open, m.start, d) && d.Keys <= open
    requires forall x :: x in cuts <==> IsArticulation(open, x)
    requires missed == set a | a in CriticalAnchors(m, grid) && a !in d
    requires q.walkable == |open| && q.cuts == |cuts| && q.rank == Rank(open) && q.reachable == |d| && q.unreachable == |missed|
    requires q.overlaps == |EnemyStands(m.enemies) * AllEntryCells(grid, m.exits)|
    requires ExitSpan(AllEntryCells(grid, m.exits), d, q.minExit, q.maxExit)
    requires q.anchors == |CriticalAnchors(m, grid)| && q.deadEnds == |DeadEnds(open)|
    requires q.corridorDominated <==> q.rank == 0 && 100 * q.cuts > 82 * Greatest(1, |open|)
                                      && 4 * |set p | p in open && Degree(p, open) == 2| > 3 * Greatest(1, |open|)
    ensures Measured(m, grid, q)
  {
    hide Adjacent;
    hide AllConnected;
    hide Connected;
    hide Acyclic;
    hide Rank;
    hide CriticalAnchors;
    hide AllEntryCells;
    hide EnemyStands;
    hide ShortestFrom;
    hide OpenCells;
    hide DeadEnds;
    hide IsArticulation;
    hide ExitSpan;
    hide Degree;
    SearchSets(open, m.start, d, CriticalAnchors(m, grid));
    OnlyOpen(open);
    assert cuts == set x | x in open && IsArticulation(open, x);
    if AllConnected(open) && open != {} {
      RankZeroIffAcyclic(open);
    }
  }

  /** No content is drawn on wall tiles. */
  predicate TilesOpen(es: seq<Entry>) {
    forall i :: 0 <= i < |es| && es[i].OnTile? ==> es[i].tile != '#'
  }

  lemma {:induction false} EntriesOpen(grid: array2<char>, es: seq<Entry>)
    requires TilesOpen(es) && EntryAnchors(es) <= OpenCells(grid)
    ensures AllEntryCells(grid, es) <= OpenCells(grid)
  {
    if es != [] {
      assert forall i :: 0 <= i < |es| - 1 ==> es[1..][i] == es[i + 1];
      EntriesOpen(grid, es[1..]);
    }
  }

  lemma {:induction false} EnemyAnchored(es: seq<Enemy>, version: nat, i: nat)
    requires i < |es| && !Relocatable(es[i], version)
    ensures {es[i].at} + CellsOf(es[i].patrol) + CellsOf(es[i].positions) <= EnemyAnchors(es, version)
  {
    if i > 0 {
      EnemyAnchored(es[1..], version, i - 1);
    }
  }

  lemma {:induction false} EnemyCellsIn(es: seq<Enemy>, cells: set<Point>)
    requires forall i :: 0 <= i < |es| ==> {es[i].at} + CellsOf(es[i].patrol) + CellsOf(es[i].positions) <= cells
    ensures EnemyCells(es) <= cells
  {
    if es != [] {
      assert forall i :: 0 <= i < |es| - 1 ==> es[1..][i] == es[i + 1];
      EnemyCellsIn(es[1..], cells);
    }
  }

  /** Wherever an enemy of the placed manifest may stand or walk is open. */
  lemma PlacedEnemiesOpen(before: seq<Enemy>, after: seq<Enemy>, version: nat, order: seq<nat>, free: set<Point>, open: set<Point>)
    requires PlacementOrder(before, version, order) && WellPlaced(before, after, order, free)
    requires free <= open && EnemyAnchors(before, version) <= open
    ensures EnemyCells(after) <= open
  {
    forall i | 0 <= i < |after|
      ensures {after[i].at} + CellsOf(after[i].patrol) + CellsOf(after[i].positions) <= open
    {
      if Relocatable(before[i], version) {
        var k :| 0 <= k < |order| && order[k] == i;
        assert after[order[k]].at in free;
        assert after[i].patrol == [] && after[i].positions == [];
      } else {
        EnemyAnchored(before, version, i);
        assert i !in order;
      }
    }
    EnemyCellsIn(after, open);
  }

  /** The rooms alone fill a quarter of the interior. */
  lemma RoomsAreAQuarter(width: int, height: int, open: set<Point>)
    requires width >= 3 && height >= 3 && Nodes(width, height) <= open
    ensures 4 * |open| >= Greatest(1, (width - 2) * (height - 2))
  {
    RoomCount(width, height);
    SubsetSize(Nodes(width, height), open);
    var c, r := (width - 1) / 2, (height - 1) / 2;
    assert width - 2 <= 2 * c && height - 2 <= 2 * r;
    MulMonotone(width - 2, 2 * c, height - 2, 2 * r);
    assert (2 * c) * (2 * r) == 4 * (c * r);
    MulMonotone(1, c, 1, r);
  }

  /** Materialised areas always pass the connectivity part of the gate: whatever the
      authored anchors, with no content on wall tiles. */
  lemma ConnectivityPasses(m: Manifest, version: nat, order: seq<nat>, base: array2<char>, grid: array2<char>, r: Materialized, d: map<Point, int>)
    requires r.Area? && PlacementOrder(m.enemies, version, order) && GoodArea(m, version, order, base, grid, r, d)
    requires TilesOpen(m.content) && TilesOpen(m.exits)
    ensures !Due(r.manifest, grid, InvalidGrid)
    ensures !Due(r.manifest, grid, InvalidPartyStart)
    ensures !Due(r.manifest, grid, DisconnectedCells)
    ensures !Due(r.manifest, grid, UnreachableAnchor)
    ensures !Due(r.manifest, grid, UnreachableExit)
    ensures !Due(r.manifest, grid, OpenRatioLow)
  {
    hide OpenCells;
    hide Adjacent;
    hide Connected;
    hide ShortestFrom;
    hide WellPlaced;
    hide PlacementOrder;
    hide SoleExit;
    var open := OpenCells(grid);
    var anchors := AnchorsOf(m, base, version);
    assert m.start in anchors;
    PlacedEnemiesOpen(m.enemies, r.manifest.enemies, version, order, FreeCells(grid, anchors), open);
    EntriesOpen(grid, m.content);
    EntriesOpen(grid, m.exits);
    RoomsAreAQuarter(grid.Length1, grid.Length0, open);
    assert CriticalAnchors(r.manifest, grid) <= open;
    assert AllEntryCells(grid, r.manifest.exits) <= open;
  }

  /** With seeded exits, and every exit drawn on the exit tile, the exit checks pass too. */
  lemma SeededExitPasses(m: Manifest, version: nat, order: seq<nat>, base: array2<char>, grid: array2<char>, r: Materialized, d: map<Point, int>)
    requires r.Area? && PlacementOrder(m.enemies, version, order) && GoodArea(m, version, order, base, grid, r, d)
    requires version >= EXIT_PLACEMENT_VERSION && m.exits != [] && forall i :: 0 <= i < |m.exits| ==> m.exits[i] == OnTile('X')
    ensures AllEntryCells(grid, r.manifest.exits) == {r.exit.p}
    ensures !Due(r.manifest, grid, MissingExit)
    ensures !Due(r.manifest, grid, Reason.ExitTooClose)
  {
    hide OpenCells;
    hide Adjacent;
    hide Connected;
    hide WellPlaced;
    hide PlacementOrder;
    assert TileCells(grid, 'X') == {r.exit.p};
    SameTile(grid, m.exits);
    forall e, path | e in {r.exit.p} && PathFromTo(OpenCells(grid), path, m.start, e)
      ensures |path| - 1 >= MIN_EXIT_DISTANCE
    {
      assert d[e] <= |path| - 1;
    }
  }

  lemma {:induction false} SameTile(grid: array2<char>, es: seq<Entry>)
    requires es != [] && forall i :: 0 <= i < |es| ==> es[i] == OnTile('X')
    ensures AllEntryCells(grid, es) == TileCells(grid, 'X')
  {
    if |es| > 1 {
      SameTile(grid, es[1..]);
    } else {
      assert AllEntryCells(grid, es[1..]) == {};
    }
  }

  /** Only an authored enemy can stand on the party's start. */
  lemma OnlyFixedEnemiesOverlap(m: Manifest, version: nat, order: seq<nat>, base: array2<char>, grid: array2<char>, r: Materialized, d: map<Point, int>)
    requires r.Area? && PlacementOrder(m.enemies, version, order) && GoodArea(m, version, order, base, grid, r, d)
    ensures Due(r.manifest, grid, EnemyOverlapsParty) <==>
      exists i :: 0 <= i < |m.enemies| && !Relocatable(m.enemies[i], version) && m.enemies[i].at == m.start
  {
    hide OpenCells;
    hide Adjacent;
    hide AllConnected;
    hide ShortestFrom;
    hide SoleExit;
    hide CellsOf;
    var anchors := AnchorsOf(m, base, version);
    var after := r.manifest.enemies;
    assert m.start in anchors;
    forall i | 0 <= i < |m.enemies|
      ensures after[i].at == m.start <==> !Relocatable(m.enemies[i], version) && m.enemies[i].at == m.start
    {
      if Relocatable(m.enemies[i], version) {
        var k :| 0 <= k < |order| && order[k] == i;
        assert after[order[k]].at in FreeCells(grid, anchors);
      } else {
        assert i !in order;
      }
    }
  }

  /** Altogether: such an area is accepted unless an authored enemy stands on the start
      or more than half its cells are dead ends. */
  lemma MaterializedAccepted(m: Manifest, version: nat, order: seq<nat>, base: array2<char>, grid: array2<char>, r: Materialized, d: map<Point, int>)
    requires r.Area? && PlacementOrder(m.enemies, version, order) && GoodArea(m, version, order, base, grid, r, d)
    requires TilesOpen(m.content)
    requires version >= EXIT_PLACEMENT_VERSION && m.exits != [] && forall i :: 0 <= i < |m.exits| ==> m.exits[i] == OnTile('X')
    ensures (forall why :: !Due(r.manifest, grid, why)) <==>
      && (forall i :: 0 <= i < |m.enemies| && !Relocatable(m.enemies[i], version) ==> m.enemies[i].at != m.start)
      && 2 * |DeadEnds(OpenCells(grid))| <= |OpenCells(grid)|
  {
    hide Due;
    hide GoodArea;
    hide PlacementOrder;
    hide OpenCells;
    hide DeadEnds;
    ConnectivityPasses(m, version, order, base, grid, r, d);
    SeededExitPasses(m, version, order, base, grid, r, d);
    OnlyFixedEnemiesOverlap(m, version, order, base, grid, r, d);
    StartMakesOne(m, version, order, base, grid, r, d);
    DeadEndsDue(r.manifest, grid);
    if !Due(r.manifest, grid, EnemyOverlapsParty) && !Due(r.manifest, grid, DeadEndRatioHigh) {
      ReasonsDue(r.manifest, grid, []);
    }
  }

  lemma StartMakesOne(m: Manifest, version: nat, order: seq<nat>, base: array2<char>, grid: array2<char>, r: Materialized, d: map<Point, int>)
    requires r.Area? && PlacementOrder(m.enemies, version, order) && GoodArea(m, version, order, base, grid, r, d)
    ensures |OpenCells(grid)| >= 1
  {
    assert m.start in AnchorsOf(m, base, version);
    assert m.start in OpenCells(grid);
  }

  lemma DeadEndsDue(m: Manifest, grid: array2<char>)
    ensures Due(m, grid, DeadEndRatioHigh) <==> 2 * |DeadEnds(OpenCells(grid))| > Greatest(1, |OpenCells(grid)|)
  {
  }
}
