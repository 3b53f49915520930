/** Overlaying a generated layout on an authored manifest: anchors are connected,
    markers restored, the exit and the optional enemies placed. */
module Materialize {
  import opened GridGraph
  import opened Breadth
  import opened Maze
  import opened MapCode
  import opened DeadEndBound
  import opened LayoutGenerator

  const ENEMY_PLACEMENT_VERSION := 1
  const EXIT_PLACEMENT_VERSION := 2

  datatype Enemy = Enemy(at: Point, patrol: seq<Point>, positions: seq<Point>, holds: bool, keyed: bool, variable: bool)

  /** A piece of content is pinned to a cell, drawn wherever its tile appears, or neither. */
  datatype Entry = At(p: Point) | OnTile(tile: char) | Nowhere

  datatype Manifest = Manifest(start: Point, enemies: seq<Enemy>, content: seq<Entry>, exits: seq<Entry>)

  predicate Relocatable(e: Enemy, version: nat) {
    version >= ENEMY_PLACEMENT_VERSION && e.holds && e.patrol == [] && e.positions == [] && !e.keyed && e.variable
  }

  function EnemyAnchors(es: seq<Enemy>, version: nat): set<Point> {
    if es == [] then {}
    else (if Relocatable(es[0], version) then {} else {es[0].at} + CellsOf(es[0].patrol) + CellsOf(es[0].positions))
         + EnemyAnchors(es[1..], version)
  }

  function EntryAnchors(es: seq<Entry>): set<Point> {
    if es == [] then {}
    else (if es[0].At? then {es[0].p} else {}) + EntryAnchors(es[1..])
  }

  /** The marked cells of a grid; the exit marker is dropped once exits are seeded. */
  function Markers(grid: array2<char>, includeExit: bool): (m: map<Point, char>)
    reads grid
    ensures forall p :: p in m <==> Inside(grid, p) && grid[p.y, p.x] != '#' && grid[p.y, p.x] != '.' && (includeExit || grid[p.y, p.x] != 'X')
    ensures forall p :: p in m ==> Inside(grid, p) && m[p] == grid[p.y, p.x]
  {
    map p | p in Box(grid.Length1, grid.Length0) && grid[p.y, p.x] != '#' && grid[p.y, p.x] != '.' && (includeExit || grid[p.y, p.x] != 'X') :: grid[p.y, p.x]
  }

  function Anchors(m: Manifest, markers: set<Point>, version: nat): set<Point> {
    {m.start} + EnemyAnchors(m.enemies, version) + EntryAnchors(m.content) + EntryAnchors(m.exits) + markers
  }

  /** The least cell by a key, ties broken by row and then by column. */
  method PickLeast(s: set<Point>, key: Point -> int) returns (p: Point)
    requires s != {}
    ensures p in s
    ensures forall q :: q in s ==> key(p) < key(q) || (key(p) == key(q) && RowLe(p, q))
  {
    p :| p in s;
    var rest := s - {p};
    while rest != {}
      invariant rest <= s && p in s
      invariant forall q :: q in s && q !in rest ==> key(p) < key(q) || (key(p) == key(q) && RowLe(p, q))
    {
      var q :| q in rest;
      if key(q) < key(p) || (key(q) == key(p) && RowLe(q, p)) {
        p := q;
      }
      rest := rest - {q};
    }
  }

  lemma UnionConnected(a: set<Point>, b: set<Point>, shared: Point)
    requires AllConnected(a) && AllConnected(b) && shared in a && shared in b
    ensures AllConnected(a + b)
  {
    forall u | u in a + b
      ensures Connected(a + b, u, shared)
    {
      if u in a {
        assert Connected(a, u, shared);
        ConnectedMore(a, a + b, u, shared);
      } else {
        assert Connected(b, u, shared);
        ConnectedMore(b, a + b, u, shared);
      }
    }
    HubConnects(a + b, shared);
  }

  /** One straight leg of the carve, from `from` along one axis to the target's
      coordinate. `trail` collects the cells dug for this anchor. */
  method CarveLeg(grid: array2<char>, from: Point, target: Point, alongX: bool, ghost base: set<Point>, trailIn: set<Point>)
    returns (p: Point, trail: set<Point>)
    requires Inside(grid, from) && Inside(grid, target)
    requires OpenCells(grid) == base + trailIn && AllConnected(trailIn) && from in trailIn
    requires FloorAndWall(grid)
    modifies grid
    ensures FloorAndWall(grid)
    ensures p == if alongX then Point(target.x, from.y) else Point(from.x, target.y)
    ensures OpenCells(grid) == base + trail && AllConnected(trail) && p in trail && trailIn <= trail
    ensures |trail| <= |trailIn| + if alongX then Span(from.x, target.x) else Span(from.y, target.y)
  {
    hide Adjacent;
    hide AllConnected;
    hide OpenCells;
    hide FloorAndWall;
    p, trail := from, trailIn;
    while (alongX && p.x != target.x) || (!alongX && p.y != target.y)
      invariant Inside(grid, p) && FloorAndWall(grid)
      invariant if alongX then p.y == from.y else p.x == from.x
      invariant OpenCells(grid) == base + trail && AllConnected(trail) && p in trail && trailIn <= trail
      invariant if alongX then |trail| + Span(p.x, target.x) <= |trailIn| + Span(from.x, target.x)
                else |trail| + Span(p.y, target.y) <= |trailIn| + Span(from.y, target.y)
      decreases if alongX then Span(p.x, target.x) else Span(p.y, target.y)
    {
      var next := if alongX then Point(if target.x > p.x then p.x + 1 else p.x - 1, p.y)
                  else Point(p.x, if target.y > p.y then p.y + 1 else p.y - 1);
      OneStep(p, next);
      GrowConnected(trail, next, p);
      Dig(grid, next);
      trail := trail + {next};
      p := next;
    }
  }

  lemma OneStep(p: Point, q: Point)
    requires (p.y == q.y && (q.x == p.x + 1 || q.x == p.x - 1)) || (p.x == q.x && (q.y == p.y + 1 || q.y == p.y - 1))
    ensures Adjacent(q, p)
  {
  }

  /** Connects one anchor to the nearest open cell by an L-shaped corridor, digging no more
      than there are steps to any open cell. */
  method ConnectAnchor(grid: array2<char>, open: set<Point>, anchor: Point, horizontalFirst: bool) returns (wider: set<Point>)
    requires Inside(grid, anchor)
    requires open == OpenCells(grid) && open != {} && AllConnected(open) && FloorAndWall(grid)
    modifies grid
    ensures wider == OpenCells(grid) && FloorAndWall(grid)
    ensures open <= wider && anchor in wider && AllConnected(wider)
    ensures anchor in open ==> wider == open
    ensures forall q :: q in open ==> |wider| <= |open| + Span(q.x, anchor.x) + Span(q.y, anchor.y)
  {
    hide Adjacent;
    hide AllConnected;
    hide OpenCells;
    hide FloorAndWall;
    if anchor in open {
      return open;
    }
    var target := PickLeast(open, (p: Point) => Span(p.x, anchor.x) + Span(p.y, anchor.y));
    Dig(grid, anchor);
    var trail := {anchor};
    SingleConnected(anchor);
    var p, t := CarveLeg(grid, anchor, target, horizontalFirst, open, trail);
    p, t := CarveLeg(grid, p, target, !horizontalFirst, open, t);
    UnionConnected(open, t, target);
    wider := open + t;
    OverlapOnce(open, t, target);
  }

  lemma OverlapOnce(a: set<Point>, b: set<Point>, shared: Point)
    requires shared in a && shared in b
    ensures |a + b| <= |a| + |b| - 1
  {
    assert a + b == a + (b - {shared});
  }

  lemma SingleConnected(p: Point)
    ensures AllConnected({p})
  {
    ConnectedSelf({p}, p);
  }

  /** A fresh copy of a layout with its start and exit marks turned back into floor. */
  method Unmarked(layout: array2<char>) returns (grid: array2<char>)
    requires forall p :: p in OpenCells(layout) ==> layout[p.y, p.x] == 'P' || layout[p.y, p.x] == 'X' || layout[p.y, p.x] == '.'
    ensures fresh(grid) && grid.Length0 == layout.Length0 && grid.Length1 == layout.Length1
    ensures OpenCells(grid) == OpenCells(layout) && FloorAndWall(grid)
  {
    grid := new char[layout.Length0, layout.Length1]((y, x) reads layout requires 0 <= y < layout.Length0 && 0 <= x < layout.Length1 =>
      if layout[y, x] == 'P' || layout[y, x] == 'X' then '.' else layout[y, x]);
    forall y, x | 0 <= y < grid.Length0 && 0 <= x < grid.Length1
      ensures grid[y, x] == '#' || grid[y, x] == '.'
    {
      assert Point(x, y) in OpenCells(layout) || layout[y, x] == '#';
    }
  }

  /** Connects every anchor, in row-major order. */
  method ConnectAnchors(grid: array2<char>, anchors: set<Point>, horizontalFirst: Point -> bool)
    requires forall a :: a in anchors ==> Inside(grid, a)
    requires OpenCells(grid) != {} && AllConnected(OpenCells(grid)) && FloorAndWall(grid)
    modifies grid
    ensures AllConnected(OpenCells(grid)) && FloorAndWall(grid)
    ensures old(OpenCells(grid)) <= OpenCells(grid) && anchors <= OpenCells(grid)
  {
    hide AllConnected;
    hide OpenCells;
    hide FloorAndWall;
    var open := OpenCells(grid);
    var order := RowMajor(anchors);
    for i := 0 to |order|
      invariant open == OpenCells(grid) && open != {} && AllConnected(open) && FloorAndWall(grid)
      invariant old(OpenCells(grid)) <= open
      invariant forall j :: 0 <= j < i ==> order[j] in open
    {
      assert order[i] in order;
      open := ConnectAnchor(grid, open, order[i], horizontalFirst(order[i]));
    }
    forall a | a in anchors
      ensures a in OpenCells(grid)
    {
      assert a in order;
    }
  }

  /** Marks on the grid: the base markers, then the start. */
  ghost predicate Painted(grid: array2<char>, markers: map<Point, char>, start: Point)
    reads grid
  {
    forall p :: Inside(grid, p) ==>
      grid[p.y, p.x] == (if p == start then 'P' else if p in markers then markers[p] else grid[p.y, p.x])
      && (p != start && p !in markers ==> grid[p.y, p.x] == '#' || grid[p.y, p.x] == '.')
  }

  /** Writes a mark that is not wall on an open cell. */
  method Mark(grid: array2<char>, p: Point, mark: char)
    requires p in OpenCells(grid) && mark != '#'
    modifies grid
    ensures OpenCells(grid) == old(OpenCells(grid))
    ensures forall q :: Inside(grid, q) ==> grid[q.y, q.x] == if q == p then mark else old(grid[q.y, q.x])
  {
    grid[p.y, p.x] := mark;
  }

  /** Painting open cells with marks that are not wall opens and closes nothing. */
  method Paint(grid: array2<char>, markers: map<Point, char>, start: Point)
    requires markers.Keys <= OpenCells(grid) && start in OpenCells(grid) && FloorAndWall(grid)
    requires forall p :: p in markers ==> markers[p] != '#'
    modifies grid
    ensures OpenCells(grid) == old(OpenCells(grid))
    ensures Painted(grid, markers, start)
  {
    hide OpenCells;
    hide RowMajor;
    var order := RowMajor(markers.Keys);
    for i := 0 to |order|
      invariant OpenCells(grid) == old(OpenCells(grid))
      invariant forall j :: 0 <= j < i ==> order[j] in markers && Inside(grid, order[j]) && grid[order[j].y, order[j].x] == markers[order[j]]
      invariant forall p :: Inside(grid, p) && p !in markers ==> grid[p.y, p.x] == '#' || grid[p.y, p.x] == '.'
    {
      assert order[i] in order;
      Mark(grid, order[i], markers[order[i]]);
    }
    assert forall p :: p in markers ==> p in order;
    Mark(grid, start, 'P');
  }

  datatype ExitChoice = NotSeeded | NoSafeCell | ExitAt(p: Point)

  predicate ExitCandidate(grid: array2<char>, d: map<Point, int>, anchors: set<Point>, p: Point)
    reads grid
  {
    p in d && d[p] >= 4 && Inside(grid, p) && grid[p.y, p.x] == '.' && p !in anchors
  }

  ghost predicate FarthestOf(free: set<Point>, d: map<Point, int>, p: Point) {
    p in d && forall q :: q in free && q in d && d[q] >= 4 ==> d[q] <= d[p]
  }

  /** The only exit marker stands on an eligible cell, none of the free ones farther. */
  ghost predicate SoleExit(grid: array2<char>, d: map<Point, int>, anchors: set<Point>, exit: Point)
    reads grid
  {
    && exit in d && d[exit] >= 4 && exit !in anchors && Inside(grid, exit)
    && (forall p :: Inside(grid, p) ==> (grid[p.y, p.x] == 'X' <==> p == exit))
    && FarthestOf(FreeCells(grid, anchors), d, exit)
  }

  lemma FarthestFree(grid: array2<char>, d: map<Point, int>, anchors: set<Point>, r: ExitChoice)
    requires r.ExitAt? ==> ExitCandidate(grid, d, anchors, r.p)
    requires r.ExitAt? ==> forall q :: ExitCandidate(grid, d, anchors, q) ==> d[q] <= d[r.p]
    ensures r.ExitAt? ==> FarthestOf(FreeCells(grid, anchors), d, r.p)
  {
    if r.ExitAt? {
      forall q | q in FreeCells(grid, anchors) && q in d && d[q] >= 4
        ensures d[q] <= d[r.p]
      {
        assert ExitCandidate(grid, d, anchors, q);
      }
    }
  }

  ghost predicate NoExitCandidate(grid: array2<char>, d: map<Point, int>, anchors: set<Point>)
    reads grid
  {
    forall p :: !ExitCandidate(grid, d, anchors, p)
  }

  /** The seeded exit: a farthest floor cell at least four steps away and off every
      anchor; it fails only when there is no such cell. */
  method PlaceSeededExit(grid: array2<char>, start: Point, anchors: set<Point>, key: Point -> int, version: nat)
    returns (r: ExitChoice, ghost d: map<Point, int>)
    ensures ShortestFrom(OpenCells(grid) + {start}, start, d)
    ensures r.NotSeeded? <==> version < EXIT_PLACEMENT_VERSION
    ensures r.NoSafeCell? <==> version >= EXIT_PLACEMENT_VERSION && NoExitCandidate(grid, d, anchors)
    ensures r.ExitAt? ==> ExitCandidate(grid, d, anchors, r.p)
    ensures r.ExitAt? ==> forall q :: ExitCandidate(grid, d, anchors, q) ==> d[q] <= d[r.p]
  {
    hide OpenCells;
    hide ShortestFrom;
    var distances := GridDistances(grid, start);
    d := distances;
    if version < EXIT_PLACEMENT_VERSION {
      return NotSeeded, d;
    }
    var candidates := set p | p in distances && distances[p] >= 4 && Inside(grid, p) && grid[p.y, p.x] == '.' && p !in anchors;
    if candidates == {} {
      forall p
        ensures !ExitCandidate(grid, d, anchors, p)
      {
        assert p !in candidates;
      }
      return NoSafeCell, d;
    }
    var first := PickLeast(candidates, (p: Point) => if p in distances then -distances[p] else 0);
    var farthest := set p | p in candidates && distances[p] == distances[first];
    assert first in farthest;
    var p := PickLeast(farthest, key);
    r := ExitAt(p);
    assert ExitCandidate(grid, d, anchors, p);
    forall q | ExitCandidate(grid, d, anchors, q)
      ensures d[q] <= d[p]
    {
      assert q in candidates;
    }
  }

  /** The indices of the enemies to place, each once, in the order they are placed. */
  ghost predicate PlacementOrder(enemies: seq<Enemy>, version: nat, order: seq<nat>) {
    && (forall k :: 0 <= k < |order| ==> order[k] < |enemies| && Relocatable(enemies[order[k]], version))
    && (forall i :: 0 <= i < |enemies| && Relocatable(enemies[i], version) ==> i in order)
    && forall j, k :: 0 <= j < k < |order| ==> order[j] != order[k]
  }

  function FreeCells(grid: array2<char>, anchors: set<Point>): (r: set<Point>)
    reads grid
    ensures forall p :: p in r <==> Inside(grid, p) && grid[p.y, p.x] == '.' && p !in anchors
  {
    set p | p in Box(grid.Length1, grid.Length0) && grid[p.y, p.x] == '.' && p !in anchors
  }

  datatype Placement = NoSafeCells | Placed(enemies: seq<Enemy>)

  /** Placed enemies stand on pairwise distinct free cells; nothing else about any
      enemy changes. */
  ghost predicate WellPlaced(before: seq<Enemy>, after: seq<Enemy>, order: seq<nat>, free: set<Point>)
    requires forall k :: 0 <= k < |order| ==> order[k] < |before|
  {
    && |after| == |before|
    && (forall i :: 0 <= i < |before| ==> after[i] == before[i].(at := after[i].at))
    && (forall i :: 0 <= i < |before| && i !in order ==> after[i] == before[i])
    && (forall k :: 0 <= k < |order| ==> after[order[k]].at in free)
    && forall j, k :: 0 <= j < k < |order| ==> after[order[j]].at != after[order[k]].at
  }

  /** Where the optional enemies may go: three steps or more from the start, if that
      leaves room for all of them, or anywhere free. */
  function Preferred(free: set<Point>, start: Point, count: nat): set<Point> {
    var far := set p | p in free && Span(p.x, start.x) + Span(p.y, start.y) >= 3;
    if |far| < count then free else far
  }

  /** Each in turn has the least cell by its key among those not yet taken. */
  ghost predicate TookLeast(after: seq<Enemy>, order: seq<nat>, cells: set<Point>, key: (nat, Point) -> int)
    requires forall k :: 0 <= k < |order| ==> order[k] < |after|
  {
    forall k, q :: 0 <= k < |order| && q in cells && (forall j :: 0 <= j < k ==> after[order[j]].at != q) ==>
      key(order[k], after[order[k]].at) <= key(order[k], q)
  }

  /** Places the optional enemies; it fails only when there are too few free cells. */
  method PlaceOptionalEnemies(grid: array2<char>, start: Point, enemies: seq<Enemy>, order: seq<nat>, anchors: set<Point>,
                              key: (nat, Point) -> int, version: nat) returns (r: Placement)
    requires PlacementOrder(enemies, version, order)
    ensures r.NoSafeCells? <==> |FreeCells(grid, anchors)| < |order|
    ensures r.Placed? ==> WellPlaced(enemies, r.enemies, order, FreeCells(grid, anchors))
    ensures r.Placed? ==> var cells := Preferred(FreeCells(grid, anchors), start, |order|);
      WellPlaced(enemies, r.enemies, order, cells) && TookLeast(r.enemies, order, cells, key)
  {
    hide FreeCells;
    if order == [] {
      return Placed(enemies);
    }
    var free := FreeCells(grid, anchors);
    var candidates := set p | p in free && Span(p.x, start.x) + Span(p.y, start.y) >= 3;
    if |candidates| < |order| {
      candidates := free;
    } else {
      SubsetSize(candidates, free);
    }
    if |candidates| < |order| {
      return NoSafeCells;
    }
    assert candidates == Preferred(free, start, |order|);
    var placed := AssignCells(enemies, order, candidates, key);
    PlacedIn(enemies, placed, order, candidates, free);
    r := Placed(placed);
  }

  /** Each enemy in turn takes the least remaining cell. */
  method AssignCells(enemies: seq<Enemy>, order: seq<nat>, cells: set<Point>, key: (nat, Point) -> int) returns (placed: seq<Enemy>)
    requires forall k :: 0 <= k < |order| ==> order[k] < |enemies|
    requires forall j, k :: 0 <= j < k < |order| ==> order[j] != order[k]
    requires |cells| >= |order|
    ensures WellPlaced(enemies, placed, order, cells) && TookLeast(placed, order, cells, key)
  {
    hide WellPlaced;
    hide AssignedSoFar;
    hide LeastSoFar;
    hide TookLeast;
    placed := enemies;
    var candidates := cells;
    AssignStart(enemies, order, cells, key);
    for k := 0 to |order|
      invariant |candidates| >= |order| - k && |placed| == |enemies|
      invariant AssignedSoFar(enemies, placed, order, k, candidates, cells)
      invariant LeastSoFar(placed, order, k, candidates, cells, key)
    {
      var i := order[k];
      var p := PickLeast(candidates, (q: Point) => key(i, q));
      AssignOne(enemies, placed, order, k, candidates, cells, p);
      LeastOne(placed, order, k, candidates, cells, key, p);
      candidates := candidates - {p};
      placed := placed[i := placed[i].(at := p)];
    }
    AssignEnd(enemies, placed, order, candidates, cells, key);
  }

  lemma AssignStart(enemies: seq<Enemy>, order: seq<nat>, cells: set<Point>, key: (nat, Point) -> int)
    requires forall k :: 0 <= k < |order| ==> order[k] < |enemies|
    ensures AssignedSoFar(enemies, enemies, order, 0, cells, cells) && LeastSoFar(enemies, order, 0, cells, cells, key)
  {
  }

  lemma AssignEnd(enemies: seq<Enemy>, placed: seq<Enemy>, order: seq<nat>, candidates: set<Point>, cells: set<Point>, key: (nat, Point) -> int)
    requires |placed| == |enemies| && forall k :: 0 <= k < |order| ==> order[k] < |enemies|
    requires AssignedSoFar(enemies, placed, order, |order|, candidates, cells) && LeastSoFar(placed, order, |order|, candidates, cells, key)
    ensures WellPlaced(enemies, placed, order, cells) && TookLeast(placed, order, cells, key)
  {
    assert order[..|order|] == order;
    hide WellPlaced;
  }

  /** The first `k` took their least cell; what they left is what they did not take. */
  ghost predicate LeastSoFar(placed: seq<Enemy>, order: seq<nat>, k: nat, candidates: set<Point>, cells: set<Point>, key: (nat, Point) -> int)
    requires k <= |order| && forall k :: 0 <= k < |order| ==> order[k] < |placed|
  {
    && (forall q :: q in cells && q !in candidates ==> exists j :: 0 <= j < k && placed[order[j]].at == q)
    && forall i, q :: 0 <= i < k && q in cells && (forall j :: 0 <= j < i ==> placed[order[j]].at != q) ==>
         key(order[i], placed[order[i]].at) <= key(order[i], q)
  }

  lemma LeastOne(placed: seq<Enemy>, order: seq<nat>, k: nat, candidates: set<Point>, cells: set<Point>, key: (nat, Point) -> int, p: Point)
    requires k < |order| && (forall k :: 0 <= k < |order| ==> order[k] < |placed|)
    requires forall j, k :: 0 <= j < k < |order| ==> order[j] != order[k]
    requires LeastSoFar(placed, order, k, candidates, cells, key) && p in candidates
    requires forall q :: q in candidates ==> key(order[k], p) <= key(order[k], q)
    ensures LeastSoFar(placed[order[k] := placed[order[k]].(at := p)], order, k + 1, candidates - {p}, cells, key)
  {
    var after := placed[order[k] := placed[order[k]].(at := p)];
    assert forall j :: 0 <= j < k ==> after[order[j]] == placed[order[j]];
    assert after[order[k]].at == p;
  }

  ghost predicate AssignedSoFar(enemies: seq<Enemy>, placed: seq<Enemy>, order: seq<nat>, k: nat, candidates: set<Point>, cells: set<Point>)
    requires k <= |order| && forall k :: 0 <= k < |order| ==> order[k] < |enemies|
  {
    && candidates <= cells
    && WellPlaced(enemies, placed, order[..k], cells)
    && forall j :: 0 <= j < k ==> placed[order[j]].at !in candidates
  }

  lemma AssignOne(enemies: seq<Enemy>, placed: seq<Enemy>, order: seq<nat>, k: nat, candidates: set<Point>, cells: set<Point>, p: Point)
    requires k < |order| && (forall k :: 0 <= k < |order| ==> order[k] < |enemies|)
    requires forall j, k :: 0 <= j < k < |order| ==> order[j] != order[k]
    requires AssignedSoFar(enemies, placed, order, k, candidates, cells) && p in candidates
    ensures AssignedSoFar(enemies, placed[order[k] := placed[order[k]].(at := p)], order, k + 1, candidates - {p}, cells)
  {
    assert order[..k + 1] == order[..k] + [order[k]];
    var after := placed[order[k] := placed[order[k]].(at := p)];
    forall j | 0 <= j < k
      ensures after[order[j]] == placed[order[j]]
    {
      assert order[..k][j] == order[j];
    }
  }

  lemma PlacedIn(enemies: seq<Enemy>, placed: seq<Enemy>, order: seq<nat>, cells: set<Point>, more: set<Point>)
    requires forall k :: 0 <= k < |order| ==> order[k] < |enemies|
    requires WellPlaced(enemies, placed, order, cells) && cells <= more
    ensures WellPlaced(enemies, placed, order, more)
  {
  }

  datatype Materialized =
    | LayoutFailed(g: Generated)
    | NoExitCell
    | NoEnemyCells
    | Area(manifest: Manifest, exit: ExitChoice)

  /** Every anchor is a cell of the area. */
  ghost predicate AnchorsInside(m: Manifest, base: array2<char>, version: nat)
    reads base
  {
    forall a :: a in AnchorsOf(m, base, version) ==> Inside(base, a)
  }

  /** What a materialised area guarantees. `before` is the grid just before the exit
      was placed, as distances and floor; `anchors` the authored anchors. */
  ghost predicate GoodArea(m: Manifest, version: nat, order: seq<nat>, base: array2<char>, grid: array2<char>, r: Materialized, d: map<Point, int>)
    reads base, grid
    requires r.Area? && PlacementOrder(m.enemies, version, order)
  {
    var anchors := AnchorsOf(m, base, version);
    var open := OpenCells(grid);
    && AllConnected(open) && anchors <= open
    && ShortestFrom(open, m.start, d)
    && grid.Length0 == base.Length0 >= 7 && grid.Length1 == base.Length1 >= 7
    && Nodes(grid.Length1, grid.Length0) <= open
    && (r.exit.NotSeeded? <==> version < EXIT_PLACEMENT_VERSION) && !r.exit.NoSafeCell?
    && (r.exit.ExitAt? ==> SoleExit(grid, d, anchors, r.exit.p))
    && r.manifest == m.(enemies := r.manifest.enemies)
    && WellPlaced(m.enemies, r.manifest.enemies, order, FreeCells(grid, anchors))
  }

  /** The cells that have to be reached, as the authored manifest gives them. */
  function AnchorsOf(m: Manifest, base: array2<char>, version: nat): set<Point>
    reads base
  {
    Anchors(m, Markers(base, version < EXIT_PLACEMENT_VERSION).Keys, version)
  }

  /** The start, wherever an enemy that keeps its place stands or walks, the cells that
      content and exits are pinned to, and the marked cells; the exit mark only while exits
      are not seeded, and the enemies that move are those placed anew. */
  lemma AnchorIff(m: Manifest, base: array2<char>, version: nat, p: Point)
    ensures p in AnchorsOf(m, base, version) <==>
      || p == m.start
      || (exists i :: 0 <= i < |m.enemies| && (var e := m.enemies[i];
            && !(version >= 1 && e.holds && e.variable && !e.keyed && e.patrol == [] && e.positions == [])
            && (p == e.at || p in e.patrol || p in e.positions)))
      || (exists i :: 0 <= i < |m.content| && m.content[i] == At(p))
      || (exists i :: 0 <= i < |m.exits| && m.exits[i] == At(p))
      || (Inside(base, p) && base[p.y, p.x] !in {'#', '.'} && (version >= 2 ==> base[p.y, p.x] != 'X'))
  {
    EnemyAnchorIff(m.enemies, version, p);
    EntryAnchorIff(m.content, p);
    EntryAnchorIff(m.exits, p);
  }

  lemma {:induction false} EnemyAnchorIff(es: seq<Enemy>, version: nat, p: Point)
    ensures p in EnemyAnchors(es, version) <==>
      exists i :: 0 <= i < |es| && !Relocatable(es[i], version) && (p == es[i].at || p in es[i].patrol || p in es[i].positions)
  {
    if es != [] {
      var rest := es[1..];
      EnemyAnchorIff(rest, version, p);
      assert forall i :: 1 <= i < |es| ==> es[i] == rest[i - 1];
      assert forall i :: 0 <= i < |rest| ==> rest[i] == es[i + 1];
    }
  }

  lemma {:induction false} EntryAnchorIff(es: seq<Entry>, p: Point)
    ensures p in EntryAnchors(es) <==> exists i :: 0 <= i < |es| && es[i] == At(p)
  {
    if es != [] {
      var rest := es[1..];
      EntryAnchorIff(rest, p);
      assert forall i :: 1 <= i < |es| ==> es[i] == rest[i - 1];
      assert forall i :: 0 <= i < |rest| ==> rest[i] == es[i + 1];
    }
  }

  ghost predicate AnchorsConnected(m: Manifest, base: array2<char>, version: nat, grid: array2<char>, d: map<Point, int>)
    reads base, grid
  {
    AllConnected(OpenCells(grid)) && AnchorsOf(m, base, version) <= OpenCells(grid) && ShortestFrom(OpenCells(grid), m.start, d)
  }

  /** The carved and painted grid, before the exit is placed. */
  method BuildGrid(m: Manifest, base: array2<char>, layout: array2<char>, version: nat, horizontalFirst: Point -> bool) returns (grid: array2<char>)
    requires AnchorsInside(m, base, version)
    requires base.Length0 == layout.Length0 && base.Length1 == layout.Length1
    requires forall p :: p in OpenCells(layout) ==> layout[p.y, p.x] == 'P' || layout[p.y, p.x] == 'X' || layout[p.y, p.x] == '.'
    requires OpenCells(layout) != {} && AllConnected(OpenCells(layout))
    ensures fresh(grid) && grid.Length0 == base.Length0 && grid.Length1 == base.Length1
    ensures AllConnected(OpenCells(grid)) && OpenCells(layout) <= OpenCells(grid)
    ensures AnchorsOf(m, base, version) <= OpenCells(grid)
    ensures Painted(grid, Markers(base, version < EXIT_PLACEMENT_VERSION), m.start)
  {
    hide OpenCells;
    hide AllConnected;
    hide FloorAndWall;
    hide Painted;
    grid := Unmarked(layout);
    var markers := Markers(base, version < EXIT_PLACEMENT_VERSION);
    var anchors := Anchors(m, markers.Keys, version);
    ConnectAnchors(grid, anchors, horizontalFirst);
    assert m.start in anchors && markers.Keys <= anchors;
    Paint(grid, markers, m.start);
  }

  /** Writing the exit marker keeps the open cells and makes it the only one. */
  method WriteExit(grid: array2<char>, markers: map<Point, char>, start: Point, exit: Point, ghost anchors: set<Point>)
    requires Painted(grid, markers, start) && Inside(grid, exit) && grid[exit.y, exit.x] == '.'
    requires forall p :: p in markers ==> markers[p] != 'X'
    modifies grid
    ensures OpenCells(grid) == old(OpenCells(grid))
    ensures forall p :: Inside(grid, p) ==> (grid[p.y, p.x] == 'X' <==> p == exit)
    ensures forall p :: Inside(grid, p) && p != exit ==> grid[p.y, p.x] == old(grid[p.y, p.x])
    ensures FreeCells(grid, anchors) <= old(FreeCells(grid, anchors))
  {
    grid[exit.y, exit.x] := 'X';
  }

  /** Chooses the exit, when the version asks for one, and writes it. */
  method SeedExit(grid: array2<char>, markers: map<Point, char>, start: Point, anchors: set<Point>, key: Point -> int, version: nat)
    returns (r: ExitChoice, ghost d: map<Point, int>)
    requires Painted(grid, markers, start) && start in OpenCells(grid)
    requires forall p :: p in markers ==> markers[p] != '.' && (version >= EXIT_PLACEMENT_VERSION ==> markers[p] != 'X')
    modifies grid
    ensures OpenCells(grid) == old(OpenCells(grid))
    ensures ShortestFrom(OpenCells(grid), start, d)
    ensures r.NotSeeded? <==> version < EXIT_PLACEMENT_VERSION
    ensures r.NoSafeCell? ==> NoExitCandidate(grid, d, anchors)
    ensures !r.ExitAt? ==> forall p :: Inside(grid, p) ==> grid[p.y, p.x] == old(grid[p.y, p.x])
    ensures r.ExitAt? ==> SoleExit(grid, d, anchors, r.p)
    ensures forall p :: Inside(grid, p) && p in markers ==> grid[p.y, p.x] != '.'
  {
    hide OpenCells;
    hide ShortestFrom;
    r, d := PlaceSeededExit(grid, start, anchors, key, version);
    assert OpenCells(grid) + {start} == OpenCells(grid);
    FarthestFree(grid, d, anchors, r);
    if r.ExitAt? {
      WriteExit(grid, markers, start, r.p, anchors);
    }
  }

  /** On floor cells the authored anchors and those of the new grid are the same. */
  lemma SameFreeCells(m: Manifest, version: nat, markers: map<Point, char>, grid: array2<char>)
    requires forall p :: p in markers && Inside(grid, p) ==> grid[p.y, p.x] != '.'
    ensures FreeCells(grid, Anchors(m, Markers(grid, version < EXIT_PLACEMENT_VERSION).Keys, version))
         == FreeCells(grid, Anchors(m, markers.Keys, version))
  {
  }

  /** What each answer says: that no cell will do for the exit, that the free cells are
      too few for the enemies, or that the area is good. */
  ghost predicate Explained(m: Manifest, version: nat, order: seq<nat>, base: array2<char>, grid: array2<char>, r: Materialized, d: map<Point, int>)
    reads base, grid
    requires PlacementOrder(m.enemies, version, order)
  {
    var anchors := AnchorsOf(m, base, version);
    match r
    case LayoutFailed(_) => true
    case NoExitCell =>
      && version >= EXIT_PLACEMENT_VERSION && AnchorsConnected(m, base, version, grid, d) && NoExitCandidate(grid, d, anchors)
    case NoEnemyCells =>
      && AnchorsConnected(m, base, version, grid, d) && |FreeCells(grid, anchors)| < |order|
      && (version >= EXIT_PLACEMENT_VERSION ==> exists p :: SoleExit(grid, d, anchors, p))
    case Area(_, _) =>
      GoodArea(m, version, order, base, grid, r, d) && |FreeCells(grid, anchors)| >= |order|
  }

  /** The state between placing the exit and placing the enemies. */
  ghost predicate ExitPlaced(m: Manifest, version: nat, base: array2<char>, grid: array2<char>, choice: ExitChoice, d: map<Point, int>)
    reads base, grid
  {
    && AnchorsConnected(m, base, version, grid, d)
    && grid.Length0 == base.Length0 >= 7 && grid.Length1 == base.Length1 >= 7
    && Nodes(grid.Length1, grid.Length0) <= OpenCells(grid)
    && (choice.NotSeeded? <==> version < EXIT_PLACEMENT_VERSION)
    && (choice.NoSafeCell? ==> version >= EXIT_PLACEMENT_VERSION && NoExitCandidate(grid, d, AnchorsOf(m, base, version)))
    && (choice.ExitAt? ==> SoleExit(grid, d, AnchorsOf(m, base, version), choice.p))
  }

  lemma ExitExplained(m: Manifest, version: nat, order: seq<nat>, base: array2<char>, grid: array2<char>, choice: ExitChoice, d: map<Point, int>)
    requires PlacementOrder(m.enemies, version, order) && ExitPlaced(m, version, base, grid, choice, d)
    ensures choice.NoSafeCell? ==> Explained(m, version, order, base, grid, NoExitCell, d)
  {
    hide PlacementOrder;
    hide SoleExit;
    hide OpenCells;
    hide Nodes;
  }

  lemma PlacementExplained(m: Manifest, version: nat, order: seq<nat>, base: array2<char>, grid: array2<char>, choice: ExitChoice, d: map<Point, int>, p: Placement)
    requires PlacementOrder(m.enemies, version, order) && ExitPlaced(m, version, base, grid, choice, d) && !choice.NoSafeCell?
    requires var free := FreeCells(grid, AnchorsOf(m, base, version));
      && (p.NoSafeCells? <==> |free| < |order|)
      && (p.Placed? ==> WellPlaced(m.enemies, p.enemies, order, free))
    ensures Explained(m, version, order, base, grid, if p.Placed? then Area(m.(enemies := p.enemies), choice) else NoEnemyCells, d)
  {
    hide PlacementOrder;
    hide SoleExit;
    hide OpenCells;
    hide Nodes;
    hide AllConnected;
    hide ShortestFrom;
    hide WellPlaced;
    hide FreeCells;
    hide AnchorsOf;
  }

  /** Carves, paints, places the exit and then the enemies. */
  method Overlay(m: Manifest, base: array2<char>, layout: array2<char>, version: nat, order: seq<nat>,
                 horizontalFirst: Point -> bool, exitKey: Point -> int, enemyKey: (nat, Point) -> int)
    returns (r: Materialized, grid: array2<char>, ghost d: map<Point, int>)
    requires AnchorsInside(m, base, version) && PlacementOrder(m.enemies, version, order)
    requires base.Length0 == layout.Length0 >= 7 && base.Length1 == layout.Length1 >= 7
    requires forall p :: p in OpenCells(layout) ==> layout[p.y, p.x] == 'P' || layout[p.y, p.x] == 'X' || layout[p.y, p.x] == '.'
    requires OpenCells(layout) != {} && AllConnected(OpenCells(layout)) && Nodes(layout.Length1, layout.Length0) <= OpenCells(layout)
    ensures fresh(grid) && !r.LayoutFailed? && Explained(m, version, order, base, grid, r, d)
  {
    hide OpenCells;
    hide AllConnected;
    hide ShortestFrom;
    hide WellPlaced;
    hide PlacementOrder;
    hide FreeCells;
    hide SoleExit;
    hide NoExitCandidate;
    hide Nodes;
    hide RowLe;
    hide TookLeast;
    hide Explained;
    grid := BuildGrid(m, base, layout, version, horizontalFirst);
    var markers := Markers(base, version < EXIT_PLACEMENT_VERSION);
    var anchors := Anchors(m, markers.Keys, version);
    assert m.start in anchors && anchors == AnchorsOf(m, base, version);
    var choice;
    choice, d := SeedExit(grid, markers, m.start, anchors, exitKey, version);
    assert ExitPlaced(m, version, base, grid, choice, d);
    hide ExitPlaced;
    ExitExplained(m, version, order, base, grid, choice, d);
    if choice.NoSafeCell? {
      return NoExitCell, grid, d;
    }
    SameFreeCells(m, version, markers, grid);
    var enemyAnchors := Anchors(m, Markers(grid, version < EXIT_PLACEMENT_VERSION).Keys, version);
    var placement := PlaceOptionalEnemies(grid, m.start, m.enemies, order, enemyAnchors, enemyKey, version);
    PlacementExplained(m, version, order, base, grid, choice, d, placement);
    if placement.NoSafeCells? {
      return NoEnemyCells, grid, d;
    }
    r := Area(m.(enemies := placement.enemies), choice);
  }

  /** Overlays a generated layout on a manifest. */
  method MaterializeRecipe(m: Manifest, base: array2<char>, recipe: Recipe, density: int, version: nat, order: seq<nat>,
                           horizontalFirst: Point -> bool, exitKey: Point -> int, enemyKey: (nat, Point) -> int, rng: Rng)
    returns (r: Materialized, grid: array2<char>, ghost d: map<Point, int>)
    requires AnchorsInside(m, base, version) && PlacementOrder(m.enemies, version, order)
    requires Validate(recipe).Ok? ==> base.Length1 == Validate(recipe).value.width && base.Length0 == Validate(recipe).value.height
    modifies rng
    ensures fresh(grid)
    ensures r.LayoutFailed? <==> Validate(recipe).Err? || TargetWalkableCount(Validate(recipe).value, density).TooManySlots?
    ensures Explained(m, version, order, base, grid, r, d)
  {
    hide Validate;
    hide OpenCells;
    hide AllConnected;
    hide ShortestFrom;
    hide PlacementOrder;
    hide TargetWalkableCount;
    hide Nodes;
    hide AnchorsInside;
    hide FewDeadEnds;
    var g, layout;
    g, layout, d := GenerateLayout(recipe, density, rng);
    if !g.Done? {
      return LayoutFailed(g), layout, d;
    }
    ValidateNormalises(recipe);
    hide GoodArea;
    r, grid, d := Overlay(m, base, layout, version, order, horizontalFirst, exitKey, enemyKey);
  }
}
