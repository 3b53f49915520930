/** The deterministic layout generator: carve, open extra cells, place the exit. */
module LayoutGenerator {
  import opened Integers
  import opened GridGraph
  import opened Breadth
  import opened CycleRank
  import opened Maze
  import opened DeadEndBound
  import opened ExtraCells
  import opened MapCode

  const RESERVED_SLOTS := 1

  predicate IsMechanism(verb: string) {
    verb in {"lever", "sluice", "keys", "puzzle", "traps"}
  }

  function MechanismSlots(verbs: seq<string>): nat {
    if verbs == [] then RESERVED_SLOTS
    else (if IsMechanism(verbs[0]) then 2 else 0) + MechanismSlots(verbs[1..])
  }

  function RequiredSlots(r: Recipe): int {
    2 + r.enemies + r.treasures + r.secrets + MechanismSlots(r.verbs)
  }

  function InteriorSize(r: Recipe): int {
    (r.width - 2) * (r.height - 2)
  }

  datatype Target = TooManySlots | Cells(count: int)

  /** `density` is the interior size times the open ratio, rounded up. */
  function TargetWalkableCount(r: Recipe, density: int): Target {
    var interior := InteriorSize(r);
    if RequiredSlots(r) > interior then TooManySlots
    else
      var loopFloor := Least(interior, PerfectMazeWalkableCount(r.width, r.height) + 2);
      Cells(Least(interior, Greatest(RequiredSlots(r), Greatest(density, loopFloor))))
  }

  lemma {:induction false} MechanismBound(verbs: seq<string>)
    ensures MechanismSlots(verbs) <= RESERVED_SLOTS + 2 * |verbs|
    ensures MechanismSlots(verbs) == RESERVED_SLOTS + 2 * |verbs| <==> forall i :: 0 <= i < |verbs| ==> IsMechanism(verbs[i])
    ensures MechanismSlots(verbs) % 2 == 1
  {
    hide IsMechanism;
    if verbs != [] {
      MechanismBound(verbs[1..]);
      assert forall i :: 1 <= i < |verbs| ==> verbs[i] == verbs[1..][i - 1];
    }
  }

  /** The cells a recipe's contents call for: start, exit, one kept in reserve, one for
      each enemy, treasure and secret, and two for each verb that is a mechanism. */
  ghost function SlotsOf(r: Recipe): int {
    var mechanisms := set i | 0 <= i < |r.verbs| && r.verbs[i] in {"lever", "sluice", "keys", "puzzle", "traps"};
    3 + r.enemies + r.treasures + r.secrets + 2 * |mechanisms|
  }

  lemma {:induction false} MechanismsCounted(verbs: seq<string>, k: nat)
    requires k <= |verbs|
    ensures MechanismSlots(verbs[k..]) == 1 + 2 * |set i | k <= i < |verbs| && IsMechanism(verbs[i])|
    decreases |verbs| - k
  {
    hide IsMechanism;
    var here := set i | k <= i < |verbs| && IsMechanism(verbs[i]);
    if k == |verbs| {
      assert here == {};
    } else {
      var later := set i | k + 1 <= i < |verbs| && IsMechanism(verbs[i]);
      MechanismsCounted(verbs, k + 1);
      assert verbs[k..][1..] == verbs[k + 1..];
      assert here == if IsMechanism(verbs[k]) then later + {k} else later;
    }
  }

  /** A count of open cells for a recipe and a density: room for the contents, as open as
      the density asks wherever that fits, two cells more than the carve where they fit,
      and no more open than one of these calls for. */
  ghost predicate AsOpenAsAsked(r: Recipe, density: int, count: int) {
    var interior := (r.width - 2) * (r.height - 2);
    var loops := 2 * ((r.width - 1) / 2) * ((r.height - 1) / 2) + 1;
    && SlotsOf(r) <= count <= interior
    && (count == interior || (count >= density && count >= loops))
    && (count == SlotsOf(r) || count == density || count == loops
        || (count == interior && (density > interior || loops > interior)))
  }

  lemma TargetAsAsked(r: Recipe, density: int)
    requires r.width >= 7 && r.height >= 7
    ensures TargetWalkableCount(r, density).TooManySlots? <==> SlotsOf(r) > (r.width - 2) * (r.height - 2)
    ensures TargetWalkableCount(r, density).Cells? ==> AsOpenAsAsked(r, density, TargetWalkableCount(r, density).count)
  {
    SlotsCounted(r);
    CarveCounted(r.width, r.height);
    hide SlotsOf;
    hide PerfectMazeWalkableCount;
  }

  lemma SlotsCounted(r: Recipe)
    ensures RequiredSlots(r) == SlotsOf(r)
  {
    MechanismsCounted(r.verbs, 0);
    assert r.verbs[0..] == r.verbs;
    assert forall i :: 0 <= i < |r.verbs| ==> (IsMechanism(r.verbs[i]) <==> r.verbs[i] in {"lever", "sluice", "keys", "puzzle", "traps"});
    assert (set i | 0 <= i < |r.verbs| && r.verbs[i] in {"lever", "sluice", "keys", "puzzle", "traps"})
        == set i | 0 <= i < |r.verbs| && IsMechanism(r.verbs[i]);
  }

  lemma CarveCounted(width: int, height: int)
    requires width >= 7 && height >= 7
    ensures PerfectMazeWalkableCount(width, height) == 2 * ((width - 1) / 2) * ((height - 1) / 2) - 1
  {
    assert (width - 1) / 2 >= 3 && (height - 1) / 2 >= 3;
    MulMonotone(3, (width - 1) / 2, 3, (height - 1) / 2);
  }

  /** Among valid recipes only one shape asks for more cells than fit: the smallest
      map with everything at its maximum and four mechanism verbs. */
  lemma OnlyTheTightestRecipeFails(r: Recipe, density: int)
    requires Normal(r)
    ensures TargetWalkableCount(r, density).TooManySlots? <==>
      r.width == 7 && r.height == 7 && r.enemies == 8 && r.treasures == 4 && r.secrets == 3
      && |r.verbs| == 4 && forall i :: 0 <= i < 4 ==> IsMechanism(r.verbs[i])
  {
    hide IsMechanism;
    hide IsVerb;
    hide IsTheme;
    MechanismBound(r.verbs);
    InteriorAtLeast(r);
  }

  /** And such a recipe is valid: it fails whatever the density asks for. */
  lemma TheTightestRecipe(density: int)
    ensures var r := Recipe("crypt", 7, 7, ["lever", "keys", "puzzle", "traps"], 8, 4, 3, 1, 0, CODE_VERSION);
      Normal(r) && Validate(r) == Ok(r) && TargetWalkableCount(r, density).TooManySlots?
  {
    var r := Recipe("crypt", 7, 7, ["lever", "keys", "puzzle", "traps"], 8, 4, 3, 1, 0, CODE_VERSION);
    FourMechanisms();
    assert IsTheme("crypt");
    hide IsTheme;
    hide IsVerb;
    hide IsMechanism;
    hide Distinct;
    ValidateNormalises(r);
    hide Validate;
    OnlyTheTightestRecipeFails(r, density);
    hide TargetWalkableCount;
  }

  lemma FourMechanisms()
    ensures var verbs := ["lever", "keys", "puzzle", "traps"];
      Distinct(verbs) && forall i :: 0 <= i < 4 ==> IsVerb(verbs[i]) && IsMechanism(verbs[i])
  {
    assert "lever"[0] == 'l' && "keys"[0] == 'k' && "puzzle"[0] == 'p' && "traps"[0] == 't';
  }

  lemma InteriorAtLeast(r: Recipe)
    requires r.width >= 7 && r.height >= 7
    ensures InteriorSize(r) >= 25
    ensures (r.width == 7 && r.height == 7) || InteriorSize(r) >= 30
  {
    if r.width >= 8 {
      assert (r.width - 2) * (r.height - 2) >= 6 * (r.height - 2);
    } else {
      assert (r.width - 2) * (r.height - 2) == 5 * (r.height - 2);
    }
  }

  /** The target is reachable: no less than the carve, no more than the interior. */
  lemma TargetReachable(r: Recipe, density: int)
    requires r.width >= 7 && r.height >= 7
    ensures TargetWalkableCount(r, density).Cells? ==>
      PerfectMazeWalkableCount(r.width, r.height) <= TargetWalkableCount(r, density).count <= InteriorSize(r)
  {
    PerfectFits(r.width, r.height);
  }

  lemma PerfectFits(width: int, height: int)
    requires width >= 7 && height >= 7
    ensures PerfectMazeWalkableCount(width, height) <= (width - 2) * (height - 2)
  {
    var c, r := (width - 1) / 2, (height - 1) / 2;
    assert c >= 3 && r >= 3 && width - 2 >= 2 * c - 1 && height - 2 >= 2 * r - 1;
    assert (width - 2) * (height - 2) >= (2 * c - 1) * (2 * r - 1) by {
      MulMonotone(2 * c - 1, width - 2, 2 * r - 1, height - 2);
    }
    assert (2 * c - 1) * (2 * r - 1) == 4 * (c * r) - 2 * c - 2 * r + 1;
    assert c * r >= 3 * r && c * r >= c * 3 by {
      MulMonotone(3, c, r, r);
      MulMonotone(c, c, 3, r);
    }
  }

  lemma MulMonotone(a: int, a': int, b: int, b': int)
    requires 0 <= a <= a' && 0 <= b <= b'
    ensures a * b <= a' * b'
  {
    assert a * b <= a' * b <= a' * b';
  }

  predicate FartherThan(d: map<Point, int>, p: Point, q: Point)
    requires p in d && q in d
  {
    d[p] > d[q] || (d[p] == d[q] && (p.y > q.y || (p.y == q.y && p.x >= q.x)))
  }

  /** The exit: the farthest cell, ties broken by row and then by column. */
  method Farthest(d: map<Point, int>) returns (far: Point)
    requires d != map[]
    ensures far in d && forall q :: q in d ==> FartherThan(d, far, q)
  {
    far :| far in d;
    var rest := d.Keys - {far};
    while rest != {}
      invariant rest <= d.Keys && far in d
      invariant forall q :: q in d && q !in rest ==> FartherThan(d, far, q)
    {
      var q :| q in rest;
      if !FartherThan(d, far, q) {
        far := q;
      }
      rest := rest - {q};
    }
  }

  function Span(a: int, b: int): nat {
    if a < b then b - a else a - b
  }

  /** A path is never shorter than the Manhattan distance. */
  lemma {:induction false} PathSpans(open: set<Point>, path: seq<Point>)
    requires IsPath(open, path)
    ensures |path| - 1 >= Span(path[0].x, path[|path| - 1].x) + Span(path[0].y, path[|path| - 1].y)
  {
    if |path| > 1 {
      var n := |path| - 1;
      assert Adjacent(path[n - 1], path[n]);
      PathSpans(open, path[..n]);
    }
  }

  /** The far corner room alone forces the exit eight steps away. */
  lemma FarCorner(width: int, height: int, open: set<Point>, d: map<Point, int>)
    requires width >= 7 && height >= 7 && Nodes(width, height) <= open
    requires AllConnected(open) && ShortestFrom(open, Point(1, 1), d)
    ensures exists p :: p in d && d[p] >= 8
  {
    var corner := Point(2 * ((width - 1) / 2) - 1, 2 * ((height - 1) / 2) - 1);
    assert IsNode(width, height, corner) && IsNode(width, height, Point(1, 1));
    assert corner in open && Point(1, 1) in open;
    assert Connected(open, Point(1, 1), corner);
    assert HasPath(open, Point(1, 1), corner, d[corner]);
    var path :| PathFromTo(open, path, Point(1, 1), corner) && |path| == d[corner] + 1;
    PathSpans(open, path);
  }

  datatype Generated =
    | BadRecipe(fault: Fault)
    | NeedsTooManySlots
    | NotFullyConnected
    | ExitTooClose
    | CannotReachTarget
    | Done(walkable: nat, exit: Point)

  /** A finished layout: rooms open, border solid, connected, exactly the target number
      of cells, start and exit marked, and the exit the farthest cell of all. */
  ghost predicate GoodLayout(grid: array2<char>, r: Recipe, count: int, exit: Point, d: map<Point, int>)
    reads grid
  {
    var open := OpenCells(grid);
    && grid.Length1 == r.width && grid.Length0 == r.height
    && Nodes(r.width, r.height) <= open <= Interior(r.width, r.height)
    && AllConnected(open) && |open| == count && FewDeadEnds(open)
    && ShortestFrom(open, Point(1, 1), d)
    && exit in d && d[exit] >= 8 && (forall q :: q in d ==> FartherThan(d, exit, q))
    && exit in open && Point(1, 1) in open && exit != Point(1, 1)
    && (forall p :: p in open ==> grid[p.y, p.x] == if p == exit then 'X' else if p == Point(1, 1) then 'P' else '.')
  }

  /** Generates a layout for a recipe. Whatever the random stream, the only failures
      are an invalid recipe and one that asks for more cells than fit, and the layout is
      as open as was asked. */
  method GenerateLayout(recipe: Recipe, density: int, rng: Rng) returns (g: Generated, grid: array2<char>, ghost d: map<Point, int>)
    modifies rng
    ensures fresh(grid)
    ensures g.BadRecipe? <==> Validate(recipe).Err?
    ensures g.NeedsTooManySlots? <==> Validate(recipe).Ok? && TargetWalkableCount(Validate(recipe).value, density).TooManySlots?
    ensures !g.NotFullyConnected? && !g.ExitTooClose? && !g.CannotReachTarget?
    ensures g.NeedsTooManySlots? <==>
      && Validate(recipe).Ok?
      && SlotsOf(Validate(recipe).value) > (Validate(recipe).value.width - 2) * (Validate(recipe).value.height - 2)
    ensures g.Done? ==>
      && TargetWalkableCount(Validate(recipe).value, density) == Cells(g.walkable)
      && AsOpenAsAsked(Validate(recipe).value, density, g.walkable)
      && GoodLayout(grid, Validate(recipe).value, g.walkable, g.exit, d)
  {
    hide Validate;
    hide TargetWalkableCount;
    hide PerfectMazeWalkableCount;
    hide OpenCells;
    hide Adjacent;
    hide AllConnected;
    hide ShortestFrom;
    hide FloorAndWall;
    hide Acyclic;
    hide Rank;
    hide Lively;
    hide FewDeadEnds;
    hide Nodes;
    hide PerfectMaze;
    hide SlotsOf;
    hide AsOpenAsAsked;
    d := map[];
    var valid := Validate(recipe);
    if valid.Err? {
      grid := new char[0, 0];
      return BadRecipe(valid.fault), grid, d;
    }
    var r := valid.value;
    var walkable;
    grid, walkable := CarveMaze(r.width, r.height, rng);
    var target := TargetWalkableCount(r, density);
    TargetReachable(r, density);
    TargetAsAsked(r, density);
    InteriorCount(r.width, r.height);
    if target.TooManySlots? {
      return NeedsTooManySlots, grid, d;
    }
    CarvedIsLively(r.width, r.height, OpenCells(grid));
    StartIsRoom(r.width, r.height, OpenCells(grid));
    var extra := OpenExtraCells(grid, walkable, target.count, rng);
    walkable := extra.walkable;
    StillLively(r.width, r.height, OpenCells(grid));
    var start := Point(1, 1);
    ghost var open := OpenCells(grid);
    var distances := GridDistances(grid, start);
    assert open + {start} == open;
    AllReached(open, start, distances);
    if |distances| != walkable {
      return NotFullyConnected, grid, d;
    }
    var exit := Farthest(distances);
    d := distances;
    FarCorner(r.width, r.height, open, d);
    DistanceZero(open, start, d);
    if exit == start || distances[exit] < 4 {
      return ExitTooClose, grid, d;
    }
    assert exit in open;
    MarkCells(grid, start, exit);
    g := Done(walkable, exit);
  }

  /** What the carve hands on to the loop that opens extra cells. */
  lemma CarvedIsLively(width: int, height: int, open: set<Point>)
    requires width >= 7 && height >= 7 && PerfectMaze(width, height, open)
    ensures Lively(width, height, open) && Nodes(width, height) <= open <= Interior(width, height)
    ensures AllConnected(open) && |open| == PerfectMazeWalkableCount(width, height)
  {
    PerfectMazeFew(width, height, open);
    hide AllConnected;
    hide Acyclic;
    hide Rank;
    hide FewDeadEnds;
    hide Joins;
  }

  lemma StillLively(width: int, height: int, open: set<Point>)
    requires Lively(width, height, open)
    ensures FewDeadEnds(open) && Nodes(width, height) <= open
  {
    hide FewDeadEnds;
  }

  lemma StartIsRoom(width: int, height: int, open: set<Point>)
    requires width >= 3 && height >= 3 && Nodes(width, height) <= open
    ensures Point(1, 1) in open && |open| >= 1
  {
    assert Point(1, 1) in Nodes(width, height);
  }

  lemma AllReached(open: set<Point>, start: Point, d: map<Point, int>)
    requires AllConnected(open) && start in open && ShortestFrom(open, start, d)
    ensures d.Keys == open && |d| == |open| && d != map[]
  {
    forall v | v in d
      ensures v in open
    {
      var path :| PathFromTo(open, path, start, v);
    }
    forall v | v in open
      ensures v in d
    {
      assert Connected(open, start, v);
    }
    assert |d| == |d.Keys|;
  }

  lemma DistanceZero(open: set<Point>, start: Point, d: map<Point, int>)
    requires start in open && ShortestFrom(open, start, d)
    ensures start in d && d[start] == 0
  {
    ConnectedSelf(open, start);
    assert PathFromTo(open, [start], start, start);
    assert HasPath(open, start, start, d[start]);
  }

  /** Marks the start and the exit; no cell opens or closes. */
  method MarkCells(grid: array2<char>, start: Point, exit: Point)
    requires start in OpenCells(grid) && exit in OpenCells(grid) && start != exit
    requires FloorAndWall(grid)
    modifies grid
    ensures OpenCells(grid) == old(OpenCells(grid))
    ensures forall p :: p in OpenCells(grid) ==> grid[p.y, p.x] == if p == exit then 'X' else if p == start then 'P' else '.'
  {
    grid[start.y, start.x] := 'P';
    grid[exit.y, exit.x] := 'X';
  }
}
