/** Opening wall cells after the carve, loop-closing ones first, up to a target count. */
module ExtraCells {
  import opened GridGraph
  import opened CycleRank
  import opened Maze
  import opened DeadEndBound

  /** How many of the four cells around an interior one are open. */
  function OpenAround(grid: array2<char>, p: Point): nat
    requires InInterior(grid.Length1, grid.Length0, p)
    reads grid
  {
    (if grid[p.y, p.x + 1] != '#' then 1 else 0) + (if grid[p.y, p.x - 1] != '#' then 1 else 0)
    + (if grid[p.y + 1, p.x] != '#' then 1 else 0) + (if grid[p.y - 1, p.x] != '#' then 1 else 0)
  }

  predicate Extendable(grid: array2<char>, p: Point, least: nat)
    reads grid
  {
    InInterior(grid.Length1, grid.Length0, p) && grid[p.y, p.x] == '#' && OpenAround(grid, p) >= least
  }

  /** One scan of the interior: the wall cells beside something open, and those of
      them that would close a loop. */
  method ScanWalls(grid: array2<char>) returns (candidates: seq<Point>, loops: seq<Point>)
    ensures forall p :: p in candidates <==> Extendable(grid, p, 1)
    ensures forall p :: p in loops <==> Extendable(grid, p, 2)
  {
    candidates, loops := [], [];
    var y := 1;
    while y < grid.Length0 - 1
      invariant 1 <= y && (y <= grid.Length0 - 1 || y == 1)
      invariant forall p :: p in candidates <==> p.y < y && Extendable(grid, p, 1)
      invariant forall p :: p in loops <==> p.y < y && Extendable(grid, p, 2)
    {
      var x := 1;
      while x < grid.Length1 - 1
        invariant 1 <= x && (x <= grid.Length1 - 1 || x == 1)
        invariant forall p :: p in candidates <==> (p.y < y || (p.y == y && p.x < x)) && Extendable(grid, p, 1)
        invariant forall p :: p in loops <==> (p.y < y || (p.y == y && p.x < x)) && Extendable(grid, p, 2)
      {
        var p := Point(x, y);
        if grid[y, x] == '#' {
          var around := OpenAround(grid, p);
          if around >= 1 {
            candidates := candidates + [p];
          }
          if around >= 2 {
            loops := loops + [p];
          }
        }
        x := x + 1;
      }
      y := y + 1;
    }
  }

  /** Extendable cells are exactly the interior frontier of the open set. */
  lemma ExtendableIsFrontier(grid: array2<char>, p: Point)
    requires InInterior(grid.Length1, grid.Length0, p) && p !in OpenCells(grid)
    ensures Extendable(grid, p, 1) <==> exists q :: q in OpenCells(grid) && Adjacent(p, q)
    ensures Extendable(grid, p, 2) ==> Degree(p, OpenCells(grid)) >= 2
  {
    var open := OpenCells(grid);
    var e, w, s, n := Point(p.x + 1, p.y), Point(p.x - 1, p.y), Point(p.x, p.y + 1), Point(p.x, p.y - 1);
    assert e in open <==> grid[p.y, p.x + 1] != '#';
    assert w in open <==> grid[p.y, p.x - 1] != '#';
    assert s in open <==> grid[p.y + 1, p.x] != '#';
    assert n in open <==> grid[p.y - 1, p.x] != '#';
    assert Adjacent(p, e) && Adjacent(p, w) && Adjacent(p, s) && Adjacent(p, n);
    if Extendable(grid, p, 2) {
      DegreeCounts(p, open);
      var t := Touching(p, open);
      var a := if e in open then e else if w in open then w else s;
      var b := if n in open then n else if s in open then s else w;
      TwoOrMore(a, b, t);
    }
  }

  /** While the interior is not full there is always a wall cell to open. */
  lemma SomeCandidate(grid: array2<char>)
    requires OpenCells(grid) < Interior(grid.Length1, grid.Length0) && OpenCells(grid) != {}
    ensures exists p :: Extendable(grid, p, 1)
  {
    InteriorConnected(grid.Length1, grid.Length0);
    var p, beside := Frontier(Interior(grid.Length1, grid.Length0), OpenCells(grid));
    ExtendableIsFrontier(grid, p);
  }

  /** What opening extra cells keeps. */
  ghost predicate Layout(grid: array2<char>, walkable: int)
    reads grid
  {
    && OpenCells(grid) <= Interior(grid.Length1, grid.Length0)
    && AllConnected(OpenCells(grid))
    && walkable == |OpenCells(grid)|
    && FloorAndWall(grid)
  }

  datatype Extra = NoCandidate | Opened(walkable: nat)

  /** Two distinct open neighbours make a wall cell close a loop. */
  lemma LoopsAreExtendable(grid: array2<char>, q: Point)
    requires InInterior(grid.Length1, grid.Length0, q) && q !in OpenCells(grid) && Degree(q, OpenCells(grid)) >= 2
    ensures Extendable(grid, q, 2)
  {
    var open := OpenCells(grid);
    DegreeCounts(q, open);
    var t := Touching(q, open);
    var a :| a in t;
    assert |t - {a}| == |t| - 1;
    var b :| b in t - {a};
    hide Degree;
  }

  /** Enough rooms are open, and no more than half the cells are dead ends. */
  ghost predicate Lively(width: int, height: int, open: set<Point>) {
    width >= 7 && height >= 7 && Nodes(width, height) <= open && FewDeadEnds(open)
  }

  /** The pick keeps it so: a loop while there is one, any frontier cell when none is left. */
  lemma PickKeepsLively(grid: array2<char>, p: Point)
    requires var w, h, open := grid.Length1, grid.Length0, OpenCells(grid);
      Lively(w, h, open) && open <= Interior(w, h) && p !in open && InInterior(w, h, p)
    requires Extendable(grid, p, 2) || forall q :: !Extendable(grid, q, 2)
    ensures Lively(grid.Length1, grid.Length0, OpenCells(grid) + {p})
  {
    hide Degree;
    hide FewDeadEnds;
    hide OpenCells;
    var w, h, open := grid.Length1, grid.Length0, OpenCells(grid);
    if Extendable(grid, p, 2) {
      ExtendableIsFrontier(grid, p);
      LoopKeepsFew(open, p);
    } else {
      forall q | InInterior(w, h, q) && q !in open
        ensures Degree(q, open) < 2
      {
        if Degree(q, open) >= 2 {
          LoopsAreExtendable(grid, q);
        }
      }
      hide Extendable;
      FirstKeepsFew(w, h, open, p);
    }
  }

  /** Opens wall cells, loop-closing ones first, until the target count is reached.
      The "no candidate" failure cannot happen: the count ends exactly on target. */
  method OpenExtraCells(grid: array2<char>, walkable: nat, target: nat, rng: Rng) returns (r: Extra)
    requires Layout(grid, walkable) && walkable >= 1
    requires target <= |Interior(grid.Length1, grid.Length0)|
    modifies grid, rng
    ensures r.Opened? && r.walkable == if walkable < target then target else walkable
    ensures Layout(grid, r.walkable)
    ensures old(OpenCells(grid)) <= OpenCells(grid)
    ensures old(Lively(grid.Length1, grid.Length0, OpenCells(grid))) ==> Lively(grid.Length1, grid.Length0, OpenCells(grid))
  {
    hide Adjacent;
    hide OpenCells;
    hide Extendable;
    hide AllConnected;
    hide Lively;
    ghost var lively := Lively(grid.Length1, grid.Length0, OpenCells(grid));
    var count := walkable;
    while count < target
      invariant walkable <= count && (count <= target || count == walkable)
      invariant Layout(grid, count)
      invariant old(OpenCells(grid)) <= OpenCells(grid)
      invariant lively ==> Lively(grid.Length1, grid.Length0, OpenCells(grid))
    {
      var candidates, loops := ScanWalls(grid);
      if candidates == [] {
        NotFull(OpenCells(grid), Interior(grid.Length1, grid.Length0));
        SomeCandidate(grid);
        assert false;
        return NoCandidate;
      }
      var p := rng.Choose(if loops != [] then loops else candidates);
      PickedBesideOpen(grid, p);
      if lively {
        assert Extendable(grid, p, 2) || forall q :: !Extendable(grid, q, 2) by {
          NoneListed(grid, loops);
        }
        PickKeepsLively(grid, p);
      }
      Dig(grid, p);
      count := count + 1;
    }
    return Opened(count);
  }

  lemma NoneListed(grid: array2<char>, loops: seq<Point>)
    requires forall p :: p in loops <==> Extendable(grid, p, 2)
    ensures loops == [] ==> forall q :: !Extendable(grid, q, 2)
  {
    hide Extendable;
    if loops == [] {
      forall q
        ensures !Extendable(grid, q, 2)
      {
        assert q !in loops;
      }
    }
  }

  lemma NotFull(part: set<Point>, all: set<Point>)
    requires part <= all && |part| < |all|
    ensures part < all
  {
    assert all <= part ==> part == all;
  }

  lemma PickedBesideOpen(grid: array2<char>, p: Point)
    requires Extendable(grid, p, 1) || Extendable(grid, p, 2)
    requires AllConnected(OpenCells(grid))
    ensures InInterior(grid.Length1, grid.Length0, p) && p !in OpenCells(grid)
    ensures AllConnected(OpenCells(grid) + {p}) && |OpenCells(grid) + {p}| == |OpenCells(grid)| + 1
  {
    ExtendableIsFrontier(grid, p);
    var q :| q in OpenCells(grid) && Adjacent(p, q);
    GrowConnected(OpenCells(grid), p, q);
  }
}
