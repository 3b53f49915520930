/** Carving a perfect maze with an explicit stack, and opening extra cells. */
module Maze {
  import opened Integers
  import opened GridGraph
  import opened CycleRank

  /** The generator's random stream: any stream of words at all. */
  class Rng {
    var drawn: nat

    constructor ()
    {
      drawn := 0;
    }

    method NextWord() returns (word: nat)
      modifies this
    {
      word :| true;
      drawn := drawn + 1;
    }

    method Choose<T>(values: seq<T>) returns (v: T)
      requires values != []
      modifies this
      ensures v in values
    {
      var word := NextWord();
      v := values[word % |values|];
    }
  }

  predicate InInterior(width: int, height: int, p: Point) {
    1 <= p.x < width - 1 && 1 <= p.y < height - 1
  }

  function Interior(width: int, height: int): (r: set<Point>)
    ensures forall p :: p in r <==> InInterior(width, height, p)
  {
    set p | p in Box(width, height) && InInterior(width, height, p)
  }

  /** Rooms of the maze sit at odd interior coordinates. */
  predicate IsNode(width: int, height: int, p: Point) {
    InInterior(width, height, p) && p.x % 2 == 1 && p.y % 2 == 1
  }

  function Nodes(width: int, height: int): (r: set<Point>)
    ensures forall p :: p in r <==> IsNode(width, height, p)
  {
    set p | p in Interior(width, height) && IsNode(width, height, p)
  }

  /** Two cells away along one axis. */
  predicate TwoApart(p: Point, q: Point) {
    (p.x == q.x && (p.y == q.y + 2 || q.y == p.y + 2)) || (p.y == q.y && (p.x == q.x + 2 || q.x == p.x + 2))
  }

  function Between(p: Point, q: Point): Point {
    Point((p.x + q.x) / 2, (p.y + q.y) / 2)
  }

  function StepsFrom(p: Point): (r: seq<Point>)
    ensures forall q :: q in r <==> TwoApart(p, q)
  {
    var r := [Point(p.x + 2, p.y), Point(p.x - 2, p.y), Point(p.x, p.y + 2), Point(p.x, p.y - 2)];
    assert r[0] in r && r[1] in r && r[2] in r && r[3] in r;
    r
  }

  /** The unvisited rooms two steps away, in the order the steps are tried. */
  function Candidates(width: int, height: int, steps: seq<Point>, visited: set<Point>): (r: seq<Point>)
    ensures forall q :: q in r <==> q in steps && InInterior(width, height, q) && q !in visited
  {
    if steps == [] then []
    else if InInterior(width, height, steps[0]) && steps[0] !in visited then [steps[0]] + Candidates(width, height, steps[1..], visited)
    else Candidates(width, height, steps[1..], visited)
  }

  /** A passage cell between two visited rooms. */
  predicate Joins(visited: set<Point>, c: Point) {
    || (c.x % 2 == 0 && c.y % 2 == 1 && Point(c.x - 1, c.y) in visited && Point(c.x + 1, c.y) in visited)
    || (c.x % 2 == 1 && c.y % 2 == 0 && Point(c.x, c.y - 1) in visited && Point(c.x, c.y + 1) in visited)
  }

  /** The open cells are the visited rooms and one passage per visit, connected and
      with exactly the edges of a tree. */
  ghost predicate TreeSoFar(width: int, height: int, open: set<Point>, visited: set<Point>) {
    && Point(1, 1) in visited
    && visited <= Nodes(width, height)
    && visited <= open <= Interior(width, height)
    && (forall p :: p in open ==> p in visited || Joins(visited, p))
    && |open| == 2 * |visited| - 1
    && AllConnected(open)
    && DegreeSum(open, open) == 2 * |open| - 2
  }

  /** Off the stack, a visited room has no unvisited room two steps away. */
  ghost predicate Exhausted(width: int, height: int, visited: set<Point>, stack: seq<Point>) {
    && (forall p :: p in stack ==> p in visited)
    && forall p, q :: p in visited && p !in stack && IsNode(width, height, q) && TwoApart(p, q) ==> q in visited
  }

  lemma OneRoom(width: int, height: int)
    requires width >= 3 && height >= 3
    ensures TreeSoFar(width, height, {Point(1, 1)}, {Point(1, 1)})
    ensures Exhausted(width, height, {Point(1, 1)}, [Point(1, 1)])
  {
    var p := Point(1, 1);
    ConnectedSelf({p}, p);
    DegreeCounts(p, {p});
    assert Touching(p, {p}) == {};
    SumWithout({p}, {p}, p);
    assert {p} - {p} == {};
  }

  predicate Mixed(p: Point) {
    p.x % 2 != p.y % 2
  }

  lemma AdjacentFlips(p: Point, q: Point)
    requires Adjacent(p, q)
    ensures Mixed(p) != Mixed(q)
  {
  }

  /** The passage cell lies beside both rooms and beside no other room. */
  lemma PassageShape(width: int, height: int, p: Point, n: Point)
    requires IsNode(width, height, p) && IsNode(width, height, n) && TwoApart(p, n)
    ensures var c := Between(p, n);
      && Mixed(c) && InInterior(width, height, c) && Adjacent(p, c) && Adjacent(c, p) && Adjacent(c, n) && Adjacent(n, c)
      && (forall q :: Adjacent(c, q) && IsNode(width, height, q) ==> q == p || q == n)
      && (forall visited :: Joins(visited, c) <==> p in visited && n in visited)
  {
    var c := Between(p, n);
    assert (n == Point(p.x + 2, p.y) && c == Point(p.x + 1, p.y)) || (n == Point(p.x - 2, p.y) && c == Point(p.x - 1, p.y))
        || (n == Point(p.x, p.y + 2) && c == Point(p.x, p.y + 1)) || (n == Point(p.x, p.y - 2) && c == Point(p.x, p.y - 1));
  }

  /** A passage beside a room joins that room. */
  lemma PassageBesideRoom(width: int, height: int, visited: set<Point>, n: Point, q: Point)
    requires IsNode(width, height, n) && Adjacent(n, q) && Joins(visited, q)
    ensures n in visited
  {
  }

  /** Opening the passage to an unvisited room and the room itself. */
  lemma OpenRoom(width: int, height: int, open: set<Point>, visited: set<Point>, p: Point, n: Point)
    requires TreeSoFar(width, height, open, visited)
    requires p in visited && IsNode(width, height, n) && TwoApart(p, n) && n !in visited
    ensures var c := Between(p, n);
      && TreeSoFar(width, height, open + {c} + {n}, visited + {n})
      && c !in open && n !in open
  {
    hide Adjacent;
    hide TwoApart;
    hide Between;
    hide Joins;
    hide DegreeSum;
    hide Degree;
    hide AllConnected;
    var c := Between(p, n);
    RoomIsNew(width, height, open, visited, p, n);
    TouchesOnlyRoom(width, height, open, visited, p, n);
    GrowTwice(open, p, c, n);
    PassagesStay(open, visited, c, n);
  }

  lemma RoomIsNew(width: int, height: int, open: set<Point>, visited: set<Point>, p: Point, n: Point)
    requires TreeSoFar(width, height, open, visited)
    requires p in visited && IsNode(width, height, n) && TwoApart(p, n) && n !in visited
    ensures var c := Between(p, n);
      && c !in open && n !in open && c != n
      && Adjacent(c, p) && Adjacent(n, c) && Joins(visited + {n}, c)
      && c in Interior(width, height) && n in Interior(width, height) && n in Nodes(width, height)
  {
    hide Adjacent;
    hide TwoApart;
    hide Between;
    hide Joins;
    hide DegreeSum;
    hide AllConnected;
    var c := Between(p, n);
    assert p in Nodes(width, height);
    PassageShape(width, height, p, n);
    assert c in visited ==> c in Nodes(width, height);
    NotJoin(visited, n);
  }

  lemma PassagesStay(open: set<Point>, visited: set<Point>, c: Point, n: Point)
    requires forall p :: p in open ==> p in visited || Joins(visited, p)
    requires Joins(visited + {n}, c)
    ensures forall p :: p in open + {c} + {n} ==> p in visited + {n} || Joins(visited + {n}, p)
  {
    hide Joins;
    forall q | q in open + {c} + {n}
      ensures q in visited + {n} || Joins(visited + {n}, q)
    {
      if q in open && q !in visited {
        JoinsMore(visited, n, q);
      }
    }
  }

  /** Two cells hung one after the other on a connected set keep its tree shape. */
  lemma GrowTwice(open: set<Point>, p: Point, c: Point, n: Point)
    requires AllConnected(open) && p in open && c !in open && n !in open && c != n
    requires Adjacent(c, p) && Adjacent(n, c)
    requires Degree(c, open) == 1 && Degree(n, open + {c}) == 1
    ensures var more := open + {c} + {n};
      AllConnected(more) && |more| == |open| + 2 && DegreeSum(more, more) == DegreeSum(open, open) + 4
  {
    OpenOneCell(open, c);
    OpenOneCell(open + {c}, n);
    GrowConnected(open, c, p);
    GrowConnected(open + {c}, n, c);
  }

  lemma NotJoin(visited: set<Point>, n: Point)
    requires n.x % 2 == 1 && n.y % 2 == 1
    ensures !Joins(visited, n)
  {
  }

  lemma JoinsMore(visited: set<Point>, n: Point, q: Point)
    requires Joins(visited, q)
    ensures Joins(visited + {n}, q)
  {
  }

  /** The passage touches only the room it leaves. */
  lemma PassageTouches(width: int, height: int, open: set<Point>, visited: set<Point>, p: Point, n: Point)
    requires TreeSoFar(width, height, open, visited)
    requires p in visited && IsNode(width, height, n) && TwoApart(p, n) && n !in visited
    ensures Touching(Between(p, n), open) == {p}
  {
    hide Adjacent;
    hide TwoApart;
    hide Between;
    hide AllConnected;
    hide DegreeSum;
    var c := Between(p, n);
    assert p in Nodes(width, height);
    PassageShape(width, height, p, n);
    forall q | q in open && Adjacent(c, q)
      ensures q == p
    {
      AdjacentFlips(c, q);
      assert q in visited ==> q in Nodes(width, height);
      assert q in visited;
    }
  }

  /** The new room touches only the passage. */
  lemma RoomTouches(width: int, height: int, open: set<Point>, visited: set<Point>, p: Point, n: Point)
    requires TreeSoFar(width, height, open, visited)
    requires p in visited && IsNode(width, height, n) && TwoApart(p, n) && n !in visited
    ensures Touching(n, open + {Between(p, n)}) == {Between(p, n)}
  {
    hide Adjacent;
    hide TwoApart;
    hide Between;
    hide AllConnected;
    hide DegreeSum;
    var c := Between(p, n);
    assert p in Nodes(width, height);
    PassageShape(width, height, p, n);
    forall q | q in open + {c} && Adjacent(n, q)
      ensures q == c
    {
      AdjacentFlips(n, q);
      if q in open {
        assert q in visited ==> q in Nodes(width, height);
        PassageBesideRoom(width, height, visited, n, q);
      }
    }
  }

  lemma TouchesOnlyRoom(width: int, height: int, open: set<Point>, visited: set<Point>, p: Point, n: Point)
    requires TreeSoFar(width, height, open, visited)
    requires p in visited && IsNode(width, height, n) && TwoApart(p, n) && n !in visited
    ensures Degree(Between(p, n), open) == 1 && Degree(n, open + {Between(p, n)}) == 1
  {
    PassageTouches(width, height, open, visited, p, n);
    RoomTouches(width, height, open, visited, p, n);
    hide TreeSoFar;
    hide Touching;
    hide Degree;
    DegreeCounts(Between(p, n), open);
    DegreeCounts(n, open + {Between(p, n)});
  }

  /** From the first room every room is a chain of steps away. */
  lemma {:induction false} AllRoomsVisited(width: int, height: int, visited: set<Point>, p: Point)
    requires Point(1, 1) in visited && Exhausted(width, height, visited, [])
    requires IsNode(width, height, p)
    ensures p in visited
    decreases p.x + p.y
  {
    if p.x > 1 {
      var q := Point(p.x - 2, p.y);
      AllRoomsVisited(width, height, visited, q);
      assert TwoApart(q, p);
    } else if p.y > 1 {
      var q := Point(p.x, p.y - 2);
      AllRoomsVisited(width, height, visited, q);
      assert TwoApart(q, p);
    }
  }

  ghost predicate Injective(f: int -> int) {
    forall a, b :: f(a) == f(b) ==> a == b
  }

  /** `columns * rows` cells, both coordinates spaced by `f`. */
  ghost function Lattice(columns: int, rows: int, f: int -> int): set<Point> {
    set x: int, y: int | 0 <= x < columns && 0 <= y < rows :: Point(f(x), f(y))
  }

  ghost function LatticeRow(columns: int, y: int, f: int -> int): set<Point> {
    set x: int | 0 <= x < columns :: Point(f(x), f(y))
  }

  lemma {:induction false} LatticeRowSize(columns: nat, y: int, f: int -> int)
    requires Injective(f)
    ensures |LatticeRow(columns, y, f)| == columns
  {
    if columns > 0 {
      LatticeRowSize(columns - 1, y, f);
      assert LatticeRow(columns, y, f) == LatticeRow(columns - 1, y, f) + {Point(f(columns - 1), f(y))};
    } else {
      assert LatticeRow(columns, y, f) == {};
    }
  }

  function Area(columns: nat, rows: nat): nat {
    columns * rows
  }

  lemma {:induction false} LatticeSize(columns: nat, rows: nat, f: int -> int)
    requires Injective(f)
    ensures |Lattice(columns, rows, f)| == Area(columns, rows)
  {
    hide Lattice;
    hide LatticeRow;
    hide Injective;
    hide Area;
    if rows == 0 {
      NoRows(columns, f);
    } else {
      LatticeSize(columns, rows - 1, f);
      LatticeRowSize(columns, rows - 1, f);
      LatticeSplit(columns, rows, f);
      OneMoreRow(columns, rows);
    }
  }

  lemma NoRows(columns: nat, f: int -> int)
    ensures Lattice(columns, 0, f) == {} && Area(columns, 0) == 0
  {
  }

  lemma OneMoreRow(columns: nat, rows: nat)
    requires rows > 0
    ensures Area(columns, rows) == Area(columns, rows - 1) + columns
  {
  }

  lemma LatticeSplit(columns: nat, rows: nat, f: int -> int)
    requires Injective(f) && rows > 0
    ensures Lattice(columns, rows, f) == Lattice(columns, rows - 1, f) + LatticeRow(columns, rows - 1, f)
    ensures Lattice(columns, rows - 1, f) !! LatticeRow(columns, rows - 1, f)
  {
    forall p
      ensures p in Lattice(columns, rows, f) <==> p in Lattice(columns, rows - 1, f) || p in LatticeRow(columns, rows - 1, f)
    {
      if p in Lattice(columns, rows, f) {
        var x, y :| 0 <= x < columns && 0 <= y < rows && p == Point(f(x), f(y));
        if y == rows - 1 {
          assert p in LatticeRow(columns, rows - 1, f);
        }
      }
    }
  }

  lemma RoomsAreLattice(width: int, height: int)
    requires width >= 3 && height >= 3
    ensures Nodes(width, height) == Lattice((width - 1) / 2, (height - 1) / 2, (i: int) => 2 * i + 1)
  {
    var columns, rows, odd := (width - 1) / 2, (height - 1) / 2, (i: int) => 2 * i + 1;
    forall p
      ensures p in Nodes(width, height) <==> p in Lattice(columns, rows, odd)
    {
      if IsNode(width, height, p) {
        assert p == Point(odd(p.x / 2), odd(p.y / 2));
        assert 0 <= p.x / 2 < columns && 0 <= p.y / 2 < rows;
      }
    }
  }

  /** There are exactly as many rooms as odd columns times odd rows. */
  lemma RoomCount(width: int, height: int)
    requires width >= 3 && height >= 3
    ensures |Nodes(width, height)| == ((width - 1) / 2) * ((height - 1) / 2)
  {
    hide Lattice;
    hide Nodes;
    RoomsAreLattice(width, height);
    LatticeSize((width - 1) / 2, (height - 1) / 2, (i: int) => 2 * i + 1);
  }

  lemma InteriorIsLattice(width: int, height: int)
    requires width >= 2 && height >= 2
    ensures Interior(width, height) == Lattice(width - 2, height - 2, (i: int) => i + 1)
  {
    var next := (i: int) => i + 1;
    forall p
      ensures p in Interior(width, height) <==> p in Lattice(width - 2, height - 2, next)
    {
      if InInterior(width, height, p) {
        assert p == Point(next(p.x - 1), next(p.y - 1));
      }
    }
  }

  lemma InteriorCount(width: int, height: int)
    requires width >= 2 && height >= 2
    ensures |Interior(width, height)| == (width - 2) * (height - 2)
  {
    hide Lattice;
    hide Interior;
    InteriorIsLattice(width, height);
    LatticeSize(width - 2, height - 2, (i: int) => i + 1);
  }

  function PerfectMazeWalkableCount(width: int, height: int): int {
    var rooms := ((width - 1) / 2) * ((height - 1) / 2);
    Greatest(1, 2 * rooms - 1)
  }

  /** A finished carve: every room open, nothing on the border, connected, without
      cycles, and exactly the perfect maze's number of cells. */
  ghost predicate PerfectMaze(width: int, height: int, open: set<Point>) {
    && Nodes(width, height) <= open <= Interior(width, height)
    && (forall p :: p in open ==> p in Nodes(width, height) || Joins(Nodes(width, height), p))
    && AllConnected(open)
    && Acyclic(open) && Rank(open) == 0
    && |open| == PerfectMazeWalkableCount(width, height)
  }

  lemma CarveFinished(width: int, height: int, open: set<Point>, visited: set<Point>)
    requires width >= 3 && height >= 3
    requires TreeSoFar(width, height, open, visited) && Exhausted(width, height, visited, [])
    ensures PerfectMaze(width, height, open)
    ensures |open| == 2 * |visited| - 1
  {
    hide Adjacent;
    hide DegreeSum;
    hide Degree;
    hide AllConnected;
    hide Acyclic;
    hide Joins;
    forall p | p in Nodes(width, height)
      ensures p in visited
    {
      AllRoomsVisited(width, height, visited, p);
    }
    assert visited == Nodes(width, height);
    RoomCount(width, height);
    assert Point(1, 1) in open;
    RankNeverClamped(open);
    RankZeroIffAcyclic(open);
  }

  lemma Backtrack(width: int, height: int, visited: set<Point>, stack: seq<Point>)
    requires stack != [] && Exhausted(width, height, visited, stack)
    requires Candidates(width, height, StepsFrom(stack[|stack| - 1]), visited) == []
    requires visited <= Nodes(width, height)
    ensures Exhausted(width, height, visited, stack[..|stack| - 1])
  {
    var top, rest := stack[|stack| - 1], stack[..|stack| - 1];
    forall p, q | p in visited && p !in rest && IsNode(width, height, q) && TwoApart(p, q)
      ensures q in visited
    {
      if p == top {
        assert q in StepsFrom(top);
        assert q !in Candidates(width, height, StepsFrom(top), visited);
      } else {
        assert p !in stack;
      }
    }
  }

  lemma Advance(width: int, height: int, visited: set<Point>, stack: seq<Point>, n: Point)
    requires stack != [] && Exhausted(width, height, visited, stack)
    ensures Exhausted(width, height, visited + {n}, stack + [n])
  {
    assert (stack + [n])[|stack|] == n;
    assert forall p :: p in stack ==> p in stack + [n];
  }

  lemma StepIsRoom(width: int, height: int, p: Point, q: Point)
    requires IsNode(width, height, p) && TwoApart(p, q) && InInterior(width, height, q)
    ensures IsNode(width, height, q)
  {
  }

  /** The depth-first carve from (1, 1), with an explicit stack. */
  method CarveMaze(width: nat, height: nat, rng: Rng) returns (grid: array2<char>, walkable: nat)
    requires width >= 3 && height >= 3
    modifies rng
    ensures fresh(grid) && grid.Length1 == width && grid.Length0 == height
    ensures PerfectMaze(width, height, OpenCells(grid))
    ensures walkable == |OpenCells(grid)|
    ensures FloorAndWall(grid)
  {
    hide Adjacent;
    hide TwoApart;
    hide Between;
    hide TreeSoFar;
    hide Exhausted;
    hide OpenCells;
    hide IsNode;
    hide StepsFrom;
    hide Candidates;
    hide PerfectMaze;
    grid := new char[height, width]((_, _) => '#');
    var start := Point(1, 1);
    assert OpenCells(grid) == {};
    Dig(grid, start);
    var visited, stack := {start}, [start];
    walkable := 1;
    OneRoom(width, height);
    while stack != []
      invariant TreeSoFar(width, height, OpenCells(grid), visited)
      invariant Exhausted(width, height, visited, stack)
      invariant walkable == 2 * |visited| - 1
      invariant FloorAndWall(grid)
      decreases Nodes(width, height) - visited, |stack|
    {
      var p := stack[|stack| - 1];
      TopIsRoom(width, height, OpenCells(grid), visited, stack);
      var options := Candidates(width, height, StepsFrom(p), visited);
      if options == [] {
        Backtrack(width, height, visited, stack);
        stack := stack[..|stack| - 1];
      } else {
        var n := rng.Choose(options);
        StepIsRoom(width, height, p, n);
        var c := Between(p, n);
        OpenRoom(width, height, OpenCells(grid), visited, p, n);
        InsideFacts(width, height, OpenCells(grid) + {c} + {n}, visited + {n}, c);
        InsideFacts(width, height, OpenCells(grid) + {c} + {n}, visited + {n}, n);
        Dig(grid, c);
        Dig(grid, n);
        Advance(width, height, visited, stack, n);
        assert n in Nodes(width, height) - visited;
        visited := visited + {n};
        stack := stack + [n];
        walkable := walkable + 2;
      }
    }
    CarveFinished(width, height, OpenCells(grid), visited);
  }

  lemma TopIsRoom(width: int, height: int, open: set<Point>, visited: set<Point>, stack: seq<Point>)
    requires stack != [] && TreeSoFar(width, height, open, visited) && Exhausted(width, height, visited, stack)
    ensures stack[|stack| - 1] in visited && IsNode(width, height, stack[|stack| - 1]) && visited <= Nodes(width, height)
  {
    assert stack[|stack| - 1] in stack;
    assert stack[|stack| - 1] in Nodes(width, height);
  }

  lemma InsideFacts(width: int, height: int, open: set<Point>, visited: set<Point>, p: Point)
    requires TreeSoFar(width, height, open, visited) && p in open
    ensures 1 <= p.x < width - 1 && 1 <= p.y < height - 1
  {
    assert p in Interior(width, height);
  }

  /** The whole interior is connected. */
  lemma {:induction false} InteriorReachesCorner(width: int, height: int, p: Point)
    requires InInterior(width, height, p)
    ensures Connected(Interior(width, height), p, Point(1, 1))
    decreases p.x + p.y
  {
    var all := Interior(width, height);
    if p == Point(1, 1) {
      ConnectedSelf(all, p);
    } else {
      var q := if p.x > 1 then Point(p.x - 1, p.y) else Point(p.x, p.y - 1);
      InteriorReachesCorner(width, height, q);
      ConnectedStep(all, p, q);
      ConnectedTrans(all, p, q, Point(1, 1));
    }
  }

  lemma InteriorConnected(width: int, height: int)
    ensures AllConnected(Interior(width, height))
  {
    forall p | p in Interior(width, height)
      ensures Connected(Interior(width, height), p, Point(1, 1))
    {
      InteriorReachesCorner(width, height, p);
    }
    HubConnects(Interior(width, height), Point(1, 1));
  }
}
