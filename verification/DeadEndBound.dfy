/** A generated layout never has more than half dead ends. */
module DeadEndBound {
  import opened GridGraph
  import opened CycleRank
  import opened Maze

  ghost predicate FewDeadEnds(open: set<Point>) {
    2 * |DeadEnds(open)| <= |open|
  }

  lemma TwoOpenNeighbours(p: Point, a: Point, b: Point, open: set<Point>)
    requires a in open && b in open && a != b && Adjacent(p, a) && Adjacent(p, b)
    ensures Degree(p, open) >= 2
  {
    hide Adjacent;
    DegreeCounts(p, open);
    TwoOrMore(a, b, Touching(p, open));
  }

  // ---- The carve.

  /** A passage joins two rooms, so only rooms are dead ends. */
  lemma PassagesGoThrough(width: int, height: int, open: set<Point>, p: Point)
    requires Nodes(width, height) <= open && p in open && Joins(Nodes(width, height), p)
    ensures Degree(p, open) >= 2
  {
    if p.x % 2 == 0 && p.y % 2 == 1 {
      TwoOpenNeighbours(p, Point(p.x - 1, p.y), Point(p.x + 1, p.y), open);
    } else {
      TwoOpenNeighbours(p, Point(p.x, p.y - 1), Point(p.x, p.y + 1), open);
    }
  }

  lemma OnlyNeighbour(p: Point, a: Point, b: Point, open: set<Point>)
    requires Degree(p, open) <= 1 && a in open && b in open && Adjacent(p, a) && Adjacent(p, b)
    ensures a == b
  {
    if a != b {
      TwoOpenNeighbours(p, a, b, open);
    }
  }

  /** Everything two steps from the first room, at most. */
  ghost function NearCorner(open: set<Point>): set<Point> {
    set q | q in open && (q == Point(1, 1) || Adjacent(Point(1, 1), q) || exists c :: c in open && Adjacent(Point(1, 1), c) && Adjacent(c, q))
  }

  /** If every room had one neighbour, two steps from the corner would be all there is. */
  lemma NearCornerClosed(width: int, height: int, open: set<Point>)
    requires PerfectMaze(width, height, open) && forall p :: p in Nodes(width, height) ==> Degree(p, open) <= 1
    ensures ClosedIn(open, NearCorner(open))
  {
    hide Acyclic;
    hide AllConnected;
    hide Rank;
    hide Degree;
    var u, part := Point(1, 1), NearCorner(open);
    forall q, r | q in part && r in open && Adjacent(q, r)
      ensures r in part
    {
      if q != u && !Adjacent(u, q) {
        var c :| c in open && Adjacent(u, c) && Adjacent(c, q);
        AdjacentFlips(u, c);
        AdjacentFlips(c, q);
        assert q in Nodes(width, height);
        AdjacentBothWays(c, q);
        OnlyNeighbour(q, c, r, open);
      }
    }
  }

  lemma FarFromCorner(open: set<Point>)
    ensures Point(3, 3) !in NearCorner(open)
  {
  }

  lemma CornerAndBeyond(width: int, height: int, open: set<Point>)
    requires width >= 7 && height >= 7 && PerfectMaze(width, height, open)
    ensures Point(1, 1) in Nodes(width, height) && Point(1, 1) in NearCorner(open) && Connected(open, Point(1, 1), Point(3, 3))
  {
    hide Connected;
    hide Adjacent;
    hide Acyclic;
    hide Rank;
    assert Point(1, 1) in Nodes(width, height) && Point(3, 3) in Nodes(width, height);
  }

  lemma SomeRoomGoesOn(width: int, height: int, open: set<Point>) returns (p: Point)
    requires width >= 7 && height >= 7 && PerfectMaze(width, height, open)
    ensures p in Nodes(width, height) && Degree(p, open) >= 2
  {
    hide Connected;
    hide ClosedIn;
    hide NearCorner;
    hide Degree;
    hide Nodes;
    CornerAndBeyond(width, height, open);
    if p' :| p' in Nodes(width, height) && Degree(p', open) >= 2 {
      p := p';
    } else {
      NearCornerClosed(width, height, open);
      hide PerfectMaze;
      FarFromCorner(open);
      ClosedContains(open, NearCorner(open), Point(1, 1), Point(3, 3));
    }
  }

  /** A perfect maze has fewer dead ends than rooms, and one passage for every room but
      one, so at most half its cells are dead ends. */
  lemma PerfectMazeFew(width: int, height: int, open: set<Point>)
    requires width >= 7 && height >= 7 && PerfectMaze(width, height, open)
    ensures FewDeadEnds(open)
  {
    hide Degree;
    hide Adjacent;
    hide Acyclic;
    hide AllConnected;
    hide Rank;
    var rooms, dead := Nodes(width, height), DeadEnds(open);
    var p := SomeRoomGoesOn(width, height, open);
    forall q | q in dead
      ensures q in rooms - {p}
    {
      if q !in rooms {
        PassagesGoThrough(width, height, open, q);
      }
    }
    SubsetSize(dead, rooms - {p});
    RoomCount(width, height);
    assert |rooms - {p}| == |rooms| - 1;
  }

  // ---- Extra cells.

  lemma DegreeGrows(q: Point, open: set<Point>, p: Point)
    ensures Degree(q, open) <= Degree(q, open + {p})
  {
    hide Adjacent;
    DegreeCounts(q, open);
    DegreeCounts(q, open + {p});
    SubsetSize(Touching(q, open), Touching(q, open + {p}));
  }

  /** A cell that closes a loop is no dead end and makes none. */
  lemma LoopKeepsFew(open: set<Point>, p: Point)
    requires FewDeadEnds(open) && p !in open && Degree(p, open) >= 2
    ensures FewDeadEnds(open + {p})
  {
    hide Degree;
    var more := open + {p};
    DegreeGrows(p, open, p);
    forall q | q in DeadEnds(more)
      ensures q in DeadEnds(open)
    {
      DegreeGrows(q, open, p);
    }
    SubsetSize(DeadEnds(more), DeadEnds(open));
  }

  /** Every interior wall cell has at most one open neighbour: no loop is left to close. */
  ghost predicate NoLoopLeft(width: int, height: int, open: set<Point>) {
    forall q :: InInterior(width, height, q) && q !in open ==> Degree(q, open) < 2
  }

  lemma MustBeOpen(width: int, height: int, open: set<Point>, q: Point, a: Point, b: Point)
    requires NoLoopLeft(width, height, open) && InInterior(width, height, q)
    requires a in open && b in open && a != b && Adjacent(q, a) && Adjacent(q, b)
    ensures q in open
  {
    TwoOpenNeighbours(q, a, b, open);
  }

  /** The last column, or row, of rooms. */
  function LastRoom(size: int): int {
    2 * ((size - 1) / 2) - 1
  }

  /** With no loop left every cell among the rooms is open. */
  lemma RoomsFilled(width: int, height: int, open: set<Point>, p: Point)
    requires width >= 7 && height >= 7 && Nodes(width, height) <= open && NoLoopLeft(width, height, open)
    requires 1 <= p.x <= LastRoom(width) && 1 <= p.y <= LastRoom(height)
    ensures p in open
  {
    hide NoLoopLeft;
    var w, e, n, s := Point(p.x - 1, p.y), Point(p.x + 1, p.y), Point(p.x, p.y - 1), Point(p.x, p.y + 1);
    if p.x % 2 == 1 && p.y % 2 == 1 {
      assert IsNode(width, height, p);
    } else if p.x % 2 == 0 {
      if p.y % 2 == 0 {
        RoomsFilledBeside(width, height, open, w);
        RoomsFilledBeside(width, height, open, e);
      } else {
        assert IsNode(width, height, w) && IsNode(width, height, e);
      }
      MustBeOpen(width, height, open, p, w, e);
    } else {
      RoomsFilledBeside(width, height, open, p);
    }
  }

  lemma RoomsFilledBeside(width: int, height: int, open: set<Point>, p: Point)
    requires width >= 7 && height >= 7 && Nodes(width, height) <= open && NoLoopLeft(width, height, open)
    requires 1 <= p.x <= LastRoom(width) && 1 <= p.y <= LastRoom(height) && p.x % 2 == 1 && p.y % 2 == 0
    ensures p in open
  {
    hide NoLoopLeft;
    var n, s := Point(p.x, p.y - 1), Point(p.x, p.y + 1);
    assert IsNode(width, height, n) && IsNode(width, height, s);
    MustBeOpen(width, height, open, p, n, s);
  }

  /** With no loop left there is no dead end: the rooms' rectangle is full, and what is
      open along its far sides is open beside it too. */
  lemma NoLoopNoDeadEnd(width: int, height: int, open: set<Point>, p: Point)
    requires width >= 7 && height >= 7 && Nodes(width, height) <= open <= Interior(width, height)
    requires NoLoopLeft(width, height, open) && p in open
    ensures Degree(p, open) >= 2
  {
    hide NoLoopLeft;
    hide Degree;
    var X, Y := LastRoom(width), LastRoom(height);
    assert InInterior(width, height, p) && width - 2 <= X + 1 && height - 2 <= Y + 1 && X >= 5 && Y >= 5;
    var dx, dy := if p.x < X then p.x + 1 else p.x - 1, if p.y < Y then p.y + 1 else p.y - 1;
    if p.x <= X && p.y <= Y {
      var a, b := Point(dx, p.y), Point(p.x, dy);
      RoomsFilled(width, height, open, a);
      RoomsFilled(width, height, open, b);
      TwoOpenNeighbours(p, a, b, open);
    } else if p.x <= X {
      var a, b, below := Point(p.x, Y), Point(dx, p.y), Point(dx, Y);
      RoomsFilled(width, height, open, a);
      RoomsFilled(width, height, open, below);
      MustBeOpen(width, height, open, b, p, below);
      TwoOpenNeighbours(p, a, b, open);
    } else if p.y <= Y {
      var a, b, beside := Point(X, p.y), Point(p.x, dy), Point(X, dy);
      RoomsFilled(width, height, open, a);
      RoomsFilled(width, height, open, beside);
      MustBeOpen(width, height, open, b, p, beside);
      TwoOpenNeighbours(p, a, b, open);
    } else {
      var a, b, corner := Point(X, p.y), Point(p.x, Y), Point(X, Y);
      RoomsFilled(width, height, open, corner);
      MustBeOpen(width, height, open, a, p, corner);
      MustBeOpen(width, height, open, b, p, corner);
      TwoOpenNeighbours(p, a, b, open);
    }
  }

  /** So the first cell opened after that is the only dead end. */
  lemma FirstKeepsFew(width: int, height: int, open: set<Point>, p: Point)
    requires width >= 7 && height >= 7 && Nodes(width, height) <= open <= Interior(width, height)
    requires NoLoopLeft(width, height, open) && p !in open
    ensures FewDeadEnds(open + {p})
  {
    hide Degree;
    hide NoLoopLeft;
    var more := open + {p};
    forall q | q in DeadEnds(more)
      ensures q in {p}
    {
      if q in open {
        NoLoopNoDeadEnd(width, height, open, q);
        DegreeGrows(q, open, p);
      }
    }
    SubsetSize(DeadEnds(more), {p});
    assert Point(1, 1) in Nodes(width, height);
    assert Point(1, 1) in open;
  }
}
