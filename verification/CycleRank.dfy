/** Neighbour degrees, edge count and cycle rank of a set of open cells. */
module CycleRank {
  import opened Integers
  import opened GridGraph

  function Degree(p: Point, open: set<Point>): nat {
    |Neighbors(p, open)|
  }

  /** The sum of the degrees, within `open`, of the cells of `s`. */
  function DegreeSum(s: set<Point>, open: set<Point>): nat {
    if s == {} then 0
    else
      RowFirst(s);
      var p :| p in s && forall q :: q in s ==> RowLe(p, q);
      Degree(p, open) + DegreeSum(s - {p}, open)
  }

  function EdgeCount(open: set<Point>): nat {
    DegreeSum(open, open) / 2
  }

  /** The diagnostic the quality gate reports. */
  function Rank(open: set<Point>): nat {
    Clamped(EdgeCount(open) - |open| + 1)
  }

  /** Cells with at most one open neighbour. */
  function DeadEnds(open: set<Point>): set<Point> {
    set p | p in open && Degree(p, open) <= 1
  }

  function Touching(p: Point, s: set<Point>): set<Point> {
    set q | q in s && Adjacent(p, q)
  }

  lemma {:induction false} DistinctLength(s: seq<Point>)
    requires forall i, j :: 0 <= i < j < |s| ==> s[i] != s[j]
    ensures |set q | q in s| == |s|
  {
    if s != [] {
      var n := |s| - 1;
      DistinctLength(s[..n]);
      assert (set q | q in s) == (set q | q in s[..n]) + {s[n]};
      assert s[n] !in s[..n];
    } else {
      assert (set q | q in s) == {};
    }
  }

  lemma {:induction false} KeepDistinct(s: seq<Point>, open: set<Point>)
    requires forall i, j :: 0 <= i < j < |s| ==> s[i] != s[j]
    ensures forall i, j :: 0 <= i < j < |Keep(s, open)| ==> Keep(s, open)[i] != Keep(s, open)[j]
  {
    if s != [] {
      KeepDistinct(s[1..], open);
      assert s[0] !in s[1..];
      var rest := Keep(s[1..], open);
      assert forall i :: 0 <= i < |rest| ==> rest[i] in rest;
    }
  }

  /** A degree counts the open neighbours. */
  lemma DegreeCounts(p: Point, open: set<Point>)
    ensures Degree(p, open) == |Touching(p, open)|
  {
    var ns := Neighbors(p, open);
    var a := Around(p);
    assert a == [Point(p.x + 1, p.y), Point(p.x - 1, p.y), Point(p.x, p.y + 1), Point(p.x, p.y - 1)];
    KeepDistinct(a, open);
    DistinctLength(ns);
    assert (set q | q in ns) == Touching(p, open);
  }

  /** Any cell may be summed first. */
  lemma {:induction false} SumWithout(s: set<Point>, open: set<Point>, p: Point)
    requires p in s
    ensures DegreeSum(s, open) == Degree(p, open) + DegreeSum(s - {p}, open)
  {
    RowFirst(s);
    var first :| first in s && (forall q :: q in s ==> RowLe(first, q)) && DegreeSum(s, open) == Degree(first, open) + DegreeSum(s - {first}, open);
    if first != p {
      SumWithout(s - {first}, open, p);
      SumWithout(s - {p}, open, first);
      assert s - {first} - {p} == s - {p} - {first};
    }
  }

  lemma AdjacentBothWays(p: Point, q: Point)
    ensures Adjacent(p, q) <==> Adjacent(q, p)
  {
  }

  /** A new cell raises the degrees of exactly the cells it touches. */
  lemma {:induction false} SumGrows(s: set<Point>, open: set<Point>, p: Point)
    requires p !in open
    ensures DegreeSum(s, open + {p}) == DegreeSum(s, open) + |Touching(p, s)|
  {
    if s == {} {
      assert Touching(p, s) == {};
    } else {
      hide DegreeSum;
      hide Degree;
      var q :| q in s;
      SumGrows(s - {q}, open, p);
      SumWithout(s, open, q);
      SumWithout(s, open + {p}, q);
      DegreeCounts(q, open);
      DegreeCounts(q, open + {p});
      hide Adjacent;
      AdjacentBothWays(p, q);
      if Adjacent(q, p) {
        assert Touching(q, open + {p}) == Touching(q, open) + {p};
        assert Touching(p, s) == Touching(p, s - {q}) + {q};
      } else {
        assert Touching(q, open + {p}) == Touching(q, open);
        assert Touching(p, s) == Touching(p, s - {q});
      }
    }
  }

  /** Opening a cell adds one edge for every open neighbour. */
  lemma OpenOneCell(open: set<Point>, p: Point)
    requires p !in open
    ensures DegreeSum(open + {p}, open + {p}) == DegreeSum(open, open) + 2 * Degree(p, open)
  {
    var more := open + {p};
    SumWithout(more, more, p);
    assert more - {p} == open;
    SumGrows(open, open, p);
    DegreeCounts(p, open);
    DegreeCounts(p, more);
    assert Touching(p, more) == Touching(p, open);
  }

  /** Handshake: the degree sum is even. */
  lemma {:induction false} DegreeSumEven(open: set<Point>)
    ensures DegreeSum(open, open) % 2 == 0
  {
    if open != {} {
      var p :| p in open;
      DegreeSumEven(open - {p});
      OpenOneCell(open - {p}, p);
      assert open - {p} + {p} == open;
    }
  }

  /** A connected set that has a proper non-empty part has an open cell beside it. */
  lemma Frontier(open: set<Point>, part: set<Point>) returns (p: Point, beside: Point)
    requires AllConnected(open) && part < open && part != {}
    ensures p in open - part && beside in part && Adjacent(p, beside)
  {
    if forall u, v :: u in part && v in open && Adjacent(u, v) ==> v in part {
      var u :| u in part;
      assert !(open <= part);
      var v :| v in open && v !in part;
      assert Connected(open, u, v);
      ClosedContains(open, part, u, v);
      assert false;
    } else {
      var u, v :| u in part && v in open && Adjacent(u, v) && v !in part;
      p, beside := v, u;
    }
  }

  /** The surplus of edges over cells never shrinks as a connected set is filled in
      from a non-empty part. */
  lemma {:induction false} SurplusGrows(open: set<Point>, part: set<Point>)
    requires AllConnected(open) && part <= open && part != {}
    ensures DegreeSum(open, open) - 2 * |open| >= DegreeSum(part, part) - 2 * |part|
    decreases open - part
  {
    if part != open {
      var p, beside := Frontier(open, part);
      DegreeCounts(p, part);
      assert beside in Touching(p, part);
      OpenOneCell(part, p);
      SurplusGrows(open, part + {p});
    }
  }

  /** On a connected set there are at least as many edges as a tree needs, so the
      clamp at zero in the rank never bites. */
  lemma RankNeverClamped(open: set<Point>)
    requires AllConnected(open) && open != {}
    ensures EdgeCount(open) - |open| + 1 >= 0
    ensures Rank(open) == EdgeCount(open) - |open| + 1
  {
    var p :| p in open;
    SurplusGrows(open, {p});
    SumWithout({p}, {p}, p);
    assert {p} - {p} == {};
    DegreeSumEven(open);
  }

  /** A closed walk of at least three distinct cells. */
  ghost predicate IsCycle(open: set<Point>, c: seq<Point>) {
    && |c| >= 3
    && (forall i :: 0 <= i < |c| ==> c[i] in open)
    && (forall i, j :: 0 <= i < j < |c| ==> c[i] != c[j])
    && (forall i :: 0 <= i < |c| - 1 ==> Adjacent(c[i], c[i + 1]))
    && Adjacent(c[|c| - 1], c[0])
  }

  ghost predicate Acyclic(open: set<Point>) {
    forall c :: !IsCycle(open, c)
  }

  /** Cutting out a repetition shortens a path; repeated, it leaves a simple one. */
  lemma {:induction false} SimplePath(open: set<Point>, path: seq<Point>, u: Point, v: Point) returns (simple: seq<Point>)
    requires PathFromTo(open, path, u, v)
    ensures PathFromTo(open, simple, u, v)
    ensures forall i, j :: 0 <= i < j < |simple| ==> simple[i] != simple[j]
    decreases |path|
  {
    if i, j :| 0 <= i < j < |path| && path[i] == path[j] {
      var shorter := path[..i] + path[j..];
      forall k | 0 <= k < |shorter| - 1
        ensures Adjacent(shorter[k], shorter[k + 1])
      {
        if k < i - 1 {
        } else if k == i - 1 {
          assert shorter[k] == path[i - 1] && shorter[k + 1] == path[j];
        } else {
          assert shorter[k] == path[k - i + j] && shorter[k + 1] == path[k + 1 - i + j];
        }
      }
      simple := SimplePath(open, shorter, u, v);
    } else {
      simple := path;
    }
  }

  /** A cell touching a connected part in two places closes a cycle. */
  lemma TwoTouchesMakeCycle(open: set<Point>, part: set<Point>, p: Point, a: Point, b: Point)
    requires part <= open && p in open - part && AllConnected(part)
    requires a in part && b in part && a != b && Adjacent(p, a) && Adjacent(p, b)
    ensures !Acyclic(open)
  {
    assert Connected(part, a, b);
    var path :| PathFromTo(part, path, a, b);
    var simple := SimplePath(part, path, a, b);
    var c := simple + [p];
    assert IsCycle(open, c) by {
      assert |simple| >= 2;
      forall i | 0 <= i < |c| - 1
        ensures Adjacent(c[i], c[i + 1])
      {
        if i == |simple| - 1 {
          assert c[i] == b && c[i + 1] == p;
        }
      }
    }
  }

  /** Without cycles every frontier cell touches the part exactly once. */
  lemma {:induction false} SurplusStays(open: set<Point>, part: set<Point>)
    requires AllConnected(open) && AllConnected(part) && part <= open && part != {} && Acyclic(open)
    ensures DegreeSum(open, open) - 2 * |open| == DegreeSum(part, part) - 2 * |part|
    decreases open - part
  {
    hide Adjacent;
    hide DegreeSum;
    hide Degree;
    hide Acyclic;
    hide AllConnected;
    if part != open {
      var p, beside := Frontier(open, part);
      DegreeCounts(p, part);
      AdjacentBothWays(p, beside);
      assert beside in Touching(p, part);
      if other :| other in Touching(p, part) && other != beside {
        TwoTouchesMakeCycle(open, part, p, beside, other);
      }
      assert Touching(p, part) == {beside};
      OpenOneCell(part, p);
      GrowConnected(part, p, beside);
      SurplusStays(open, part + {p});
    }
  }

  lemma {:induction false} SumAtLeastTwo(s: set<Point>, open: set<Point>)
    requires forall p :: p in s ==> Degree(p, open) >= 2
    ensures DegreeSum(s, open) >= 2 * |s|
  {
    if s != {} {
      var p :| p in s;
      SumAtLeastTwo(s - {p}, open);
      SumWithout(s, open, p);
    }
  }

  /** Every cell of a cycle has its two cycle neighbours. */
  lemma CycleDegrees(c: seq<Point>, open: set<Point>, i: nat)
    requires IsCycle(open, c) && i < |c|
    ensures Degree(c[i], set q | q in c) >= 2
  {
    hide Adjacent;
    var cells := set q | q in c;
    var prev := if i == 0 then c[|c| - 1] else c[i - 1];
    var next := if i == |c| - 1 then c[0] else c[i + 1];
    AdjacentBothWays(c[i], prev);
    AdjacentBothWays(c[i], next);
    assert {prev, next} <= Touching(c[i], cells);
    DegreeCounts(c[i], cells);
    TwoOrMore(prev, next, Touching(c[i], cells));
  }

  lemma TwoOrMore(a: Point, b: Point, s: set<Point>)
    requires a != b && {a, b} <= s
    ensures |s| >= 2
  {
    assert |s - {a, b}| + 2 == |s|;
  }

  /** The reported rank is zero exactly for the acyclic layouts. */
  lemma RankZeroIffAcyclic(open: set<Point>)
    requires AllConnected(open) && open != {}
    ensures Rank(open) == 0 <==> Acyclic(open)
  {
    RankNeverClamped(open);
    DegreeSumEven(open);
    if Acyclic(open) {
      var p :| p in open;
      ConnectedSelf({p}, p);
      SurplusStays(open, {p});
      DegreeCounts(p, {p});
      assert Touching(p, {p}) == {};
      SumWithout({p}, {p}, p);
      assert {p} - {p} == {};
    } else {
      var c :| IsCycle(open, c);
      var cells := set q | q in c;
      forall p | p in cells
        ensures Degree(p, cells) >= 2
      {
        var i :| 0 <= i < |c| && c[i] == p;
        CycleDegrees(c, open, i);
      }
      SumAtLeastTwo(cells, cells);
      assert c[0] in cells;
      SurplusGrows(open, cells);
    }
  }
}
