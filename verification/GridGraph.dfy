/** Cells of a grid, the four-neighbour relation, paths and connectivity. */
module GridGraph {

  datatype Point = Point(x: int, y: int)

  predicate Adjacent(p: Point, q: Point) {
    (p.x == q.x && (p.y == q.y + 1 || q.y == p.y + 1)) || (p.y == q.y && (p.x == q.x + 1 || q.x == p.x + 1))
  }

  /** The four cardinal steps, in the order every loop tries them. */
  function Around(p: Point): (r: seq<Point>)
    ensures |r| == 4
    ensures forall q :: q in r <==> Adjacent(p, q)
  {
    var r := [Point(p.x + 1, p.y), Point(p.x - 1, p.y), Point(p.x, p.y + 1), Point(p.x, p.y - 1)];
    assert r[0] in r && r[1] in r && r[2] in r && r[3] in r;
    r
  }

  function Keep(s: seq<Point>, open: set<Point>): (r: seq<Point>)
    ensures forall q :: q in r <==> q in s && q in open
    ensures |r| <= |s|
  {
    if s == [] then []
    else if s[0] in open then [s[0]] + Keep(s[1..], open)
    else Keep(s[1..], open)
  }

  function Neighbors(p: Point, open: set<Point>): (r: seq<Point>)
    ensures forall q :: q in r <==> q in open && Adjacent(p, q)
  {
    Keep(Around(p), open)
  }

  function CellsOf(s: seq<Point>): set<Point> {
    set p | p in s
  }

  ghost predicate IsPath(open: set<Point>, path: seq<Point>) {
    && path != []
    && (forall i :: 0 <= i < |path| ==> path[i] in open)
    && forall i :: 0 <= i < |path| - 1 ==> Adjacent(path[i], path[i + 1])
  }

  ghost predicate PathFromTo(open: set<Point>, path: seq<Point>, u: Point, v: Point) {
    IsPath(open, path) && path[0] == u && path[|path| - 1] == v
  }

  ghost predicate Connected(open: set<Point>, u: Point, v: Point) {
    exists path :: PathFromTo(open, path, u, v)
  }

  ghost predicate AllConnected(open: set<Point>) {
    forall u, v :: u in open && v in open ==> Connected(open, u, v)
  }

  /** `part` has no open neighbour outside itself. */
  ghost predicate ClosedIn(open: set<Point>, part: set<Point>) {
    part <= open && forall u, v :: u in part && v in open && Adjacent(u, v) ==> v in part
  }

  lemma ConnectedSelf(open: set<Point>, u: Point)
    requires u in open
    ensures Connected(open, u, u)
  {
    assert PathFromTo(open, [u], u, u);
  }

  lemma ConnectedStep(open: set<Point>, u: Point, v: Point)
    requires u in open && v in open && Adjacent(u, v)
    ensures Connected(open, u, v)
  {
    assert PathFromTo(open, [u, v], u, v);
  }

  lemma ConnectedTrans(open: set<Point>, u: Point, v: Point, w: Point)
    requires Connected(open, u, v) && Connected(open, v, w)
    ensures Connected(open, u, w)
  {
    var a :| PathFromTo(open, a, u, v);
    var b :| PathFromTo(open, b, v, w);
    var c := a + b[1..];
    forall i | 0 <= i < |c| - 1
      ensures Adjacent(c[i], c[i + 1])
    {
      if i >= |a| - 1 {
        assert c[i] == b[i - |a| + 1];
        assert c[i + 1] == b[i - |a| + 2];
      }
    }
    assert PathFromTo(open, c, u, w);
  }

  lemma ConnectedSym(open: set<Point>, u: Point, v: Point)
    requires Connected(open, u, v)
    ensures Connected(open, v, u)
  {
    var a :| PathFromTo(open, a, u, v);
    var b := seq(|a|, i requires 0 <= i < |a| => a[|a| - 1 - i]);
    assert PathFromTo(open, b, v, u);
  }

  lemma ConnectedMore(open: set<Point>, more: set<Point>, u: Point, v: Point)
    requires Connected(open, u, v) && open <= more
    ensures Connected(more, u, v)
  {
    var a :| PathFromTo(open, a, u, v);
    assert PathFromTo(more, a, u, v);
  }

  /** Nothing leaves a closed part. */
  lemma ClosedContains(open: set<Point>, part: set<Point>, u: Point, v: Point)
    requires ClosedIn(open, part) && u in part && Connected(open, u, v)
    ensures v in part
  {
    var a :| PathFromTo(open, a, u, v);
    var i := 0;
    while i < |a| - 1
      invariant 0 <= i < |a| && a[i] in part
    {
      assert Adjacent(a[i], a[i + 1]);
      i := i + 1;
    }
  }

  /** A set all of whose cells reach one cell is connected. */
  lemma HubConnects(open: set<Point>, hub: Point)
    requires forall u :: u in open ==> Connected(open, u, hub)
    ensures AllConnected(open)
  {
    forall u, v | u in open && v in open
      ensures Connected(open, u, v)
    {
      ConnectedSym(open, v, hub);
      ConnectedTrans(open, u, hub, v);
    }
  }

  /** Opening one more cell beside an open one keeps everything connected. */
  lemma GrowConnected(open: set<Point>, p: Point, beside: Point)
    requires AllConnected(open) && beside in open && Adjacent(p, beside)
    ensures AllConnected(open + {p})
  {
    var more := open + {p};
    ConnectedStep(more, p, beside);
    forall u | u in more
      ensures Connected(more, u, beside)
    {
      if u in open {
        assert Connected(open, u, beside);
        ConnectedMore(open, more, u, beside);
      }
    }
    HubConnects(more, beside);
  }

  lemma SubsetSize(a: set<Point>, b: set<Point>)
    requires a <= b
    ensures |a| <= |b|
  {
    assert b == a + (b - a);
  }

  /** The order in which the program sorts cells: by row, then by column. */
  predicate RowLe(p: Point, q: Point) {
    p.y < q.y || (p.y == q.y && p.x <= q.x)
  }

  lemma {:induction false} RowFirst(s: set<Point>)
    requires s != {}
    ensures exists p :: p in s && forall q :: q in s ==> RowLe(p, q)
  {
    var a :| a in s;
    var rest := s - {a};
    if rest == {} {
      forall q | q in s
        ensures RowLe(a, q)
      {
        assert q == a || q in rest;
      }
    } else {
      RowFirst(rest);
      var b :| b in rest && forall q :: q in rest ==> RowLe(b, q);
      var least := if RowLe(a, b) then a else b;
      forall q | q in s
        ensures RowLe(least, q)
      {
        assert q == a || q in rest;
      }
      assert least in s;
    }
  }

  /** The cells of a set, sorted. */
  function RowMajor(s: set<Point>): (r: seq<Point>)
    ensures forall q :: q in r <==> q in s
    ensures forall i, j :: 0 <= i < j < |r| ==> RowLe(r[i], r[j]) && r[i] != r[j]
  {
    if s == {} then []
    else
      RowFirst(s);
      var p :| p in s && forall q :: q in s ==> RowLe(p, q);
      [p] + RowMajor(s - {p})
  }

  /** All cells of a rectangle. */
  function Box(width: int, height: int): (r: set<Point>)
    ensures forall p :: p in r <==> 0 <= p.x < width && 0 <= p.y < height
  {
    set x: int, y: int | 0 <= x < width && 0 <= y < height :: Point(x, y)
  }

  predicate Inside(grid: array2<char>, p: Point) {
    0 <= p.x < grid.Length1 && 0 <= p.y < grid.Length0
  }

  /** The cells of a grid of characters that are not wall; rows come first in the index. */
  function OpenCells(grid: array2<char>): (r: set<Point>)
    reads grid
    ensures forall p :: p in r <==> Inside(grid, p) && grid[p.y, p.x] != '#'
  {
    set p | p in Box(grid.Length1, grid.Length0) && grid[p.y, p.x] != '#'
  }

  ghost predicate FloorAndWall(grid: array2<char>)
    reads grid
  {
    forall y, x :: 0 <= y < grid.Length0 && 0 <= x < grid.Length1 ==> grid[y, x] == '#' || grid[y, x] == '.'
  }

  /** Turns one cell into floor. */
  method Dig(grid: array2<char>, p: Point)
    requires Inside(grid, p)
    modifies grid
    ensures OpenCells(grid) == old(OpenCells(grid)) + {p}
    ensures old(FloorAndWall(grid)) ==> FloorAndWall(grid)
  {
    grid[p.y, p.x] := '.';
  }
}
