/** Breadth-first distances, on a set of open cells and on a grid of characters. */
module Breadth {
  import opened GridGraph

  /** The reference: exactly the cells that can be reached, each with the number of
      steps of a shortest path. */
  ghost predicate ShortestFrom(open: set<Point>, start: Point, d: map<Point, int>) {
    && (forall v :: v in d <==> Connected(open, start, v))
    && (forall v :: v in d ==> HasPath(open, start, v, d[v]))
    && forall v, path :: v in d && PathFromTo(open, path, start, v) ==> d[v] <= |path| - 1
  }

  ghost predicate HasPath(open: set<Point>, start: Point, v: Point, steps: int) {
    exists path :: PathFromTo(open, path, start, v) && |path| == steps + 1
  }

  /** The reference determines the map, so all implementations agree. */
  lemma DistancesUnique(open: set<Point>, start: Point, d: map<Point, int>, e: map<Point, int>)
    requires ShortestFrom(open, start, d) && ShortestFrom(open, start, e)
    ensures d == e
  {
    forall v | v in d
      ensures v in e && d[v] == e[v]
    {
      var p :| PathFromTo(open, p, start, v) && |p| == d[v] + 1;
      assert Connected(open, start, v);
      var q :| PathFromTo(open, q, start, v) && |q| == e[v] + 1;
    }
    assert d.Keys == e.Keys;
  }

  /** Reached cells and their distances, with those whose neighbours are still to be
      looked at waiting in order of distance, at most one step apart. */
  ghost predicate Found(open: set<Point>, start: Point, d: map<Point, int>) {
    && start in d && d[start] == 0
    && d.Keys <= open
    && forall v :: v in d ==> d[v] >= 0 && HasPath(open, start, v, d[v])
  }

  ghost predicate Expanded(open: set<Point>, d: map<Point, int>, v: Point) {
    v in d && forall w :: w in open && Adjacent(v, w) ==> w in d && d[w] <= d[v] + 1
  }

  ghost predicate Level(d: map<Point, int>, queue: seq<Point>, low: int) {
    && (forall i :: 0 <= i < |queue| ==> queue[i] in d && low <= d[queue[i]] <= low + 1)
    && (forall i, j :: 0 <= i < j < |queue| ==> d[queue[i]] <= d[queue[j]])
    && forall v :: v in d ==> d[v] <= low + 1
  }

  ghost predicate Waiting(open: set<Point>, start: Point, d: map<Point, int>, queue: seq<Point>) {
    && Found(open, start, d)
    && (forall v :: v in d && v !in queue ==> Expanded(open, d, v))
    && (queue != [] ==> queue[0] in d && Level(d, queue, d[queue[0]]))
  }

  /** While `u`, just taken from the queue, has its neighbours looked at. */
  ghost predicate Expanding(open: set<Point>, start: Point, d: map<Point, int>, queue: seq<Point>, u: Point, seen: seq<Point>) {
    && Found(open, start, d)
    && u in d
    && (forall v :: v in d && v !in queue && v != u ==> Expanded(open, d, v))
    && Level(d, queue, d[u])
    && forall w :: w in seen && w in open ==> w in d
  }

  lemma TakeFirst(open: set<Point>, start: Point, d: map<Point, int>, queue: seq<Point>)
    requires queue != [] && Waiting(open, start, d, queue)
    ensures Expanding(open, start, d, queue[1..], queue[0], [])
  {
    assert forall v :: v in queue ==> v == queue[0] || v in queue[1..];
  }

  lemma Reach(open: set<Point>, start: Point, d: map<Point, int>, queue: seq<Point>, u: Point, seen: seq<Point>, w: Point)
    requires Expanding(open, start, d, queue, u, seen)
    requires w in open && w !in d && Adjacent(u, w)
    ensures Expanding(open, start, d[w := d[u] + 1], queue + [w], u, seen + [w])
  {
    hide Adjacent;
    hide Connected;
    var d' := d[w := d[u] + 1];
    var path :| PathFromTo(open, path, start, u) && |path| == d[u] + 1;
    assert PathFromTo(open, path + [w], start, w);
    assert HasPath(open, start, w, d'[w]);
    assert forall v :: v in queue ==> v in queue + [w];
    assert (queue + [w])[|queue|] == w;
    forall v | v in d' && v !in queue + [w] && v != u
      ensures Expanded(open, d', v)
    {
      assert Expanded(open, d, v);
    }
  }

  lemma AllSeen(open: set<Point>, start: Point, d: map<Point, int>, queue: seq<Point>, u: Point, seen: seq<Point>)
    requires Expanding(open, start, d, queue, u, seen)
    requires forall w :: w in open && Adjacent(u, w) ==> w in seen
    ensures Waiting(open, start, d, queue)
  {
  }

  /** With the queue empty every found cell is expanded, and no path is shorter. */
  lemma QueueEmpty(open: set<Point>, start: Point, d: map<Point, int>)
    requires Waiting(open, start, d, [])
    ensures ShortestFrom(open, start, d)
  {
    assert forall v :: v in d ==> Expanded(open, d, v);
    forall v | v in d
      ensures Connected(open, start, v)
    {
      assert HasPath(open, start, v, d[v]);
    }
    forall v, path | PathFromTo(open, path, start, v)
      ensures v in d && d[v] <= |path| - 1
    {
      NoShorterPath(open, start, d, path);
    }
    forall v | Connected(open, start, v)
      ensures v in d
    {
      var path :| PathFromTo(open, path, start, v);
    }
  }

  lemma {:induction false} NoShorterPath(open: set<Point>, start: Point, d: map<Point, int>, path: seq<Point>)
    requires Found(open, start, d) && forall v :: v in d ==> Expanded(open, d, v)
    requires IsPath(open, path) && path[0] == start
    ensures path[|path| - 1] in d && d[path[|path| - 1]] <= |path| - 1
  {
    var n := |path|;
    if n > 1 {
      NoShorterPath(open, start, d, path[..n - 1]);
      assert Expanded(open, d, path[n - 2]);
      assert Adjacent(path[n - 2], path[n - 1]);
    }
  }

  lemma StartAlone(open: set<Point>, start: Point)
    requires start in open
    ensures Waiting(open, start, map[start := 0], [start])
  {
    assert PathFromTo(open, [start], start, start);
    assert HasPath(open, start, start, 0);
    assert start in [start];
  }

  lemma SeenBefore(open: set<Point>, start: Point, d: map<Point, int>, queue: seq<Point>, u: Point, seen: seq<Point>, w: Point)
    requires Expanding(open, start, d, queue, u, seen)
    requires w in open ==> w in d
    ensures Expanding(open, start, d, queue, u, seen + [w])
  {
  }

  /** Distances over a set of walkable cells; empty when the start is not one of them. */
  method Distances(open: set<Point>, start: Point) returns (d: map<Point, int>)
    ensures ShortestFrom(open, start, d)
    ensures start !in open ==> d == map[]
  {
    hide Connected;
    hide Adjacent;
    hide Expanded;
    hide Level;
    hide HasPath;
    if start !in open {
      NothingReached(open, start);
      return map[];
    }
    d := map[start := 0];
    var queue := [start];
    StartAlone(open, start);
    while queue != []
      invariant Waiting(open, start, d, queue)
      decreases open - d.Keys, |queue|
    {
      TakeFirst(open, start, d, queue);
      var u := queue[0];
      queue := queue[1..];
      var ns := Neighbors(u, open);
      ghost var before, waiting := d, |queue|;
      var i := 0;
      while i < |ns|
        invariant i <= |ns|
        invariant Expanding(open, start, d, queue, u, ns[..i])
        invariant before.Keys <= d.Keys && (before.Keys == d.Keys ==> |queue| == waiting)
      {
        var w := ns[i];
        assert w in ns && ns[..i + 1] == ns[..i] + [w];
        if w !in d {
          Reach(open, start, d, queue, u, ns[..i], w);
          d := d[w := d[u] + 1];
          queue := queue + [w];
        } else {
          SeenBefore(open, start, d, queue, u, ns[..i], w);
        }
        i := i + 1;
      }
      assert ns[..|ns|] == ns;
      AllSeen(open, start, d, queue, u, ns);
    }
    QueueEmpty(open, start, d);
  }

  lemma NothingReached(open: set<Point>, start: Point)
    requires start !in open
    ensures ShortestFrom(open, start, map[])
  {
  }

  /** Distances over a grid of characters. The start counts as open whatever it holds. */
  method GridDistances(grid: array2<char>, start: Point) returns (d: map<Point, int>)
    ensures ShortestFrom(OpenCells(grid) + {start}, start, d)
  {
    hide Connected;
    hide Adjacent;
    hide Expanded;
    hide Level;
    hide HasPath;
    hide Around;
    hide OpenCells;
    ghost var open := OpenCells(grid) + {start};
    d := map[start := 0];
    var queue := [start];
    StartAlone(open, start);
    while queue != []
      invariant Waiting(open, start, d, queue)
      decreases open - d.Keys, |queue|
    {
      TakeFirst(open, start, d, queue);
      var u := queue[0];
      queue := queue[1..];
      var steps := Around(u);
      ghost var before, waiting := d, |queue|;
      var i := 0;
      while i < |steps|
        invariant i <= |steps|
        invariant Expanding(open, start, d, queue, u, steps[..i])
        invariant before.Keys <= d.Keys && (before.Keys == d.Keys ==> |queue| == waiting)
      {
        var w := steps[i];
        assert w in steps && steps[..i + 1] == steps[..i] + [w];
        if Inside(grid, w) && grid[w.y, w.x] != '#' && w !in d {
          Reach(open, start, d, queue, u, steps[..i], w);
          d := d[w := d[u] + 1];
          queue := queue + [w];
        } else {
          SeenBefore(open, start, d, queue, u, steps[..i], w);
        }
        i := i + 1;
      }
      assert steps[..|steps|] == steps;
      AllSeen(open, start, d, queue, u, steps);
    }
    QueueEmpty(open, start, d);
  }
}
