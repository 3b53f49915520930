/** Articulation points by one depth-first pass with low links. */
module Articulation {
  import opened Options
  import opened Integers
  import opened GridGraph

  /** Removing the cell separates two cells that were connected. */
  ghost predicate IsArticulation(open: set<Point>, x: Point) {
    && x in open
    && exists u, v :: u in open - {x} && v in open - {x} && Connected(open, u, v) && !Connected(open - {x}, u, v)
  }

  /** What the recursive visit has written so far. */
  datatype Marks = Marks(discovery: map<Point, int>, low: map<Point, int>, parent: map<Point, Option<Point>>, cut: set<Point>, clock: int)

  /** The cells being visited, outermost first, each beside the previous one and
      discovered after it. */
  ghost predicate OnStack(open: set<Point>, d: map<Point, int>, stack: seq<Point>) {
    && (forall i :: 0 <= i < |stack| ==> stack[i] in open && stack[i] in d)
    && (forall i :: 0 <= i < |stack| - 1 ==> Adjacent(stack[i], stack[i + 1]))
    && forall i, j :: 0 <= i < j < |stack| ==> d[stack[i]] < d[stack[j]]
  }

  /** Every discovered cell that is no longer being visited has only discovered neighbours. */
  ghost predicate Finished(open: set<Point>, d: map<Point, int>, stack: seq<Point>) {
    forall u, v :: u in d && u !in stack && v in open && Adjacent(u, v) ==> v in d
  }

  ghost predicate Consistent(open: set<Point>, m: Marks, stack: seq<Point>) {
    && m.discovery.Keys <= open
    && m.low.Keys == m.discovery.Keys
    && m.cut <= m.discovery.Keys
    && (forall u :: u in m.discovery ==> m.discovery[u] <= m.clock)
    && OnStack(open, m.discovery, stack)
    && Finished(open, m.discovery, stack)
  }

  /** The cell about to be visited, and its parent. */
  ghost predicate Ready(open: set<Point>, m: Marks, stack: seq<Point>, p: Point) {
    && Consistent(open, m, stack)
    && p in open && p !in m.discovery && p in m.parent
    && if stack == [] then m.parent[p].None?
       else m.parent[p] == Some(stack[|stack| - 1]) && Adjacent(stack[|stack| - 1], p)
  }

  function New(before: Marks, after: Marks): set<Point> {
    after.discovery.Keys - before.discovery.Keys
  }

  /** A visit changes nothing about cells discovered before it. */
  ghost predicate Extends(before: Marks, after: Marks) {
    && before.discovery.Keys <= after.discovery.Keys
    && (forall u :: u in before.discovery ==> u in after.low && u in before.low && after.discovery[u] == before.discovery[u] && after.low[u] == before.low[u])
    && (forall u :: u in before.discovery && u in before.parent ==> u in after.parent && after.parent[u] == before.parent[u])
    && (forall u :: u in New(before, after) ==> after.discovery[u] > before.clock)
    && before.clock <= after.clock
  }

  /** An edge from the new cells up to the stack, other than the tree edge into `p`. */
  ghost predicate BackEdge(cells: set<Point>, stack: seq<Point>, p: Point, s: Point, h: Point) {
    s in cells && h in stack && Adjacent(s, h) && !(s == p && h == stack[|stack| - 1])
  }

  /** The low link of `p`: the earliest discovery among `p` and the stack cells that
      its new cells reach by back edges. */
  ghost predicate LowLink(d: map<Point, int>, low: int, cells: set<Point>, stack: seq<Point>, p: Point)
    requires p in d && forall i :: 0 <= i < |stack| ==> stack[i] in d
  {
    && low <= d[p]
    && (forall s, h :: BackEdge(cells, stack, p, s, h) ==> low <= d[h])
    && (low == d[p] || exists s, h :: BackEdge(cells, stack, p, s, h) && low == d[h])
  }

  /** What one visit establishes. */
  ghost predicate Visited(open: set<Point>, before: Marks, after: Marks, stack: seq<Point>, p: Point) {
    var cells := New(before, after);
    && Consistent(open, after, stack)
    && Extends(before, after)
    && p in cells && after.discovery[p] == before.clock + 1
    && (forall s :: s in cells ==> Connected(cells, p, s))
    && LowLink(after.discovery, after.low[p], cells, stack, p)
    && (forall x :: x in cells ==> (x in after.cut <==> IsArticulation(open, x)))
    && (forall x :: x !in cells ==> (x in after.cut <==> x in before.cut))
  }

  /** Inside the visit of `p`, with its first neighbours handled. `cells` are the
      descendants found so far. */
  ghost predicate Visiting(open: set<Point>, before: Marks, now: Marks, stack: seq<Point>, p: Point, ns: seq<Point>, i: nat, children: nat)
    requires i <= |ns|
  {
    var cells := New(before, now) - {p};
    && Ready(open, before, stack, p)
    && Consistent(open, now, stack + [p])
    && Extends(before, now)
    && p in New(before, now) && now.discovery[p] == before.clock + 1
    && p in now.parent && now.parent[p] == before.parent[p]
    && (forall j :: 0 <= j < i ==> ns[j] in now.discovery)
    && (forall s :: s in cells ==> now.discovery[s] > now.discovery[p] && Connected(cells + {p}, p, s))
    && (forall i :: 0 <= i < |stack| ==> stack[i] in now.discovery)
    && LowSoFar(now.discovery, now.low[p], cells, stack, p, ns[..i])
    && ChildrenSoFar(cells, children)
    && CutSoFar(open, before, now, stack, p, children)
  }

  /** The low link over the descendants found and the neighbours handled so far. */
  ghost predicate LowSoFar(d: map<Point, int>, low: int, cells: set<Point>, stack: seq<Point>, p: Point, handled: seq<Point>)
    requires p in d && forall i :: 0 <= i < |stack| ==> stack[i] in d
  {
    && low <= d[p]
    && (forall s, h :: BackEdge(cells, stack, p, s, h) ==> low <= d[h])
    && (forall h :: h in handled && BackEdge({p}, stack, p, p, h) ==> low <= d[h])
    && (low == d[p] || exists s, h :: BackEdge(cells + {p}, stack, p, s, h) && low == d[h])
  }

  ghost predicate ChildrenSoFar(cells: set<Point>, children: nat) {
    && (children == 0 <==> cells == {})
    && (children == 1 ==> AllConnected(cells))
  }

  ghost predicate CutSoFar(open: set<Point>, before: Marks, now: Marks, stack: seq<Point>, p: Point, children: nat) {
    var cells := New(before, now) - {p};
    && (forall x :: x in cells ==> (x in now.cut <==> IsArticulation(open, x)))
    && (forall x :: x !in cells && x != p ==> (x in now.cut <==> x in before.cut))
    && (p in now.cut ==> IsArticulation(open, p))
    && (p !in now.cut && stack == [] ==> children <= 1)
    && (p !in now.cut && stack != [] ==> forall s :: s in cells ==> Connected(open - {p}, s, stack[|stack| - 1]))
  }

  /** The updates that follow a child's visit: the low link, then the two cut tests. */
  function AfterChild(back: Marks, p: Point, n: Point, children: nat): Marks
    requires p in back.low && n in back.low && p in back.discovery && p in back.parent
  {
    var cut := (back.parent[p].None? && children > 1) || (back.parent[p].Some? && back.low[n] >= back.discovery[p]);
    back.(low := back.low[p := Least(back.low[p], back.low[n])], cut := if cut then back.cut + {p} else back.cut)
  }

  /** The recursion's shared state, written in place. */
  class Finder {
    var m: Marks

    constructor ()
      ensures m == Marks(map[], map[], map[], {}, 0)
    {
      m := Marks(map[], map[], map[], {}, 0);
    }

    method Visit(open: set<Point>, p: Point, ghost stack: seq<Point>)
      requires Ready(open, m, stack, p)
      modifies this
      ensures Visited(open, old(m), m, stack, p)
      decreases open - m.discovery.Keys
    {
      hide Ready;
      hide Visited;
      hide Visiting;
      hide Neighbors;
      hide Adjacent;
      hide ChildVisited;
      ghost var before := m;
      m := m.(clock := m.clock + 1);
      m := m.(discovery := m.discovery[p := m.clock], low := m.low[p := m.clock]);
      var children := 0;
      var ns := Neighbors(p, open);
      VisitStarts(open, before, m, stack, p, ns);
      var i := 0;
      while i < |ns|
        invariant i <= |ns|
        invariant Visiting(open, before, m, stack, p, ns, i, children)
      {
        var n := ns[i];
        ghost var now := m;
        StepFacts(open, before, m, stack, p, ns, i, children);
        if n !in m.discovery {
          m := m.(parent := m.parent[n := Some(p)]);
          children := children + 1;
          ghost var called := m;
          ChildReady(open, before, now, called, stack, p, ns, i, children - 1);
          Visit(open, n, stack + [p]);
          ChildFacts(open, before, now, called, m, stack, p, ns, i, children - 1);
          ghost var back := m;
          m := m.(low := m.low[p := Least(m.low[p], m.low[n])]);
          if m.parent[p].None? && children > 1 {
            m := m.(cut := m.cut + {p});
          }
          if m.parent[p].Some? && m.low[n] >= m.discovery[p] {
            m := m.(cut := m.cut + {p});
          }
          assert m == AfterChild(back, p, n, children);
          ChildDone(open, before, now, called, back, stack, p, ns, i, children - 1);
        } else {
          if m.parent[p] != Some(n) {
            m := m.(low := m.low[p := Least(m.low[p], m.discovery[n])]);
          }
          EdgeDone(open, before, now, m, stack, p, ns, i, children);
        }
        i := i + 1;
      }
      VisitEnds(open, before, m, stack, p, ns, children);
    }
  }

  /** The roots before `k` and all they reach have been visited and decided. */
  ghost predicate Swept(open: set<Point>, m: Marks, order: seq<Point>, k: nat) {
    && k <= |order|
    && Consistent(open, m, [])
    && (forall j :: 0 <= j < k ==> order[j] in m.discovery)
    && forall x :: x in m.discovery ==> (x in m.cut <==> IsArticulation(open, x))
  }

  lemma SweptAll(open: set<Point>, m: Marks, order: seq<Point>)
    requires Swept(open, m, order, |order|) && forall p :: p in open <==> p in order
    ensures forall x :: x in m.cut <==> IsArticulation(open, x)
  {
    hide IsArticulation;
    OnlyOpen(open);
    forall x | x in open
      ensures x in m.discovery
    {
      assert x in order;
    }
  }

  lemma SweptMore(open: set<Point>, before: Marks, after: Marks, order: seq<Point>, k: nat)
    requires k < |order| && Swept(open, before, order, k)
    requires Visited(open, before.(parent := before.parent[order[k] := None]), after, [], order[k])
    ensures Swept(open, after, order, k + 1)
  {
    hide IsArticulation;
    hide Visited;
    VisitedCut(open, before.(parent := before.parent[order[k] := None]), after, order[k]);
  }

  lemma SweptNone(open: set<Point>, order: seq<Point>)
    ensures Swept(open, Marks(map[], map[], map[], {}, 0), order, 0)
  {
    hide IsArticulation;
  }

  lemma SweptSkip(open: set<Point>, m: Marks, order: seq<Point>, k: nat)
    requires k < |order| && Swept(open, m, order, k) && order[k] in m.discovery
    ensures Swept(open, m, order, k + 1)
  {
    hide IsArticulation;
    hide Consistent;
  }

  lemma RootReady(open: set<Point>, m: Marks, order: seq<Point>, k: nat)
    requires k < |order| && Swept(open, m, order, k) && order[k] in open && order[k] !in m.discovery
    ensures Ready(open, m.(parent := m.parent[order[k] := None]), [], order[k])
  {
    hide IsArticulation;
  }

  /** Exactly the cells whose removal disconnects two connected cells. */
  method ArticulationPoints(open: set<Point>) returns (cut: set<Point>)
    ensures forall x :: x in cut <==> IsArticulation(open, x)
  {
    hide IsArticulation;
    hide Visited;
    hide Swept;
    hide Ready;
    hide RowMajor;
    if open == {} {
      NoneInEmpty();
      return {};
    }
    var finder := new Finder();
    var order := RowMajor(open);
    var k := 0;
    SweptNone(open, order);
    while k < |order|
      invariant k <= |order| && Swept(open, finder.m, order, k)
    {
      var p := order[k];
      if p !in finder.m.discovery {
        ghost var before := finder.m;
        finder.m := finder.m.(parent := finder.m.parent[p := None]);
        assert p in order;
        RootReady(open, before, order, k);
        finder.Visit(open, p, []);
        SweptMore(open, before, finder.m, order, k);
      } else {
        SweptSkip(open, finder.m, order, k);
      }
      k := k + 1;
    }
    cut := finder.m.cut;
    SweptAll(open, finder.m, order);
  }

  lemma VisitedCut(open: set<Point>, before: Marks, after: Marks, p: Point)
    requires Visited(open, before, after, [], p)
    requires forall x :: x in before.discovery ==> (x in before.cut <==> IsArticulation(open, x))
    ensures Consistent(open, after, []) && p in after.discovery && before.discovery.Keys <= after.discovery.Keys
    ensures forall x :: x in after.discovery ==> (x in after.cut <==> IsArticulation(open, x))
  {
    hide IsArticulation;
    hide Finished;
    hide LowLink;
    hide Connected;
  }

  lemma NoneInEmpty()
    ensures forall x :: !IsArticulation({}, x)
  {
  }

  lemma OnlyOpen(open: set<Point>)
    ensures forall x :: IsArticulation(open, x) ==> x in open
  {
  }

  lemma VisitStarts(open: set<Point>, before: Marks, now: Marks, stack: seq<Point>, p: Point, ns: seq<Point>)
    requires Ready(open, before, stack, p)
    requires now == Marks(before.discovery[p := before.clock + 1], before.low[p := before.clock + 1], before.parent, before.cut, before.clock + 1)
    ensures Visiting(open, before, now, stack, p, ns, 0, 0)
  {
    assert New(before, now) == {p};
    assert New(before, now) - {p} == {};
    var longer := stack + [p];
    assert OnStack(open, now.discovery, longer) by {
      forall i | 0 <= i < |longer| - 1
        ensures Adjacent(longer[i], longer[i + 1])
      {
        if i == |stack| - 1 {
          assert longer[i] == stack[i] && longer[i + 1] == p;
        }
      }
      forall i, j | 0 <= i < j < |longer|
        ensures now.discovery[longer[i]] < now.discovery[longer[j]]
      {
        assert longer[i] == stack[i] && longer[i] in before.discovery;
      }
    }
    assert Finished(open, now.discovery, longer) by {
      forall u, v | u in now.discovery && u !in longer && v in open && Adjacent(u, v)
        ensures v in now.discovery
      {
        assert p in longer && u !in stack by { assert longer[|stack|] == p; assert forall x :: x in stack ==> x in longer; }
        assert u in before.discovery;
      }
    }
    assert AllConnected({});
    assert ns[..0] == [];
  }

  lemma StepFacts(open: set<Point>, before: Marks, now: Marks, stack: seq<Point>, p: Point, ns: seq<Point>, i: nat, children: nat)
    requires i < |ns| && ns == Neighbors(p, open)
    requires Visiting(open, before, now, stack, p, ns, i, children)
    ensures ns[i] in open && Adjacent(p, ns[i])
    ensures p in now.discovery && p in now.low && p in now.parent && p in open
    ensures ns[i] in now.low <==> ns[i] in now.discovery
  {
    assert ns[i] in ns;
  }

  lemma ChildReady(open: set<Point>, before: Marks, now: Marks, called: Marks, stack: seq<Point>, p: Point, ns: seq<Point>, i: nat, children: nat)
    requires i < |ns| && ns == Neighbors(p, open)
    requires Visiting(open, before, now, stack, p, ns, i, children)
    requires ns[i] !in now.discovery && called == now.(parent := now.parent[ns[i] := Some(p)])
    ensures Ready(open, called, stack + [p], ns[i])
    ensures open - called.discovery.Keys < open - before.discovery.Keys
  {
    assert ns[i] in ns;
    assert p in open - before.discovery.Keys && p !in open - called.discovery.Keys;
  }

  /** A child `ns[i]` was undiscovered, was given `p` as parent, and has been visited. */
  ghost predicate ChildVisited(open: set<Point>, before: Marks, now: Marks, called: Marks, back: Marks, stack: seq<Point>, p: Point, ns: seq<Point>, i: nat, children: nat) {
    && i < |ns| && ns == Neighbors(p, open)
    && Visiting(open, before, now, stack, p, ns, i, children)
    && ns[i] !in now.discovery && called == now.(parent := now.parent[ns[i] := Some(p)])
    && Ready(open, called, stack + [p], ns[i])
    && Visited(open, called, back, stack + [p], ns[i])
  }

  lemma ChildFacts(open: set<Point>, before: Marks, now: Marks, called: Marks, back: Marks, stack: seq<Point>, p: Point, ns: seq<Point>, i: nat, children: nat)
    requires i < |ns| && ns == Neighbors(p, open)
    requires Visiting(open, before, now, stack, p, ns, i, children)
    requires ns[i] !in now.discovery && called == now.(parent := now.parent[ns[i] := Some(p)])
    requires Ready(open, called, stack + [p], ns[i])
    requires Visited(open, called, back, stack + [p], ns[i])
    ensures ChildVisited(open, before, now, called, back, stack, p, ns, i, children)
    ensures p in back.discovery && p in back.low && p in back.parent && ns[i] in back.low && ns[i] != p
    ensures back.low[p] == now.low[p] && back.discovery[p] == now.discovery[p] && back.parent[p] == now.parent[p]
  {
    assert ns[i] in New(called, back);
    assert p in called.discovery;
  }


  /** A finished subtree touches only itself and the stack. */
  lemma SubtreeEdges(open: set<Point>, called: Marks, back: Marks, path: seq<Point>, n: Point)
    requires Ready(open, called, path, n) && Visited(open, called, back, path, n)
    ensures var sub := New(called, back);
      && sub <= open && n in sub && (forall i :: 0 <= i < |path| ==> path[i] !in sub)
      && forall u, v :: u in sub && v in open && Adjacent(u, v) ==> v in sub || v in path
  {
    var sub := New(called, back);
    forall i | 0 <= i < |path|
      ensures path[i] !in sub
    {
      assert path[i] in called.discovery;
    }
    forall u, v | u in sub && v in open && Adjacent(u, v)
      ensures v in sub || v in path
    {
      assert u !in path;
      assert v in back.discovery;
      if v in called.discovery && v !in path {
        assert Adjacent(v, u);
      }
    }
  }

  /** Consecutive stack cells are adjacent, so the stack is connected to its last cell. */
  lemma {:induction false} StackConnected(open: set<Point>, d: map<Point, int>, stack: seq<Point>, k: nat)
    requires OnStack(open, d, stack) && k < |stack|
    ensures Connected(CellsOf(stack), stack[k], stack[|stack| - 1])
    decreases |stack| - k
  {
    var cells := CellsOf(stack);
    if k == |stack| - 1 {
      ConnectedSelf(cells, stack[k]);
    } else {
      StackConnected(open, d, stack, k + 1);
      ConnectedStep(cells, stack[k], stack[k + 1]);
      ConnectedTrans(cells, stack[k], stack[k + 1], stack[|stack| - 1]);
    }
  }

  /** A part that only `x` joins to the rest makes `x` an articulation point. */
  lemma CutOff(open: set<Point>, x: Point, part: set<Point>, n: Point, other: Point)
    requires x in open && x !in part && part <= open
    requires forall u, v :: u in part && v in open && Adjacent(u, v) ==> v in part || v == x
    requires n in part && other in open - part - {x}
    requires Connected(open, n, x) && Adjacent(x, other)
    ensures IsArticulation(open, x)
  {
    ConnectedStep(open, x, other);
    ConnectedTrans(open, n, x, other);
    assert ClosedIn(open - {x}, part);
    if Connected(open - {x}, n, other) {
      ClosedContains(open - {x}, part, n, other);
    }
  }

  /** If the neighbours of `x` reach each other without it, `x` separates nothing. */
  lemma {:induction false} Detour(open: set<Point>, x: Point, path: seq<Point>)
    requires IsPath(open, path) && path[0] != x && path[|path| - 1] != x
    requires forall a, b :: a in open && b in open && Adjacent(a, x) && Adjacent(b, x) ==> Connected(open - {x}, a, b)
    ensures Connected(open - {x}, path[0], path[|path| - 1])
    decreases |path|
  {
    var rest := open - {x};
    if |path| == 1 {
      ConnectedSelf(rest, path[0]);
    } else if path[1] != x {
      assert Adjacent(path[0], path[1]);
      ConnectedStep(rest, path[0], path[1]);
      Detour(open, x, path[1..]);
      ConnectedTrans(rest, path[0], path[1], path[|path| - 1]);
    } else {
      assert Adjacent(path[0], path[1]) && Adjacent(path[1], path[2]);
      Detour(open, x, path[2..]);
      assert Adjacent(path[2], x);
      ConnectedTrans(rest, path[0], path[2], path[|path| - 1]);
    }
  }

  lemma NotCut(open: set<Point>, x: Point)
    requires forall a, b :: a in open && b in open && Adjacent(a, x) && Adjacent(b, x) ==> Connected(open - {x}, a, b)
    ensures !IsArticulation(open, x)
  {
    forall u, v | u in open - {x} && v in open - {x} && Connected(open, u, v)
      ensures Connected(open - {x}, u, v)
    {
      var path :| PathFromTo(open, path, u, v);
      Detour(open, x, path);
    }
  }

  /** Every stack cell was discovered before `p`, the cell being visited. */
  lemma StackBelow(open: set<Point>, d: map<Point, int>, stack: seq<Point>, p: Point)
    requires OnStack(open, d, stack + [p])
    ensures p in d && p in open && p !in stack
    ensures forall h :: h in stack ==> h in d && d[h] < d[p]
    ensures forall h :: h in stack + [p] <==> h in stack || h == p
  {
    var path := stack + [p];
    assert path[|stack|] == p;
    forall h | h in stack
      ensures h in d && d[h] < d[p]
    {
      var k :| 0 <= k < |stack| && stack[k] == h;
      assert path[k] == h;
    }
  }

  lemma ChildSets(open: set<Point>, before: Marks, now: Marks, called: Marks, back: Marks, stack: seq<Point>, p: Point, ns: seq<Point>, i: nat, children: nat)
    requires ChildVisited(open, before, now, called, back, stack, p, ns, i, children)
    ensures var cells, sub := New(before, now) - {p}, New(called, back);
      && New(before, back) - {p} == cells + sub
      && cells !! sub && p !in sub && ns[i] in sub && p !in stack && sub <= open
      && (forall h :: h in stack ==> h !in sub && h in now.discovery && now.discovery[h] < now.discovery[p])
      && forall u, v :: u in sub && v in open && Adjacent(u, v) ==> v in sub || v in stack || v == p
  {
    hide Adjacent;
    hide BackEdge;
    hide LowSoFar;
    hide LowLink;
    hide CutSoFar;
    hide ChildrenSoFar;
    hide Connected;
    hide IsArticulation;
    hide Finished;
    hide OnStack;
    hide Ready;
    hide Neighbors;
    SubtreeEdges(open, called, back, stack + [p], ns[i]);
    StackBelow(open, now.discovery, stack, p);
    assert p in called.discovery;
    assert forall h :: h in stack ==> h in called.discovery;
  }

  lemma ExtendsTwice(before: Marks, now: Marks, called: Marks, back: Marks, fin: Marks, p: Point, n: Point, low: int)
    requires Extends(before, now) && Extends(called, back)
    requires p in now.discovery && p !in before.discovery && n !in now.discovery
    requires called == now.(parent := now.parent[n := Some(p)])
    requires p in back.low && fin == back.(low := back.low[p := low], cut := fin.cut)
    ensures Extends(before, fin) && now.discovery.Keys <= fin.discovery.Keys
    ensures fin.discovery[p] == now.discovery[p]
    ensures p in now.parent ==> p in fin.parent && fin.parent[p] == now.parent[p]
  {
    assert p in called.discovery;
    forall u | u in before.discovery
      ensures u in fin.low && u in before.low && fin.discovery[u] == before.discovery[u] && fin.low[u] == before.low[u]
      ensures u in before.parent ==> u in fin.parent && fin.parent[u] == before.parent[u]
    {
      assert u in called.discovery && u != n;
    }
    forall u | u in New(before, fin)
      ensures fin.discovery[u] > before.clock
    {
      assert u in New(called, back) || u in New(before, now);
    }
  }

  lemma ConsistentUpdate(open: set<Point>, m: Marks, stack: seq<Point>, p: Point, low: int, cut: set<Point>)
    requires Consistent(open, m, stack) && p in m.discovery && cut <= m.discovery.Keys
    ensures Consistent(open, m.(low := m.low[p := low], cut := cut), stack)
  {
  }

  /** Marks after the child keep the stack discipline and the older cells. */
  lemma ChildGraph(open: set<Point>, before: Marks, now: Marks, called: Marks, back: Marks, stack: seq<Point>, p: Point, ns: seq<Point>, i: nat, children: nat)
    requires ChildVisited(open, before, now, called, back, stack, p, ns, i, children)
    requires p in back.low && ns[i] in back.low && p in back.discovery && p in back.parent
    ensures var fin := AfterChild(back, p, ns[i], children + 1);
      && Consistent(open, fin, stack + [p]) && Extends(before, fin)
      && p in New(before, fin) && fin.discovery[p] == before.clock + 1
      && p in fin.parent && fin.parent[p] == before.parent[p]
      && (forall j :: 0 <= j < i + 1 ==> ns[j] in fin.discovery)
  {
    hide LowSoFar;
    hide LowLink;
    hide CutSoFar;
    hide ChildrenSoFar;
    hide IsArticulation;
    hide Connected;
    hide Ready;
    hide Extends;
    hide Adjacent;
    hide Neighbors;
    hide OnStack;
    hide Finished;
    var n := ns[i];
    var fin := AfterChild(back, p, n, children + 1);
    ExtendsTwice(before, now, called, back, fin, p, n, fin.low[p]);
    ConsistentUpdate(open, back, stack + [p], p, fin.low[p], fin.cut);
  }

  lemma ChildReach(open: set<Point>, before: Marks, now: Marks, called: Marks, back: Marks, stack: seq<Point>, p: Point, ns: seq<Point>, i: nat, children: nat)
    requires ChildVisited(open, before, now, called, back, stack, p, ns, i, children)
    ensures var cells' := New(before, back) - {p};
      p in back.discovery && forall s :: s in cells' ==> back.discovery[s] > back.discovery[p] && Connected(cells' + {p}, p, s)
  {
    hide LowSoFar;
    hide LowLink;
    hide CutSoFar;
    hide ChildrenSoFar;
    hide Finished;
    hide OnStack;
    ChildSets(open, before, now, called, back, stack, p, ns, i, children);
    var cells, sub, cells', n := New(before, now) - {p}, New(called, back), New(before, back) - {p}, ns[i];
    assert p in called.discovery && n in ns;
    forall s | s in cells'
      ensures back.discovery[s] > back.discovery[p] && Connected(cells' + {p}, p, s)
    {
      if s in cells {
        assert s in called.discovery;
        ConnectedMore(cells + {p}, cells' + {p}, p, s);
      } else {
        ConnectedStep(cells' + {p}, p, n);
        ConnectedMore(sub, cells' + {p}, n, s);
        ConnectedTrans(cells' + {p}, p, n, s);
      }
    }
  }

  /** The low link folds in the child's. */
  lemma ChildLow(d: map<Point, int>, lowP: int, lowN: int, cells: set<Point>, sub: set<Point>, stack: seq<Point>, p: Point, n: Point, handled: seq<Point>)
    requires p in d && n in d && (forall i :: 0 <= i < |stack| ==> stack[i] in d)
    requires forall h :: h in stack ==> h in d && d[h] < d[p] && h !in sub
    requires d[p] < d[n] && p !in sub && n in sub && p !in stack
    requires LowSoFar(d, lowP, cells, stack, p, handled)
    requires LowLink(d, lowN, sub, stack + [p], n)
    ensures LowSoFar(d, Least(lowP, lowN), cells + sub, stack, p, handled + [n])
  {
    var low, path := Least(lowP, lowN), stack + [p];
    assert path[|stack|] == p && forall h :: h in path <==> h in stack || h == p;
    forall s, h | BackEdge(cells + sub, stack, p, s, h)
      ensures low <= d[h]
    {
      if s in sub {
        assert BackEdge(sub, path, n, s, h);
      } else {
        assert BackEdge(cells, stack, p, s, h);
      }
    }
    if lowN < lowP {
      var s, h :| BackEdge(sub, path, n, s, h) && lowN == d[h];
      assert BackEdge(cells + sub + {p}, stack, p, s, h);
    } else if lowP != d[p] {
      var s, h :| BackEdge(cells + {p}, stack, p, s, h) && lowP == d[h];
      assert BackEdge(cells + sub + {p}, stack, p, s, h);
    }
  }

  lemma LowSoFarFrame(d: map<Point, int>, d': map<Point, int>, low: int, cells: set<Point>, stack: seq<Point>, p: Point, handled: seq<Point>)
    requires p in d && forall i :: 0 <= i < |stack| ==> stack[i] in d
    requires p in d' && forall i :: 0 <= i < |stack| ==> stack[i] in d'
    requires d'[p] == d[p] && forall h :: h in stack ==> d'[h] == d[h]
    requires LowSoFar(d, low, cells, stack, p, handled)
    ensures LowSoFar(d', low, cells, stack, p, handled)
  {
    if low != d[p] {
      var s, h :| BackEdge(cells + {p}, stack, p, s, h) && low == d[h];
      assert low == d'[h];
    }
  }

  lemma ChildCount(open: set<Point>, cells: set<Point>, sub: set<Point>, n: Point, children: nat)
    requires ChildrenSoFar(cells, children) && n in sub
    requires forall s :: s in sub ==> Connected(sub, n, s)
    ensures ChildrenSoFar(cells + sub, children + 1)
  {
    assert n in cells + sub;
    if children == 0 {
      assert cells + sub == sub;
      forall s | s in sub
        ensures Connected(sub, s, n)
      {
        ConnectedSym(sub, n, s);
      }
      HubConnects(sub, n);
    }
  }

  /** Descendants and `p` touch only descendants, `p` and the stack. */
  lemma CellEdges(open: set<Point>, before: Marks, now: Marks, stack: seq<Point>, p: Point, ns: seq<Point>, i: nat, children: nat)
    requires i <= |ns| && Visiting(open, before, now, stack, p, ns, i, children)
    ensures var cells := New(before, now) - {p};
      && (forall u, v :: u in cells && v in open && Adjacent(u, v) ==> v in cells || v in stack || v == p)
      && (forall v :: v in open && v in now.discovery && Adjacent(p, v) ==> v in cells || v in stack)
      && p !in stack && cells <= open && p in open
  {
    var cells, path := New(before, now) - {p}, stack + [p];
    assert path[|stack|] == p && forall h :: h in path <==> h in stack || h == p;
    forall h | h in stack
      ensures h in before.discovery
    {
      var k :| 0 <= k < |stack| && stack[k] == h;
    }
    forall u, v | u in cells + {p} && v in open && v in now.discovery && Adjacent(u, v)
      ensures v in cells || v in stack || v == p
    {
      if v in before.discovery && v !in stack {
        assert Adjacent(v, u);
      }
    }
  }

  lemma RootCut(open: set<Point>, before: Marks, now: Marks, called: Marks, back: Marks, p: Point, ns: seq<Point>, i: nat, children: nat)
    requires ChildVisited(open, before, now, called, back, [], p, ns, i, children) && children > 0
    ensures IsArticulation(open, p)
  {
    hide Adjacent;
    hide BackEdge;
    hide Connected;
    hide LowSoFar;
    hide LowLink;
    hide CutSoFar;
    hide IsArticulation;
    var cells, n := New(before, now) - {p}, ns[i];
    CellEdges(open, before, now, [], p, ns, i, children);
    ChildSets(open, before, now, called, back, [], p, ns, i, children);
    var u :| u in cells;
    ConnectedMore(cells + {p}, open, p, u);
    ConnectedSym(open, p, u);
    assert n in ns;
    CutOff(open, p, cells, u, n);
  }

  lemma SubtreeCut(open: set<Point>, d: map<Point, int>, lowN: int, sub: set<Point>, stack: seq<Point>, p: Point, n: Point)
    requires p in d && n in d && (forall i :: 0 <= i < |stack| ==> stack[i] in d)
    requires forall h :: h in stack ==> h in d && d[h] < d[p] && h !in sub && h in open
    requires p !in sub && n in sub && p !in stack && sub <= open && p in open
    requires forall u, v :: u in sub && v in open && Adjacent(u, v) ==> v in sub || v in stack || v == p
    requires LowLink(d, lowN, sub, stack + [p], n)
    requires stack != [] && Adjacent(stack[|stack| - 1], p) && Adjacent(p, n)
    requires lowN >= d[p]
    ensures IsArticulation(open, p)
  {
    var last, path := stack[|stack| - 1], stack + [p];
    assert path[|stack|] == p && forall h :: h in path <==> h in stack || h == p;
    forall u, v | u in sub && v in open && Adjacent(u, v)
      ensures v in sub || v == p
    {
      if v in stack {
        assert !BackEdge(sub, path, n, u, v);
      }
    }
    ConnectedStep(open, n, p);
    assert last in stack;
    CutOff(open, p, sub, n, last);
  }

  lemma SubtreeBypass(open: set<Point>, d: map<Point, int>, lowN: int, sub: set<Point>, stack: seq<Point>, p: Point, n: Point)
    requires p in d && n in d && (forall i :: 0 <= i < |stack| ==> stack[i] in d)
    requires OnStack(open, d, stack) && p !in stack
    requires p !in sub && n in sub && sub <= open && d[p] < d[n]
    requires forall s :: s in sub ==> Connected(sub, n, s)
    requires LowLink(d, lowN, sub, stack + [p], n)
    requires stack != [] && lowN < d[p]
    ensures forall s :: s in sub ==> Connected(open - {p}, s, stack[|stack| - 1])
  {
    var last, path, rest := stack[|stack| - 1], stack + [p], open - {p};
    assert path[|stack|] == p && forall h :: h in path <==> h in stack || h == p;
    var s0, h :| BackEdge(sub, path, n, s0, h) && lowN == d[h];
    var k :| 0 <= k < |stack| && stack[k] == h;
    StackConnected(open, d, stack, k);
    ConnectedMore(CellsOf(stack), rest, h, last);
    ConnectedStep(rest, s0, h);
    ConnectedTrans(rest, s0, h, last);
    ConnectedMore(sub, rest, n, s0);
    ConnectedTrans(rest, n, s0, last);
    forall s | s in sub
      ensures Connected(rest, s, last)
    {
      ConnectedMore(sub, rest, n, s);
      ConnectedSym(rest, n, s);
      ConnectedTrans(rest, s, n, last);
    }
  }

  /** The two cut tests decide whether `p` cuts off the child's subtree. */
  lemma ChildCut(open: set<Point>, before: Marks, now: Marks, called: Marks, back: Marks, stack: seq<Point>, p: Point, ns: seq<Point>, i: nat, children: nat)
    requires ChildVisited(open, before, now, called, back, stack, p, ns, i, children)
    requires p in back.low && ns[i] in back.low && p in back.discovery && p in back.parent && back.parent[p] == before.parent[p]
    ensures CutSoFar(open, before, AfterChild(back, p, ns[i], children + 1), stack, p, children + 1)
  {
    hide Adjacent;
    hide BackEdge;
    hide Neighbors;
    hide Extends;
    hide IsArticulation;
    hide LowSoFar;
    hide LowLink;
    hide ChildrenSoFar;
    hide Finished;
    hide OnStack;
    hide Consistent;
    hide Connected;
    var n, sub, cells := ns[i], New(called, back), New(before, now) - {p};
    var fin := AfterChild(back, p, n, children + 1);
    assert n in ns && p in called.discovery;
    ChildSets(open, before, now, called, back, stack, p, ns, i, children);
    StackFrame(open, called, back, stack, p, n);
    if stack == [] {
      if children > 0 {
        RootCut(open, before, now, called, back, p, ns, i, children);
      }
    } else if back.low[n] >= back.discovery[p] {
      SubtreeCut(open, back.discovery, back.low[n], sub, stack, p, n);
    } else {
      SubtreeBypass(open, back.discovery, back.low[n], sub, stack, p, n);
    }
    assert New(before, fin) - {p} == cells + sub;
  }

  lemma StackFrame(open: set<Point>, called: Marks, back: Marks, stack: seq<Point>, p: Point, n: Point)
    requires Ready(open, called, stack + [p], n) && Visited(open, called, back, stack + [p], n)
    ensures OnStack(open, back.discovery, stack) && p in back.discovery && n in back.discovery
    ensures forall h :: h in stack ==> h in open && h in called.discovery && h in back.discovery && back.discovery[h] == called.discovery[h] < back.discovery[p]
    ensures back.discovery[p] == called.discovery[p] < back.discovery[n] && p in open
  {
    var path := stack + [p];
    assert path[|stack|] == p;
    assert forall i :: 0 <= i < |stack| ==> path[i] == stack[i];
    forall h | h in stack
      ensures h in open && h in called.discovery && h in back.discovery && back.discovery[h] == called.discovery[h] < back.discovery[p]
    {
      var k :| 0 <= k < |stack| && stack[k] == h;
      assert path[k] == h;
    }
  }

  lemma ChildDone(open: set<Point>, before: Marks, now: Marks, called: Marks, back: Marks, stack: seq<Point>, p: Point, ns: seq<Point>, i: nat, children: nat)
    requires ChildVisited(open, before, now, called, back, stack, p, ns, i, children)
    requires p in back.low && ns[i] in back.low && p in back.discovery && p in back.parent
    ensures Visiting(open, before, AfterChild(back, p, ns[i], children + 1), stack, p, ns, i + 1, children + 1)
  {
    hide Adjacent;
    hide BackEdge;
    hide Neighbors;
    hide IsArticulation;
    hide Consistent;
    hide CutSoFar;
    hide LowSoFar;
    hide LowLink;
    hide ChildrenSoFar;
    hide Ready;
    hide Extends;
    hide Connected;
    var n, sub, cells := ns[i], New(called, back), New(before, now) - {p};
    var fin := AfterChild(back, p, n, children + 1);
    StepFacts(open, before, now, stack, p, ns, i, children);
    ChildFacts(open, before, now, called, back, stack, p, ns, i, children);
    ChildSets(open, before, now, called, back, stack, p, ns, i, children);
    ChildGraph(open, before, now, called, back, stack, p, ns, i, children);
    ChildReach(open, before, now, called, back, stack, p, ns, i, children);
    ChildCut(open, before, now, called, back, stack, p, ns, i, children);
    StackFrame(open, called, back, stack, p, n);
    LowSoFarFrame(now.discovery, back.discovery, now.low[p], cells, stack, p, ns[..i]);
    ChildLow(back.discovery, now.low[p], back.low[n], cells, sub, stack, p, n, ns[..i]);
    assert ns[..i + 1] == ns[..i] + [n];
    ChildCount(open, cells, sub, n, children);
    assert New(before, fin) - {p} == cells + sub;
  }

  /** A neighbour that was already discovered: its edge may lower the low link,
      unless it is the parent. */
  lemma EdgeDone(open: set<Point>, before: Marks, now: Marks, fin: Marks, stack: seq<Point>, p: Point, ns: seq<Point>, i: nat, children: nat)
    requires i < |ns| && ns == Neighbors(p, open)
    requires Visiting(open, before, now, stack, p, ns, i, children)
    requires ns[i] in now.discovery && p in now.low
    requires fin == if now.parent[p] != Some(ns[i]) then now.(low := now.low[p := Least(now.low[p], now.discovery[ns[i]])]) else now
    ensures Visiting(open, before, fin, stack, p, ns, i + 1, children)
  {
    hide New;
    hide Visiting;
    hide LowSoFar;
    hide Adjacent;
    StepFacts(open, before, now, stack, p, ns, i, children);
    EdgeTarget(open, before, now, stack, p, ns, i, children);
    VisitingParts(open, before, now, stack, p, ns, i, children);
    LowEdge(now.discovery, now.low[p], New(before, now) - {p}, stack, p, ns[i], ns[..i]);
    VisitingWithLow(open, before, now, fin, stack, p, ns, i, children, fin.low[p]);
  }

  lemma VisitingParts(open: set<Point>, before: Marks, now: Marks, stack: seq<Point>, p: Point, ns: seq<Point>, i: nat, children: nat)
    requires i <= |ns| && Visiting(open, before, now, stack, p, ns, i, children)
    ensures p in now.discovery && p in now.low && p in now.parent && (forall k :: 0 <= k < |stack| ==> stack[k] in now.discovery)
    ensures LowSoFar(now.discovery, now.low[p], New(before, now) - {p}, stack, p, ns[..i])
    ensures forall s :: s in New(before, now) - {p} ==> s in now.discovery && now.discovery[s] > now.discovery[p]
    ensures if stack == [] then now.parent[p].None? else now.parent[p] == Some(stack[|stack| - 1])
  {
    hide Adjacent;
    hide LowSoFar;
    hide Connected;
  }

  lemma VisitingWithLow(open: set<Point>, before: Marks, now: Marks, fin: Marks, stack: seq<Point>, p: Point, ns: seq<Point>, i: nat, children: nat, low: int)
    requires i < |ns| && Visiting(open, before, now, stack, p, ns, i, children)
    requires p in now.low && p in now.discovery && (forall k :: 0 <= k < |stack| ==> stack[k] in now.discovery)
    requires fin == now.(low := now.low[p := low]) && ns[i] in now.discovery
    requires LowSoFar(now.discovery, low, New(before, now) - {p}, stack, p, ns[..i] + [ns[i]])
    ensures Visiting(open, before, fin, stack, p, ns, i + 1, children)
  {
    hide Adjacent;
    hide LowSoFar;
    hide Connected;
    hide Ready;
    hide Extends;
    hide Consistent;
    hide CutSoFar;
    hide ChildrenSoFar;
    assert ns[..i + 1] == ns[..i] + [ns[i]];
    ParentShape(open, before, stack, p);
    LowUpdate(open, before, now, fin, stack, p, low, children);
  }

  lemma EdgeTarget(open: set<Point>, before: Marks, now: Marks, stack: seq<Point>, p: Point, ns: seq<Point>, i: nat, children: nat)
    requires i < |ns| && ns == Neighbors(p, open)
    requires Visiting(open, before, now, stack, p, ns, i, children)
    requires ns[i] in now.discovery
    ensures ns[i] in New(before, now) - {p} || ns[i] in stack
  {
    hide Visiting;
    assert ns[i] in ns;
    CellEdges(open, before, now, stack, p, ns, i, children);
  }

  /** Lowering `p`'s own low link disturbs nothing else. */
  lemma LowUpdate(open: set<Point>, before: Marks, now: Marks, fin: Marks, stack: seq<Point>, p: Point, low: int, children: nat)
    requires p in now.low && fin == now.(low := now.low[p := low])
    requires Consistent(open, now, stack + [p]) && Extends(before, now) && p !in before.discovery
    requires CutSoFar(open, before, now, stack, p, children)
    ensures Consistent(open, fin, stack + [p]) && Extends(before, fin)
    ensures CutSoFar(open, before, fin, stack, p, children)
    ensures New(before, fin) == New(before, now)
  {
    assert New(before, fin) == New(before, now);
  }

  lemma ParentShape(open: set<Point>, before: Marks, stack: seq<Point>, p: Point)
    requires Ready(open, before, stack, p)
    ensures p in before.parent
    ensures if stack == [] then before.parent[p].None? else before.parent[p] == Some(stack[|stack| - 1])
    ensures p !in before.discovery
  {
  }

  lemma LowEdge(d: map<Point, int>, low: int, cells: set<Point>, stack: seq<Point>, p: Point, n: Point, handled: seq<Point>)
    requires p in d && n in d && (forall i :: 0 <= i < |stack| ==> stack[i] in d)
    requires LowSoFar(d, low, cells, stack, p, handled)
    requires Adjacent(p, n) && (n in cells || n in stack) && forall s :: s in cells ==> s in d && d[s] > d[p]
    ensures LowSoFar(d, if stack != [] && n == stack[|stack| - 1] then low else Least(low, d[n]), cells, stack, p, handled + [n])
  {
    var low' := if stack != [] && n == stack[|stack| - 1] then low else Least(low, d[n]);
    if low' != low {
      assert BackEdge(cells + {p}, stack, p, p, n);
    }
  }

  /** All neighbours handled: the visit's contract holds. */
  lemma VisitEnds(open: set<Point>, before: Marks, now: Marks, stack: seq<Point>, p: Point, ns: seq<Point>, children: nat)
    requires ns == Neighbors(p, open)
    requires Visiting(open, before, now, stack, p, ns, |ns|, children)
    ensures Visited(open, before, now, stack, p)
  {
    hide Adjacent;
    hide BackEdge;
    hide Neighbors;
    hide IsArticulation;
    hide ChildrenSoFar;
    hide LowSoFar;
    hide LowLink;
    hide OnStack;
    hide Connected;
    var cells, all := New(before, now) - {p}, New(before, now);
    assert all == cells + {p};
    assert ns[..|ns|] == ns;
    CellEdges(open, before, now, stack, p, ns, |ns|, children);
    FinishedOnReturn(open, before, now, stack, p, ns);
    LowFinal(open, now.discovery, now.low[p], cells, stack, p, ns);
    ConnectedSelf(all, p);
    CutDecided(open, before, now, stack, p, ns, children);
  }

  lemma FinishedOnReturn(open: set<Point>, before: Marks, now: Marks, stack: seq<Point>, p: Point, ns: seq<Point>)
    requires Ready(open, before, stack, p)
    requires Consistent(open, now, stack + [p]) && ns == Neighbors(p, open)
    requires forall j :: 0 <= j < |ns| ==> ns[j] in now.discovery
    ensures Consistent(open, now, stack)
  {
    var path := stack + [p];
    assert path[|stack|] == p && forall h :: h in path <==> h in stack || h == p;
    assert forall i :: 0 <= i < |stack| ==> path[i] == stack[i];
    forall u, v | u in now.discovery && u !in stack && v in open && Adjacent(u, v)
      ensures v in now.discovery
    {
      if u == p {
        assert v in ns;
      }
    }
  }

  lemma LowFinal(open: set<Point>, d: map<Point, int>, low: int, cells: set<Point>, stack: seq<Point>, p: Point, ns: seq<Point>)
    requires p in d && forall i :: 0 <= i < |stack| ==> stack[i] in d && stack[i] in open
    requires ns == Neighbors(p, open)
    requires LowSoFar(d, low, cells, stack, p, ns)
    ensures LowLink(d, low, cells + {p}, stack, p)
  {
    forall s, h | BackEdge(cells + {p}, stack, p, s, h)
      ensures low <= d[h]
    {
      if s == p {
        assert h in ns && BackEdge({p}, stack, p, p, h);
      } else {
        assert BackEdge(cells, stack, p, s, h);
      }
    }
  }

  /** With every neighbour handled, `p` was marked exactly if it is an articulation point. */
  lemma CutDecided(open: set<Point>, before: Marks, now: Marks, stack: seq<Point>, p: Point, ns: seq<Point>, children: nat)
    requires ns == Neighbors(p, open)
    requires Visiting(open, before, now, stack, p, ns, |ns|, children)
    ensures p in now.cut <==> IsArticulation(open, p)
  {
    hide LowSoFar;
    hide IsArticulation;
    hide Connected;
    var cells, rest := New(before, now) - {p}, open - {p};
    CellEdges(open, before, now, stack, p, ns, |ns|, children);
    if p !in now.cut {
      forall a, b | a in open && b in open && Adjacent(a, p) && Adjacent(b, p)
        ensures Connected(rest, a, b)
      {
        assert a in ns && b in ns && Adjacent(p, a) && Adjacent(p, b);
        if stack == [] {
          assert AllConnected(cells);
          ConnectedMore(cells, rest, a, b);
        } else {
          ReachesParent(open, before, now, stack, p, ns, children, a);
          ReachesParent(open, before, now, stack, p, ns, children, b);
          ConnectedSym(rest, b, stack[|stack| - 1]);
          ConnectedTrans(rest, a, stack[|stack| - 1], b);
        }
      }
      NotCut(open, p);
    }
  }

  lemma ReachesParent(open: set<Point>, before: Marks, now: Marks, stack: seq<Point>, p: Point, ns: seq<Point>, children: nat, a: Point)
    requires ns == Neighbors(p, open)
    requires Visiting(open, before, now, stack, p, ns, |ns|, children)
    requires p !in now.cut && stack != [] && a in open && Adjacent(p, a)
    ensures Connected(open - {p}, a, stack[|stack| - 1])
  {
    hide LowSoFar;
    hide IsArticulation;
    hide Connected;
    hide ChildrenSoFar;
    CellEdges(open, before, now, stack, p, ns, |ns|, children);
    assert a in ns;
    if a in stack {
      var k :| 0 <= k < |stack| && stack[k] == a;
      StackConnected(open, before.discovery, stack, k);
      ConnectedMore(CellsOf(stack), open - {p}, a, stack[|stack| - 1]);
    }
  }
}
