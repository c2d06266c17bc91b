/** The nearest place to give way: a Dijkstra search with lazy deletion over grid cells. */
module YieldPocket {
  import opened Options
  import opened Sorting

  type Cell = (int, int)
  type Entry = (real, Cell)

  datatype Pocket = Pocket(id: int, cell: Cell)

  /**
   What the search is given once the masks are computed:
   - blocked: impassable cells, the start's own cell never
   - forbid: cells too close to other robots or their paths, or too narrow to stop in
   - zones: cells of intersections and corridors
   - diagonal: the length of a diagonal step in cells
   */
  datatype Grid = Grid(width: int, height: int, res: real, diagonal: real, radius: real, start: Cell,
                       blocked: set<Cell>, forbid: set<Cell>, zones: set<Cell>) {

    predicate Inside(c: Cell) {
      0 <= c.0 < width && 0 <= c.1 < height
    }

    predicate Open(c: Cell) {
      Inside(c) && (c == start || c !in blocked)
    }

    ghost predicate Valid() {
      res > 0.0 && diagonal > 0.0 && Inside(start)
    }

    ghost predicate Adjacent(a: Cell, b: Cell) {
      -1 <= b.0 - a.0 <= 1 && -1 <= b.1 - a.1 <= 1 && a != b
    }

    ghost function StepCost(a: Cell, b: Cell): real {
      (if a.0 == b.0 || a.1 == b.1 then 1.0 else diagonal) * res
    }

    /** A step leads to a neighbouring cell of the grid that can be passed. */
    ghost predicate Step(a: Cell, b: Cell) {
      Adjacent(a, b) && 0 <= b.0 < width && 0 <= b.1 < height && (b !in blocked || b == start)
    }

    /** A sequence of cells from the start over open cells. */
    ghost predicate Route(p: seq<Cell>) {
      && |p| > 0 && p[0] == start
      && forall i :: 0 <= i < |p| - 1 ==> Step(p[i], p[i + 1])
    }

    ghost function Cost(p: seq<Cell>): real {
      if |p| <= 1 then 0.0 else Cost(p[..|p| - 1]) + StepCost(p[|p| - 2], p[|p| - 1])
    }

    /** Standing still is always possible, moving only within the search radius. */
    ghost predicate Reachable(p: seq<Cell>) {
      Route(p) && (|p| == 1 || Cost(p) <= radius)
    }
  }

  /** Where the search may end: at a listed pocket, or at any allowed cell in automatic mode. */
  datatype Goals = Goals(targets: map<Cell, Pocket>, auto: bool, avoid: set<Cell>) {
    predicate IsGoal(c: Cell) {
      c in targets || (auto && c !in avoid)
    }
  }

  /** The pockets standing on usable cells; the last one listed wins a cell. */
  function Targets(g: Grid, pockets: seq<Pocket>): (t: map<Cell, Pocket>)
    ensures forall c :: c in t ==> g.Inside(c) && c !in g.forbid && t[c] in pockets && t[c].cell == c
    ensures forall k :: 0 <= k < |pockets| && g.Inside(pockets[k].cell) && pockets[k].cell !in g.forbid ==>
              pockets[k].cell in t
  {
    if pockets == [] then map[]
    else
      var k := |pockets| - 1;
      var t := Targets(g, pockets[..k]);
      var c := pockets[k].cell;
      if g.Inside(c) && c !in g.forbid then t[c := pockets[k]] else t
  }

  /** Listed pockets first; automatic cells if none is listed or none of them is usable. */
  function GoalsOf(g: Grid, pockets: seq<Pocket>, autoPockets: bool, allowZones: bool): Goals {
    var t := Targets(g, pockets);
    Goals(t, autoPockets && (pockets == [] || t == map[]), if allowZones then g.forbid else g.forbid + g.zones)
  }

  // ---------------------------------------------------------------- the eight moves

  const MOVES: seq<(int, int)> := [(1, 0), (-1, 0), (0, 1), (0, -1), (1, 1), (1, -1), (-1, 1), (-1, -1)]

  function Neighbour(c: Cell, k: nat): Cell
    requires k < 8
  {
    (c.0 + MOVES[k].0, c.1 + MOVES[k].1)
  }

  function MoveCost(g: Grid, k: nat): real {
    (if k < 4 then 1.0 else g.diagonal) * g.res
  }

  lemma MoveIsStep(g: Grid, c: Cell, k: nat)
    requires k < 8
    ensures g.Adjacent(c, Neighbour(c, k)) && g.StepCost(c, Neighbour(c, k)) == MoveCost(g, k)
  {
  }

  lemma StepIsMove(g: Grid, a: Cell, b: Cell) returns (k: nat)
    requires g.Adjacent(a, b)
    ensures k < 8 && Neighbour(a, k) == b && MoveCost(g, k) == g.StepCost(a, b)
  {
    var dx, dy := b.0 - a.0, b.1 - a.1;
    k := if dx == 1 then (if dy == 0 then 0 else if dy == 1 then 4 else 5)
         else if dx == -1 then (if dy == 0 then 1 else if dy == 1 then 6 else 7)
         else if dy == 1 then 2 else 3;
  }

  lemma CostGrows(g: Grid, a: Cell, b: Cell)
    requires g.Valid()
    ensures g.StepCost(a, b) > 0.0
  {
  }

  // ---------------------------------------------------------------- the search state

  /**
   - dist, parent, heap: as the search keeps them
   - done: cells expanded so far
   - via: a route of exactly the recorded distance to every cell found
   */
  datatype State = State(dist: map<Cell, real>, parent: map<Cell, Cell>, heap: set<Entry>,
                         done: set<Cell>, via: map<Cell, seq<Cell>>)

  ghost predicate Found(g: Grid, s: State, c: Cell) {
    && c in s.dist && c in s.via
    && g.Reachable(s.via[c]) && s.via[c][|s.via[c]| - 1] == c && g.Cost(s.via[c]) == s.dist[c]
    && (if c == g.start then c !in s.parent && s.via[c] == [c]
        else c in s.parent && s.parent[c] in s.done && s.parent[c] in s.via && s.via[c] == s.via[s.parent[c]] + [c])
  }

  ghost predicate Routes(g: Grid, s: State) {
    && g.start in s.dist && s.done <= s.dist.Keys
    && s.via.Keys == s.dist.Keys
    && forall c :: c in s.dist ==> g.Inside(c) && Found(g, s, c)
  }

  ghost predicate Queued(s: State) {
    && (forall e :: e in s.heap ==> e.1 in s.dist && s.dist[e.1] <= e.0 && (e.1 in s.done ==> s.dist[e.1] < e.0))
    && (forall c :: c in s.dist && c !in s.done ==> (s.dist[c], c) in s.heap)
    && (forall c, e :: c in s.done && c in s.dist && e in s.heap ==> s.dist[c] <= e.0)
  }

  /** The first k neighbours of a are at least as near as the way over a. */
  ghost predicate Relaxed(g: Grid, s: State, a: Cell, k: nat)
    requires k <= 8
  {
    a in s.dist &&
    forall j :: 0 <= j < k ==>
      var b := Neighbour(a, j);
      var nd := s.dist[a] + MoveCost(g, j);
      g.Open(b) && nd <= g.radius ==> b in s.dist && s.dist[b] <= nd
  }

  /** c is being expanded and has k neighbours relaxed; all other expanded cells are complete, none is a goal. */
  ghost predicate Expanded(g: Grid, goals: Goals, s: State, c: Cell, k: nat)
    requires k <= 8
  {
    && (forall a :: a in s.done ==> !goals.IsGoal(a))
    && (forall a :: a in s.done ==> Relaxed(g, s, a, if a == c then k else 8))
  }

  ghost predicate Inv(g: Grid, goals: Goals, s: State, c: Cell, k: nat)
    requires k <= 8
  {
    g.Valid() && Routes(g, s) && Queued(s) && Expanded(g, goals, s, c, k)
  }

  /** Behind an expanded cell that is as near as the route before its last step, the whole route counts. */
  lemma LastStep(g: Grid, goals: Goals, s: State, c: Cell, p: seq<Cell>)
    requires Inv(g, goals, s, c, 8) && g.Reachable(p) && |p| > 1
    requires p[|p| - 2] in s.done && p[|p| - 2] in s.dist && s.dist[p[|p| - 2]] <= g.Cost(p[..|p| - 1])
    ensures p[|p| - 1] in s.dist && s.dist[p[|p| - 1]] <= g.Cost(p)
  {
    hide Routes, Queued;
    var y, x := p[|p| - 2], p[|p| - 1];
    assert g.Step(p[|p| - 2], p[|p| - 1]);
    var k := StepIsMove(g, y, x);
    assert Relaxed(g, s, y, 8);
    assert Neighbour(y, k) == x && g.Open(x);
  }

  /** A route within the radius ends at an expanded cell, or something on the heap is no further. */
  lemma {:induction false} Frontier(g: Grid, goals: Goals, s: State, c: Cell, p: seq<Cell>)
    requires Inv(g, goals, s, c, 8) && g.Reachable(p)
    ensures var x := p[|p| - 1];
            || (x in s.done && x in s.dist && s.dist[x] <= g.Cost(p))
            || exists e :: e in s.heap && e.0 <= g.Cost(p)
  {
    var x := p[|p| - 1];
    if |p| == 1 {
      assert Found(g, s, x);
      if x !in s.done {
        assert (s.dist[x], x) in s.heap;
      }
    } else {
      var q := p[..|p| - 1];
      var y := q[|q| - 1];
      CostGrows(g, y, x);
      assert g.Reachable(q);
      Frontier(g, goals, s, c, q);
      if y in s.done && s.dist[y] <= g.Cost(q) {
        LastStep(g, goals, s, c, p);
        if x !in s.done {
          assert (s.dist[x], x) in s.heap;
        }
      }
    }
  }

  /** No expanded cell is further than the one being expanded. */
  ghost predicate Newest(s: State, c: Cell) {
    c in s.done && c in s.dist && forall a :: a in s.done && a in s.dist ==> s.dist[a] <= s.dist[c]
  }

  ghost predicate CanImprove(g: Grid, s: State, c: Cell, k: nat)
    requires k < 8 && c in s.dist
  {
    var n, nd := Neighbour(c, k), s.dist[c] + MoveCost(g, k);
    g.Open(n) && nd <= g.radius && (n !in s.dist || nd < s.dist[n])
  }

  // ---------------------------------------------------------------- taking an entry off the heap

  ghost predicate Least(heap: set<Entry>, e: Entry) {
    e in heap && forall f :: f in heap ==> Before(e, f)
  }

  /** Tuple order: distance, then column, then row. */
  predicate Before(e: Entry, f: Entry) {
    e.0 < f.0 || (e.0 == f.0 && (e.1.0 < f.1.0 || (e.1.0 == f.1.0 && e.1.1 <= f.1.1)))
  }

  lemma {:induction false} LeastExists(heap: set<Entry>)
    requires heap != {}
    ensures exists e :: Least(heap, e)
    decreases |heap|
  {
    var x := Pick(heap);
    var rest := heap - {x};
    assert forall f :: f in heap <==> f == x || f in rest;
    if rest != {} {
      LeastExists(rest);
      var m :| Least(rest, m);
      assert Least(heap, if Before(m, x) then m else x);
    } else {
      assert Least(heap, x);
    }
  }

  method HeapPop(heap: set<Entry>) returns (e: Entry, rest: set<Entry>)
    requires heap != {}
    ensures Least(heap, e) && rest == heap - {e}
  {
    LeastExists(heap);
    e :| e in heap && forall f :: f in heap ==> Before(e, f);
    rest := heap - {e};
  }

  /** An entry that was overtaken by a shorter way is dropped. */
  lemma RoutesWithout(g: Grid, s: State, e: Entry)
    requires Routes(g, s)
    ensures Routes(g, s.(heap := s.heap - {e})) && forall a :: a in s.done ==> Found(g, s, a)
  {
    hide Grid.Reachable, Grid.Cost;
    var s' := s.(heap := s.heap - {e});
    forall a | a in s'.dist ensures g.Inside(a) && Found(g, s', a) {
      assert Found(g, s, a);
    }
  }

  lemma DropStale(g: Grid, goals: Goals, s: State, c: Cell, e: Entry)
    requires Inv(g, goals, s, c, 8) && e in s.heap && s.dist[e.1] < e.0
    ensures Inv(g, goals, s.(heap := s.heap - {e}), c, 8)
  {
    hide Relaxed, Grid.Reachable, Grid.Cost, Grid.Valid;
    var s' := s.(heap := s.heap - {e});
    RoutesWithout(g, s, e);
    forall a | a in s.done ensures Relaxed(g, s', a, 8) {
      SameRelaxed(g, s, s', a, 8);
    }
  }

  lemma SameRelaxed(g: Grid, s: State, s': State, a: Cell, k: nat)
    requires k <= 8 && a in s.done && s'.dist == s.dist && Relaxed(g, s, a, k)
    ensures Relaxed(g, s', a, k)
  {
  }

  ghost function Taken(s: State, e: Entry): State {
    s.(heap := s.heap - {e}, done := s.done + {e.1})
  }

  lemma TakeRoutes(g: Grid, s: State, e: Entry)
    requires Routes(g, s) && e.1 in s.dist
    ensures Routes(g, Taken(s, e))
  {
    forall a | a in s.dist ensures g.Inside(a) && Found(g, Taken(s, e), a) {
      assert Found(g, s, a);
    }
  }

  lemma TakeQueued(s: State, e: Entry)
    requires Queued(s) && Least(s.heap, e) && s.dist[e.1] >= e.0 && s.done <= s.dist.Keys
    ensures Queued(Taken(s, e)) && Newest(Taken(s, e), e.1)
    ensures e.1 !in s.done && s.dist[e.1] == e.0
  {
    var s' := Taken(s, e);
    assert s.dist[e.1] == e.0 && e.1 !in s.done;
    forall f | f in s'.heap
      ensures f.1 in s'.dist && s'.dist[f.1] <= f.0 && (f.1 in s'.done ==> s'.dist[f.1] < f.0) && e.0 <= f.0
    {
      assert f in s.heap && Before(e, f);
      assert f.1 == e.1 && f.0 == e.0 ==> f == e;
    }
  }

  lemma TakeExpanded(g: Grid, goals: Goals, s: State, c0: Cell, e: Entry)
    requires Expanded(g, goals, s, c0, 8) && e.1 in s.dist && !goals.IsGoal(e.1) && e.1 !in s.done
    ensures Expanded(g, goals, Taken(s, e), e.1, 0)
  {
    hide Relaxed;
    forall a | a in s.done + {e.1} ensures Relaxed(g, Taken(s, e), a, if a == e.1 then 0 else 8) {
      if a == e.1 {
        RelaxedNone(g, Taken(s, e), a);
      } else {
        SameRelaxed(g, s, Taken(s, e), a, 8);
      }
    }
  }

  /** The nearest queued cell is taken to be expanded. */
  lemma Take(g: Grid, goals: Goals, s: State, c0: Cell, e: Entry)
    requires Inv(g, goals, s, c0, 8) && Least(s.heap, e) && e.1 in s.dist && s.dist[e.1] >= e.0
    requires !goals.IsGoal(e.1)
    ensures Inv(g, goals, Taken(s, e), e.1, 0) && Newest(Taken(s, e), e.1)
    ensures e.1 !in s.done && g.Inside(e.1) && s.dist[e.1] == e.0
  {
    hide Expanded, Queued, Found;
    TakeRoutes(g, s, e);
    TakeQueued(s, e);
    TakeExpanded(g, goals, s, c0, e);
  }

  lemma RelaxedNone(g: Grid, s: State, a: Cell)
    requires a in s.dist
    ensures Relaxed(g, s, a, 0)
  {
  }

  // ---------------------------------------------------------------- relaxing a neighbour

  /** The k-th neighbour of c is closed, too far, or no nearer this way. */
  lemma SkipMove(g: Grid, goals: Goals, s: State, c: Cell, k: nat)
    requires k < 8 && Inv(g, goals, s, c, k) && c in s.done && c in s.dist
    requires !CanImprove(g, s, c, k)
    ensures Inv(g, goals, s, c, k + 1)
  {
    hide Routes, Queued;
    forall a | a in s.done ensures Relaxed(g, s, a, if a == c then k + 1 else 8) {
      assert Relaxed(g, s, a, if a == c then k else 8);
    }
  }

  ghost function Improved(s: State, c: Cell, n: Cell, nd: real): State
    requires c in s.via
  {
    s.(dist := s.dist[n := nd], parent := s.parent[n := c], heap := s.heap + {(nd, n)}, via := s.via[n := s.via[c] + [n]])
  }

  lemma ImproveFound(g: Grid, s: State, c: Cell, k: nat)
    requires k < 8 && g.Valid() && Routes(g, s) && Newest(s, c) && CanImprove(g, s, c, k)
    ensures var n, nd := Neighbour(c, k), s.dist[c] + MoveCost(g, k);
            n !in s.done && n != g.start && Found(g, Improved(s, c, n, nd), n) && nd > s.dist[c]
  {
    hide Neighbour, MoveCost, Grid.Cost, Grid.StepCost, Grid.Adjacent, Grid.Valid, Grid.Reachable, Grid.Open;
    var n, nd := Neighbour(c, k), s.dist[c] + MoveCost(g, k);
    MoveIsStep(g, c, k);
    CostGrows(g, c, n);
    assert Found(g, s, c);
    StartIsFree(g, s);
    CostPositive(g, s.via[c]);
    NotExpanded(g, s, c, n, nd);
    Longer(g, s.via[c], c, n);
  }

  lemma StartIsFree(g: Grid, s: State)
    requires Routes(g, s)
    ensures s.dist[g.start] == 0.0
  {
    hide Grid.StepCost;
    assert Found(g, s, g.start);
    OneCell(g, s.via[g.start]);
  }

  /** A cell that can still be improved by the newest expanded one has not been expanded itself. */
  lemma NotExpanded(g: Grid, s: State, c: Cell, n: Cell, nd: real)
    requires Newest(s, c) && c in s.dist && s.done <= s.dist.Keys && nd > s.dist[c] && (n !in s.dist || nd < s.dist[n])
    ensures n !in s.done
  {
  }

  /** A route with one more step. */
  lemma Longer(g: Grid, p: seq<Cell>, c: Cell, n: Cell)
    requires g.Reachable(p) && p[|p| - 1] == c && g.Adjacent(c, n) && g.Open(n) && g.Cost(p) + g.StepCost(c, n) <= g.radius
    ensures g.Reachable(p + [n]) && g.Cost(p + [n]) == g.Cost(p) + g.StepCost(c, n)
  {
    hide Grid.StepCost, Grid.Adjacent;
    var q := p + [n];
    assert q[..|q| - 1] == p;
    forall i | 0 <= i < |q| - 1 ensures g.Step(q[i], q[i + 1]) {
      if i < |p| - 1 {
        assert g.Step(p[i], p[i + 1]);
      }
    }
  }

  lemma OneCell(g: Grid, p: seq<Cell>)
    ensures |p| == 1 ==> g.Cost(p) == 0.0
  {
  }

  lemma {:induction false} CostPositive(g: Grid, p: seq<Cell>)
    requires g.Valid()
    ensures g.Cost(p) >= 0.0
  {
    if |p| > 1 {
      CostPositive(g, p[..|p| - 1]);
      CostGrows(g, p[|p| - 2], p[|p| - 1]);
    }
  }

  lemma ImproveRoutes(g: Grid, s: State, c: Cell, k: nat)
    requires k < 8 && g.Valid() && Routes(g, s) && Newest(s, c) && CanImprove(g, s, c, k)
    ensures c in s.via && Routes(g, Improved(s, c, Neighbour(c, k), s.dist[c] + MoveCost(g, k)))
  {
    hide Found, CanImprove, Neighbour, MoveCost;
    FoundVia(g, s, c);
    var n, nd := Neighbour(c, k), s.dist[c] + MoveCost(g, k);
    ImproveFound(g, s, c, k);
    InsideGrid(g, s, c, k, n);
    forall a | a in s.dist && a != n ensures g.Inside(a) && Found(g, Improved(s, c, n, nd), a) {
      ImproveOther(g, s, c, n, nd, a);
    }
  }

  lemma InsideGrid(g: Grid, s: State, c: Cell, k: nat, n: Cell)
    requires k < 8 && c in s.dist && CanImprove(g, s, c, k) && n == Neighbour(c, k)
    ensures g.Inside(n)
  {
  }

  lemma FoundVia(g: Grid, s: State, c: Cell)
    requires Routes(g, s) && c in s.dist
    ensures c in s.via
  {
  }

  lemma ImproveOther(g: Grid, s: State, c: Cell, n: Cell, nd: real, a: Cell)
    requires Routes(g, s) && c in s.via && a in s.dist && a != n && n !in s.done
    ensures Found(g, Improved(s, c, n, nd), a)
  {
    assert Found(g, s, a);
  }

  lemma ImproveQueued(g: Grid, s: State, c: Cell, n: Cell, nd: real)
    requires Queued(s) && Newest(s, c) && c in s.via && n !in s.done
    requires nd > s.dist[c] && (n !in s.dist || nd < s.dist[n])
    ensures Queued(Improved(s, c, n, nd))
  {
  }

  lemma ImproveExpanded(g: Grid, goals: Goals, s: State, c: Cell, k: nat)
    requires k < 8 && Expanded(g, goals, s, c, k) && Newest(s, c) && c in s.via && CanImprove(g, s, c, k)
    requires Neighbour(c, k) !in s.done
    ensures Expanded(g, goals, Improved(s, c, Neighbour(c, k), s.dist[c] + MoveCost(g, k)), c, k + 1)
  {
    var s' := Improved(s, c, Neighbour(c, k), s.dist[c] + MoveCost(g, k));
    forall a | a in s'.done ensures Relaxed(g, s', a, if a == c then k + 1 else 8) {
      assert Relaxed(g, s, a, if a == c then k else 8);
    }
  }

  lemma Improve(g: Grid, goals: Goals, s: State, c: Cell, k: nat)
    requires k < 8 && Inv(g, goals, s, c, k) && Newest(s, c) && CanImprove(g, s, c, k)
    ensures c in s.via
    ensures var s' := Improved(s, c, Neighbour(c, k), s.dist[c] + MoveCost(g, k));
            Inv(g, goals, s', c, k + 1) && Newest(s', c) && s'.dist[c] == s.dist[c]
  {
    hide Routes, Queued, Expanded;
    ImproveFound(g, s, c, k);
    ImproveRoutes(g, s, c, k);
    ImproveQueued(g, s, c, Neighbour(c, k), s.dist[c] + MoveCost(g, k));
    ImproveExpanded(g, goals, s, c, k);
  }

  // ---------------------------------------------------------------- the search

  /** The way back over the parents is the recorded route. */
  method RouteTo(ghost g: Grid, ghost s: State, parent: map<Cell, Cell>, c: Cell) returns (p: seq<Cell>)
    requires Routes(g, s) && c in s.dist && parent == s.parent
    ensures c in s.via && p == s.via[c]
  {
    hide *;
    var x := c;
    p := [x];
    ghost var pre := RouteBack(g, s, x);
    while x in parent
      invariant x in s.dist && x in s.via && s.via[x] == pre + [x]
      invariant c in s.via && s.via[c] == pre + p
      invariant x !in parent ==> pre == []
      decreases |pre|
    {
      ghost var p0 := p;
      ghost var pre0 := RouteBack(g, s, x);
      assert pre0 == s.via[x][..|s.via[x]| - 1] == pre;
      x := parent[x];
      pre := RouteBack(g, s, x);
      p := [x] + p;
      assert s.via[c] == (pre + [x]) + p0 == pre + p;
    }
  }

  lemma RouteBack(g: Grid, s: State, c: Cell) returns (pre: seq<Cell>)
    requires Routes(g, s) && c in s.dist
    ensures c in s.via && s.via[c] == pre + [c]
    ensures c !in s.parent ==> pre == []
    ensures c in s.parent ==>
              s.parent[c] in s.dist && s.parent[c] in s.via && pre == s.via[s.parent[c]]
  {
    assert Found(g, s, c);
    pre := s.via[c][..|s.via[c]| - 1];
  }

  /** The place chosen: a listed pocket or an automatic cell, with what it costs and the way there. */
  datatype Chosen = Chosen(pocket: Option<Pocket>, cell: Cell, cost: real, route: seq<Cell>)

  /** ch is a goal, its route leads there at exactly its cost, and no reachable goal is nearer. */
  ghost predicate NearestGoal(g: Grid, goals: Goals, ch: Chosen) {
    && goals.IsGoal(ch.cell)
    && ch.pocket == (if ch.cell in goals.targets then Some(goals.targets[ch.cell]) else None)
    && g.Reachable(ch.route) && ch.route[|ch.route| - 1] == ch.cell && g.Cost(ch.route) == ch.cost
    && forall p :: g.Reachable(p) && goals.IsGoal(p[|p| - 1]) ==> FirstChoice(g, ch, p)
  }

  /** The choice is no further than the end of p, and in an earlier column, or row, if it is as far. */
  ghost predicate FirstChoice(g: Grid, ch: Chosen, p: seq<Cell>)
    requires p != []
  {
    var x := p[|p| - 1];
    ch.cost < g.Cost(p) ||
    (ch.cost == g.Cost(p) && (ch.cell.0 < x.0 || (ch.cell.0 == x.0 && ch.cell.1 <= x.1)))
  }

  ghost predicate NoGoal(g: Grid, goals: Goals) {
    forall p :: g.Reachable(p) ==> !goals.IsGoal(p[|p| - 1])
  }

  /** A pocket on the grid that is not forbidden. */
  ghost predicate Usable(g: Grid, p: Pocket) {
    0 <= p.cell.0 < g.width && 0 <= p.cell.1 < g.height && p.cell !in g.forbid
  }

  /** The last listed of the usable pockets at a cell. */
  ghost predicate LastAt(g: Grid, pockets: seq<Pocket>, c: Cell, k: nat) {
    k < |pockets| && Usable(g, pockets[k]) && pockets[k].cell == c &&
    forall j :: k < j < |pockets| ==> !(Usable(g, pockets[j]) && pockets[j].cell == c)
  }

  /**
   The search may end at a cell: a usable pocket is there; or no listed one is usable, and the cell is not forbidden
   and outside the zones, which do not count as a last resort.
   */
  ghost predicate MayStop(g: Grid, pockets: seq<Pocket>, autoPockets: bool, allowZones: bool, c: Cell) {
    || (exists k: nat :: LastAt(g, pockets, c, k))
    || (autoPockets && (forall k :: 0 <= k < |pockets| ==> !Usable(g, pockets[k])) && c !in g.forbid && (allowZones || c !in g.zones))
  }

  lemma {:induction false} TargetsAre(g: Grid, pockets: seq<Pocket>, c: Cell)
    ensures c in Targets(g, pockets) <==> exists k: nat :: LastAt(g, pockets, c, k)
    ensures forall k: nat :: LastAt(g, pockets, c, k) ==> c in Targets(g, pockets) && Targets(g, pockets)[c] == pockets[k]
  {
    hide LastAt;
    if pockets == [] {
      NoneListed(g, c);
    } else {
      var n := |pockets| - 1;
      var rest := pockets[..n];
      TargetsAre(g, rest, c);
      LastOneMore(g, pockets, rest, c);
      if Usable(g, pockets[n]) && pockets[n].cell == c {
        assert LastAt(g, pockets, c, n);
      } else if c in Targets(g, pockets) {
        var k: nat :| LastAt(g, rest, c, k);
        assert LastAt(g, pockets, c, k);
      }
    }
  }

  lemma NoneListed(g: Grid, c: Cell)
    ensures forall k: nat :: !LastAt(g, [], c, k)
  {
  }

  /** One more pocket: the last at its own cell if it is usable, without effect on the others. */
  lemma LastOneMore(g: Grid, pockets: seq<Pocket>, rest: seq<Pocket>, c: Cell)
    requires pockets != [] && rest == pockets[..|pockets| - 1]
    ensures var n := |pockets| - 1;
            forall k: nat ::
              LastAt(g, pockets, c, k) ==>
                if Usable(g, pockets[n]) && pockets[n].cell == c then k == n
                else LastAt(g, rest, c, k) && rest[k] == pockets[k]
    ensures var n := |pockets| - 1;
            if Usable(g, pockets[n]) && pockets[n].cell == c then LastAt(g, pockets, c, n)
            else forall k: nat :: LastAt(g, rest, c, k) ==> LastAt(g, pockets, c, k)
  {
    hide Usable;
  }

  /** The goals are exactly the cells where the search may end. */
  lemma GoalsAre(g: Grid, pockets: seq<Pocket>, autoPockets: bool, allowZones: bool, c: Cell)
    ensures GoalsOf(g, pockets, autoPockets, allowZones).IsGoal(c) <==> MayStop(g, pockets, autoPockets, allowZones, c)
    ensures forall k: nat :: LastAt(g, pockets, c, k) ==>
              c in GoalsOf(g, pockets, autoPockets, allowZones).targets &&
              GoalsOf(g, pockets, autoPockets, allowZones).targets[c] == pockets[k]
  {
    TargetsAre(g, pockets, c);
    var t := Targets(g, pockets);
    if t != map[] {
      var x :| x in t;
      TargetsAre(g, pockets, x);
      var k: nat :| LastAt(g, pockets, x, k);
      assert Usable(g, pockets[k]);
    }
    if k :| 0 <= k < |pockets| && Usable(g, pockets[k]) {
      assert pockets[k].cell in t;
    }
  }

  /** The answer in terms of what was asked: a place to stop, nearest of all, its pocket the last one listed there. */
  ghost predicate BestStop(g: Grid, pockets: seq<Pocket>, autoPockets: bool, allowZones: bool, ch: Chosen) {
    && MayStop(g, pockets, autoPockets, allowZones, ch.cell)
    && (if ch.pocket.Some? then exists k: nat :: LastAt(g, pockets, ch.cell, k) && ch.pocket.value == pockets[k]
        else forall k: nat :: !LastAt(g, pockets, ch.cell, k))
    && g.Reachable(ch.route) && ch.route[|ch.route| - 1] == ch.cell && g.Cost(ch.route) == ch.cost
    && forall p :: g.Reachable(p) && MayStop(g, pockets, autoPockets, allowZones, p[|p| - 1]) ==> FirstChoice(g, ch, p)
  }

  lemma NearestIsBest(g: Grid, pockets: seq<Pocket>, autoPockets: bool, allowZones: bool, ch: Chosen)
    requires NearestGoal(g, GoalsOf(g, pockets, autoPockets, allowZones), ch)
    ensures BestStop(g, pockets, autoPockets, allowZones, ch)
  {
    hide GoalsOf, MayStop, Usable, FirstChoice, Grid.Step, Grid.Cost;
    var goals := GoalsOf(g, pockets, autoPockets, allowZones);
    forall c ensures goals.IsGoal(c) <==> MayStop(g, pockets, autoPockets, allowZones, c) {
      GoalsAre(g, pockets, autoPockets, allowZones, c);
    }
    GoalsAre(g, pockets, autoPockets, allowZones, ch.cell);
    TargetOrNot(g, pockets, autoPockets, allowZones, ch.cell);
    if ch.pocket.Some? {
      var k: nat :| LastAt(g, pockets, ch.cell, k);
      assert ch.pocket.value == pockets[k];
    }
    forall p | g.Reachable(p) && MayStop(g, pockets, autoPockets, allowZones, p[|p| - 1]) ensures FirstChoice(g, ch, p) {
      assert goals.IsGoal(p[|p| - 1]);
    }
  }

  lemma TargetOrNot(g: Grid, pockets: seq<Pocket>, autoPockets: bool, allowZones: bool, c: Cell)
    ensures c in GoalsOf(g, pockets, autoPockets, allowZones).targets <==> exists k: nat :: LastAt(g, pockets, c, k)
  {
    TargetsAre(g, pockets, c);
  }

  method FindYieldPocket(g: Grid, pockets: seq<Pocket>, autoPockets: bool, allowZones: bool)
    returns (r: Option<Chosen>)
    requires g.res > 0.0 && g.diagonal > 0.0
    ensures r == None <==> !g.Inside(g.start) ||
                           forall p :: g.Reachable(p) ==> !MayStop(g, pockets, autoPockets, allowZones, p[|p| - 1])
    ensures r.Some? ==> BestStop(g, pockets, autoPockets, allowZones, r.value)
  {
    hide BestStop, MayStop, NearestGoal;
    if !g.Inside(g.start) {
      return None;
    }
    var goals := GoalsOf(g, pockets, autoPockets, allowZones);
    forall c ensures goals.IsGoal(c) <==> MayStop(g, pockets, autoPockets, allowZones, c) {
      GoalsAre(g, pockets, autoPockets, allowZones, c);
    }
    if goals.targets == map[] && !goals.auto {
      return None;
    }
    r := Search(g, goals);
    if r.Some? {
      NearestIsBest(g, pockets, autoPockets, allowZones, r.value);
    }
  }

  method Search(g: Grid, goals: Goals) returns (r: Option<Chosen>)
    requires g.Valid()
    ensures r == None <==> NoGoal(g, goals)
    ensures r.Some? ==> NearestGoal(g, goals, r.value)
  {
    hide Inv, Newest, NoGoal, NearestGoal, Grid.Reachable, CanImprove, Routes, Queued, Expanded, Neighbour, MoveCost, Least;
    var dist: map<Cell, real> := map[g.start := 0.0];
    var parent: map<Cell, Cell> := map[];
    var heap := {(0.0, g.start)};
    ghost var s := State(dist, parent, heap, {}, map[g.start := [g.start]]);
    ghost var cells := GridCells(g);
    AtStart(g, goals);
    while heap != {}
      invariant s.dist == dist && s.parent == parent && s.heap == heap
      invariant Inv(g, goals, s, g.start, 8) && s.done <= cells
      decreases cells - s.done, heap
    {
      ghost var before := s;
      var e;
      e, heap := HeapPop(heap);
      HeapEntry(g, goals, s, e);
      var (d, c) := e;
      if d > dist[c] {
        DropStale(g, goals, s, g.start, e);
        s := s.(heap := heap);
        assert heap < before.heap;
        continue;
      }
      if goals.IsGoal(c) {
        var p := RouteTo(g, s, parent, c);
        Arrived(g, goals, s, e, p);
        r := Some(Chosen(if c in goals.targets then Some(goals.targets[c]) else None, c, d, p));
        return;
      }
      Take(g, goals, s, g.start, e);
      s := Taken(s, e);
      for k := 0 to 8
        invariant s.dist == dist && s.parent == parent && s.heap == heap
        invariant Inv(g, goals, s, c, k) && Newest(s, c) && c in dist && dist[c] == d && c in s.done
        invariant s.done == before.done + {c}
      {
        var n := Neighbour(c, k);
        var nd := d + MoveCost(g, k);
        ImproveWhen(g, s, c, k);
        if !g.Open(n) || nd > g.radius || (n in dist && nd >= dist[n]) {
          SkipMove(g, goals, s, c, k);
        } else {
          Improve(g, goals, s, c, k);
          s := Improved(s, c, n, nd);
          dist := dist[n := nd];
          parent := parent[n := c];
          heap := heap + {(nd, n)};
        }
      }
      InvAny(g, goals, s, c, g.start);
      assert c in cells - before.done;
    }
    NothingLeft(g, goals, s);
    r := None;
  }

  ghost function GridCells(g: Grid): (r: set<Cell>)
    ensures forall c :: c in r <==> g.Inside(c)
  {
    set x, y | 0 <= x < g.width && 0 <= y < g.height :: (x, y)
  }

  lemma AtStart(g: Grid, goals: Goals)
    requires g.Valid()
    ensures Inv(g, goals, State(map[g.start := 0.0], map[], {(0.0, g.start)}, {}, map[g.start := [g.start]]), g.start, 8)
  {
  }

  lemma HeapEntry(g: Grid, goals: Goals, s: State, e: Entry)
    requires Inv(g, goals, s, g.start, 8) && e in s.heap
    ensures e.1 in s.dist && Routes(g, s)
  {
  }

  lemma ImproveWhen(g: Grid, s: State, c: Cell, k: nat)
    requires k < 8 && c in s.dist
    ensures var n, nd := Neighbour(c, k), s.dist[c] + MoveCost(g, k);
            CanImprove(g, s, c, k) <==> !(!g.Open(n) || nd > g.radius || (n in s.dist && nd >= s.dist[n]))
  {
  }

  lemma InvAny(g: Grid, goals: Goals, s: State, c: Cell, c': Cell)
    requires Inv(g, goals, s, c, 8)
    ensures Inv(g, goals, s, c', 8)
  {
  }

  /** A goal that can be reached is not on the heap later than its distance. */
  lemma GoalQueued(g: Grid, goals: Goals, s: State, e: Entry, q: seq<Cell>)
    requires Inv(g, goals, s, g.start, 8) && Least(s.heap, e)
    requires g.Reachable(q) && goals.IsGoal(q[|q| - 1]) && g.Cost(q) <= e.0
    ensures (g.Cost(q), q[|q| - 1]) in s.heap
  {
    var x := q[|q| - 1];
    Frontier(g, goals, s, g.start, q);
    assert g.Cost(q) == e.0;
    if |q| == 1 {
      assert Found(g, s, x);
      assert (s.dist[x], x) in s.heap;
    } else {
      var r, y := q[..|q| - 1], q[|q| - 2];
      CostGrows(g, y, x);
      assert g.Reachable(r);
      Frontier(g, goals, s, g.start, r);
      LastStep(g, goals, s, g.start, q);
      assert (s.dist[x], x) in s.heap;
    }
  }

  /** The first goal taken off the heap is a nearest one. */
  lemma Arrived(g: Grid, goals: Goals, s: State, e: Entry, p: seq<Cell>)
    requires Inv(g, goals, s, g.start, 8) && Least(s.heap, e) && e.1 in s.dist && s.dist[e.1] >= e.0
    requires goals.IsGoal(e.1) && e.1 in s.via && p == s.via[e.1]
    ensures NearestGoal(g, goals, Chosen(if e.1 in goals.targets then Some(goals.targets[e.1]) else None, e.1, e.0, p))
    ensures !NoGoal(g, goals)
  {
    hide Inv, Goals.IsGoal;
    InvFound(g, goals, s, e.1);
    var ch := Chosen(if e.1 in goals.targets then Some(goals.targets[e.1]) else None, e.1, e.0, p);
    forall q | g.Reachable(q) && goals.IsGoal(q[|q| - 1]) ensures FirstChoice(g, ch, q) {
      if g.Cost(q) <= e.0 {
        GoalQueued(g, goals, s, e, q);
        assert Before(e, (g.Cost(q), q[|q| - 1]));
      }
    }
  }

  lemma InvFound(g: Grid, goals: Goals, s: State, c: Cell)
    requires Inv(g, goals, s, g.start, 8) && c in s.dist
    ensures Found(g, s, c)
    ensures forall e :: e in s.heap && e.1 == c ==> s.dist[c] <= e.0
  {
  }

  /** With an empty heap every reachable cell was expanded, and none of them is a goal. */
  lemma NothingLeft(g: Grid, goals: Goals, s: State)
    requires Inv(g, goals, s, g.start, 8) && s.heap == {}
    ensures NoGoal(g, goals)
  {
    forall p | g.Reachable(p) ensures !goals.IsGoal(p[|p| - 1]) {
      Frontier(g, goals, s, g.start, p);
    }
  }
}
