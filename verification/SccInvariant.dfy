/**
 What Tarjan's iterative search keeps true between two steps, and one lemma for
 each kind of step.  The search state is a value here; the method that updates
 it is in Deadlock.dfy.
 */
module SccInvariant {
  import opened Graphs
  import opened Sorting

  /**
   - index, low: discovery number and low link of every visited node
   - stack: visited nodes whose component is still open, in discovery order
   - frames: the nodes on the current search path, with the number of their edges already explored
   - pos: where each node of the search path sits on the stack
   */
  datatype State = State(index: map<Id, int>, low: map<Id, int>, stack: seq<Id>,
                         frames: seq<(Id, nat)>, pos: seq<nat>)

  function Lower(a: int, b: int): int {
    if a <= b then a else b
  }

  /** The stretch of the stack owned by the j-th node of the search path ends here. */
  ghost function End(t: State, j: nat): nat {
    if j + 1 < |t.pos| then t.pos[j + 1] else |t.stack|
  }

  ghost predicate Owns(t: State, j: int, p: int) {
    0 <= j < |t.pos| && t.pos[j] <= p < End(t, j)
  }

  /** How many edges of the node at stack position p have been explored. */
  ghost function Explored(g: Graph, t: State, j: nat, p: nat): nat
    requires j < |t.pos| && j < |t.frames| && p < |t.stack| && t.stack[p] in g
  {
    if p == t.pos[j] then t.frames[j].1 else |g[t.stack[p]]|
  }

  ghost predicate Shape(g: Graph, t: State) {
    && |t.pos| == |t.frames|
    && t.low.Keys == t.index.Keys
    && t.index.Keys <= g.Keys
    && (forall p :: 0 <= p < |t.stack| ==> t.stack[p] in t.index)
    && (forall p, q :: 0 <= p < q < |t.stack| ==> t.index[t.stack[p]] < t.index[t.stack[q]])
    && (forall j :: 0 <= j < |t.pos| ==>
          && t.pos[j] < |t.stack|
          && t.stack[t.pos[j]] == t.frames[j].0
          && t.frames[j].1 <= |g[t.frames[j].0]|)
    && (forall i, j :: 0 <= i < j < |t.pos| ==> t.pos[i] < t.pos[j])
    && (if |t.pos| == 0 then t.stack == [] else t.pos[0] == 0)
  }

  /** A node of the search path reaches everything above it, and its own stretch reaches it. */
  ghost predicate Links(g: Graph, t: State) {
    && (forall j, p :: 0 <= j < |t.pos| && t.pos[j] <= p < |t.stack| ==>
          Reach(g, t.stack[t.pos[j]], t.stack[p]))
    && (forall j, p :: Owns(t, j, p) && 0 <= p < |t.stack| && t.pos[j] < |t.stack| ==>
          Reach(g, t.stack[p], t.stack[t.pos[j]]))
  }

  /** q is the stack node that the low link of x stands for. */
  ghost predicate LowAt(g: Graph, t: State, x: Id, q: nat) {
    && q < |t.stack| && t.stack[q] in t.index && x in t.low
    && t.index[t.stack[q]] == t.low[x]
    && Reach(g, x, t.stack[q])
  }

  ghost predicate LowLinks(g: Graph, t: State) {
    forall j :: 0 <= j < |t.frames| ==> LowKnown(g, t, t.frames[j].0)
  }

  /** The low link of x stands for a node on the stack, and is no later than x. */
  ghost predicate LowKnown(g: Graph, t: State, x: Id) {
    && x in t.index && x in t.low && t.low[x] <= t.index[x]
    && exists q :: LowAt(g, t, x, q)
  }

  lemma KnowLow(g: Graph, t: State, x: Id, q: nat)
    requires x in t.index && x in t.low && t.low[x] <= t.index[x] && LowAt(g, t, x, q)
    ensures LowKnown(g, t, x)
  {
  }

  lemma LowOf(g: Graph, t: State, x: Id) returns (q: nat)
    requires LowKnown(g, t, x)
    ensures x in t.index && x in t.low && t.low[x] <= t.index[x]
    ensures q < |t.stack| && t.stack[q] in t.index && t.index[t.stack[q]] == t.low[x] && Reach(g, x, t.stack[q])
  {
    hide Reach;
    var p: nat :| LowAt(g, t, x, p);
    q := p;
  }

  lemma FramesDiffer(g: Graph, t: State, i: nat, j: nat)
    requires Shape(g, t) && i < j < |t.frames|
    ensures t.frames[i].0 != t.frames[j].0
  {
    assert t.index[t.stack[t.pos[i]]] < t.index[t.stack[t.pos[j]]];
  }

  /** An explored edge goes to a visited node; if that is open, the owner's low link knows it. */
  ghost predicate EdgeSeen(g: Graph, t: State, j: nat, z: Id)
    requires j < |t.frames|
  {
    && z in t.index
    && t.frames[j].0 in t.low
    && (z in t.stack ==> t.low[t.frames[j].0] <= t.index[z])
  }

  ghost predicate Edges(g: Graph, t: State)
    requires Shape(g, t)
  {
    forall j, p, e :: Owns(t, j, p) && 0 <= e < Explored(g, t, j, p) ==>
      EdgeSeen(g, t, j, g[t.stack[p]][e])
  }

  ghost function Finished(t: State): set<Id> {
    set v | v in t.index && v !in t.stack
  }

  /** c lists exactly the nodes that are mutually reachable with each of its nodes. */
  ghost predicate IsClass(g: Graph, c: seq<Id>) {
    && |c| > 0
    && StrictlySorted(c)
    && forall u, v :: u in c ==> (v in c <==> Mutual(g, u, v))
  }

  ghost predicate InSome(out: seq<seq<Id>>, v: Id) {
    exists k :: 0 <= k < |out| && v in out[k]
  }

  ghost predicate Disjoint(out: seq<seq<Id>>) {
    forall i, j, v :: 0 <= i < j < |out| && v in out[i] ==> v !in out[j]
  }

  /** out holds the classes of the finished nodes, each once. */
  ghost predicate Classes(g: Graph, done: set<Id>, out: seq<seq<Id>>) {
    && ClosedUnder(g, done)
    && (forall k :: 0 <= k < |out| ==> IsClass(g, out[k]))
    && (forall k, v :: 0 <= k < |out| && v in out[k] ==> v in done)
    && (forall v :: v in done ==> InSome(out, v))
    && Disjoint(out)
  }

  ghost predicate Inv(g: Graph, t: State) {
    Shape(g, t) && Links(g, t) && LowLinks(g, t) && Edges(g, t)
  }

  lemma Ordered(g: Graph, t: State, p: nat, q: nat)
    requires Shape(g, t) && p < |t.stack| && q < |t.stack|
    ensures p < q <==> t.index[t.stack[p]] < t.index[t.stack[q]]
  {
  }

  // ---------------------------------------------------------------- visiting a node

  /** The node at the end of the search path has explored one more edge. */
  ghost function Bumped(frames: seq<(Id, nat)>): seq<(Id, nat)> {
    var k := |frames| - 1;
    if k < 0 then [] else frames[k := (frames[k].0, frames[k].1 + 1)]
  }

  ghost function Visited(t: State, c: Id, counter: int): State {
    State(t.index[c := counter], t.low[c := counter], t.stack + [c],
          Bumped(t.frames) + [(c, 0)], t.pos + [|t.stack|])
  }

  ghost predicate CanVisit(g: Graph, t: State, c: Id, counter: int) {
    && c in g && c !in t.index
    && (forall v :: v in t.index ==> t.index[v] < counter)
    && (|t.frames| > 0 ==>
          var (x, i) := t.frames[|t.frames| - 1];
          x in g && i < |g[x]| && g[x][i] == c)
  }

  lemma VisitShape(g: Graph, t: State, c: Id, counter: int)
    requires Shape(g, t) && CanVisit(g, t, c, counter)
    ensures Shape(g, Visited(t, c, counter))
  {
    VisitOrder(t, c, counter);
    VisitFrames(g, t, c, counter);
    var t' := Visited(t, c, counter);
    assert forall p :: 0 <= p < |t'.stack| ==> t'.stack[p] in t'.index;
    assert |t.pos| == 0 ==> t'.pos[0] == 0;
  }

  lemma VisitOrder(t: State, c: Id, counter: int)
    requires (forall p :: 0 <= p < |t.stack| ==> t.stack[p] in t.index) && c !in t.index
    requires forall v :: v in t.index ==> t.index[v] < counter
    requires forall p, q :: 0 <= p < q < |t.stack| ==> t.index[t.stack[p]] < t.index[t.stack[q]]
    ensures var t' := Visited(t, c, counter);
            forall p, q :: 0 <= p < q < |t'.stack| ==>
              t'.stack[p] in t'.index && t'.stack[q] in t'.index && t'.index[t'.stack[p]] < t'.index[t'.stack[q]]
  {
    var t' := Visited(t, c, counter);
    forall p, q | 0 <= p < q < |t'.stack|
      ensures t'.stack[p] in t'.index && t'.stack[q] in t'.index && t'.index[t'.stack[p]] < t'.index[t'.stack[q]]
    {
      assert t'.stack[p] == t.stack[p] && t.stack[p] in t.index;
      if q < |t.stack| {
        assert t'.stack[q] == t.stack[q] && t.stack[q] in t.index;
      }
    }
  }

  lemma VisitFrames(g: Graph, t: State, c: Id, counter: int)
    requires Shape(g, t) && CanVisit(g, t, c, counter)
    ensures var t' := Visited(t, c, counter);
            && |t'.pos| == |t'.frames|
            && (forall j :: 0 <= j < |t'.pos| ==>
                  && t'.pos[j] < |t'.stack| && t'.stack[t'.pos[j]] == t'.frames[j].0
                  && t'.frames[j].0 in g && t'.frames[j].1 <= |g[t'.frames[j].0]|)
            && (forall i, j :: 0 <= i < j < |t'.pos| ==> t'.pos[i] < t'.pos[j])
  {
    var t' := Visited(t, c, counter);
    forall j | 0 <= j < |t'.pos|
      ensures t'.pos[j] < |t'.stack| && t'.stack[t'.pos[j]] == t'.frames[j].0
      ensures t'.frames[j].0 in g && t'.frames[j].1 <= |g[t'.frames[j].0]|
    {
      if j < |t.pos| {
        assert t'.pos[j] == t.pos[j] && t'.frames[j].0 == t.frames[j].0;
      }
    }
  }

  lemma VisitLinks(g: Graph, t: State, c: Id, counter: int)
    requires Shape(g, t) && Links(g, t) && CanVisit(g, t, c, counter)
    ensures Links(g, Visited(t, c, counter))
  {
    var t' := Visited(t, c, counter);
    var n := |t.stack|;
    forall j, p | 0 <= j < |t'.pos| && t'.pos[j] <= p < |t'.stack|
      ensures Reach(g, t'.stack[t'.pos[j]], t'.stack[p])
    {
      if j == |t.pos| {
        ReachRefl(g, c);
      } else if p == n {
        var x := t.frames[|t.frames| - 1].0;
        assert Reach(g, t.stack[t.pos[j]], x);
        assert Edge(g, x, c);
        ReachEdge(g, x, c);
        ReachTrans(g, t.stack[t.pos[j]], x, c);
      }
    }
    forall j, p | Owns(t', j, p) && 0 <= p < |t'.stack| && t'.pos[j] < |t'.stack|
      ensures Reach(g, t'.stack[p], t'.stack[t'.pos[j]])
    {
      if j == |t.pos| {
        ReachRefl(g, c);
      } else {
        assert Owns(t, j, p);
      }
    }
  }

  lemma VisitLow(g: Graph, t: State, c: Id, counter: int)
    requires Shape(g, t) && LowLinks(g, t) && CanVisit(g, t, c, counter)
    ensures LowLinks(g, Visited(t, c, counter))
  {
    hide LowKnown, Shape;
    var t' := Visited(t, c, counter);
    forall j | 0 <= j < |t'.frames| ensures LowKnown(g, t', t'.frames[j].0) {
      if j == |t.frames| {
        VisitLowNew(g, t, c, counter);
      } else {
        assert t'.frames[j].0 == t.frames[j].0;
        VisitLowOld(g, t, c, counter, t.frames[j].0);
      }
    }
  }

  lemma VisitLowNew(g: Graph, t: State, c: Id, counter: int)
    ensures LowKnown(g, Visited(t, c, counter), c)
  {
    hide Reach;
    ReachRefl(g, c);
    assert LowAt(g, Visited(t, c, counter), c, |t.stack|);
  }

  lemma VisitLowOld(g: Graph, t: State, c: Id, counter: int, x: Id)
    requires LowKnown(g, t, x) && CanVisit(g, t, c, counter)
    ensures LowKnown(g, Visited(t, c, counter), x)
  {
    hide Reach;
    var q := LowOf(g, t, x);
    var t' := Visited(t, c, counter);
    assert t'.stack[q] == t.stack[q];
    assert LowAt(g, t', x, q);
  }

  lemma VisitEdge(g: Graph, t: State, c: Id, counter: int, j: nat, p: nat, e: nat)
    requires Inv(g, t) && CanVisit(g, t, c, counter)
    requires Shape(g, Visited(t, c, counter)) && Owns(Visited(t, c, counter), j, p)
    requires e < Explored(g, Visited(t, c, counter), j, p)
    ensures EdgeSeen(g, Visited(t, c, counter), j, g[Visited(t, c, counter).stack[p]][e])
  {
    hide Links, Reach, LowAt;
    assert j < |t.pos|;
    assert t.stack[t.pos[j]] == t.frames[j].0 && t.frames[j].0 in t.index;
    assert Owns(t, j, p);
    assert Visited(t, c, counter).frames[j].0 == t.frames[j].0;
    if e < Explored(g, t, j, p) {
      assert EdgeSeen(g, t, j, g[t.stack[p]][e]);
    }
  }

  lemma VisitEdges(g: Graph, t: State, c: Id, counter: int)
    requires Inv(g, t) && CanVisit(g, t, c, counter)
    requires Shape(g, Visited(t, c, counter))
    ensures Edges(g, Visited(t, c, counter))
  {
    hide Inv, CanVisit, EdgeSeen;
    var t' := Visited(t, c, counter);
    forall j, p, e | Owns(t', j, p) && 0 <= e < Explored(g, t', j, p)
      ensures EdgeSeen(g, t', j, g[t'.stack[p]][e])
    {
      VisitEdge(g, t, c, counter, j, p, e);
    }
  }

  lemma Visit(g: Graph, t: State, c: Id, counter: int)
    requires Inv(g, t) && CanVisit(g, t, c, counter)
    ensures Inv(g, Visited(t, c, counter))
    ensures Finished(Visited(t, c, counter)) == Finished(t)
  {
    VisitShape(g, t, c, counter);
    VisitLinks(g, t, c, counter);
    VisitLow(g, t, c, counter);
    VisitEdges(g, t, c, counter);
    assert forall v :: v in t.stack ==> v in t.index;
  }

  // ---------------------------------------------------------------- an edge to a visited node

  ghost function Scanned(t: State, z: Id): State
    requires |t.frames| > 0
    requires z in t.index && t.frames[|t.frames| - 1].0 in t.low
  {
    var k := |t.frames| - 1;
    var (x, i) := t.frames[k];
    var low := if z in t.stack then t.low[x := Lower(t.low[x], t.index[z])] else t.low;
    t.(low := low, frames := t.frames[k := (x, i + 1)])
  }

  ghost predicate CanScan(g: Graph, t: State, z: Id) {
    && |t.frames| > 0
    && z in t.index
    && var (x, i) := t.frames[|t.frames| - 1];
       x in t.low && x in g && i < |g[x]| && g[x][i] == z
  }

  lemma ScanLow(g: Graph, t: State, z: Id)
    requires Shape(g, t) && LowLinks(g, t) && CanScan(g, t, z)
    ensures LowLinks(g, Scanned(t, z))
  {
    hide LowKnown, Shape;
    var t' := Scanned(t, z);
    forall j | 0 <= j < |t'.frames| ensures LowKnown(g, t', t'.frames[j].0) {
      assert t'.frames[j].0 == t.frames[j].0;
      ScanLowAt(g, t, z, j);
    }
  }

  lemma ScanLowAt(g: Graph, t: State, z: Id, j: nat)
    requires Shape(g, t) && CanScan(g, t, z) && j < |t.frames| && LowKnown(g, t, t.frames[j].0)
    ensures LowKnown(g, Scanned(t, z), t.frames[j].0)
  {
    hide Reach, LowKnown, Shape;
    var t', k, y := Scanned(t, z), |t.frames| - 1, t.frames[j].0;
    var q := LowOf(g, t, y);
    if j == k && z in t.stack && t.index[z] < t.low[y] {
      var p :| 0 <= p < |t.stack| && t.stack[p] == z;
      ScannedEdge(g, t, z);
      assert LowAt(g, t', y, p);
      KnowLow(g, t', y, p);
    } else {
      if j < k {
        FramesDiffer(g, t, j, k);
      }
      assert LowAt(g, t', y, q);
      KnowLow(g, t', y, q);
    }
  }

  lemma ScannedEdge(g: Graph, t: State, z: Id)
    requires CanScan(g, t, z)
    ensures Reach(g, t.frames[|t.frames| - 1].0, z)
  {
    hide Reach;
    assert Edge(g, t.frames[|t.frames| - 1].0, z);
    ReachEdge(g, t.frames[|t.frames| - 1].0, z);
  }

  lemma ScanEdge(g: Graph, t: State, z: Id, j: nat, p: nat, e: nat)
    requires Shape(g, t) && Edges(g, t) && CanScan(g, t, z) && Shape(g, Scanned(t, z))
    requires Owns(Scanned(t, z), j, p) && e < Explored(g, Scanned(t, z), j, p)
    ensures EdgeSeen(g, Scanned(t, z), j, g[t.stack[p]][e])
  {
    var k := |t.frames| - 1;
    assert Owns(t, j, p);
    assert Scanned(t, z).frames[j].0 == t.frames[j].0;
    if e < Explored(g, t, j, p) {
      assert EdgeSeen(g, t, j, g[t.stack[p]][e]);
      hide Shape, Edges;
      ScanSeen(g, t, z, j, g[t.stack[p]][e]);
    } else {
      assert j == k && g[t.stack[p]][e] == z;
    }
  }

  /** Low links only go down. */
  lemma ScanSeen(g: Graph, t: State, z: Id, j: nat, v: Id)
    requires j < |t.frames| && z in t.index && t.frames[|t.frames| - 1].0 in t.low && EdgeSeen(g, t, j, v)
    ensures EdgeSeen(g, Scanned(t, z), j, v)
  {
  }

  lemma ScanEdges(g: Graph, t: State, z: Id)
    requires Shape(g, t) && Edges(g, t) && CanScan(g, t, z)
    requires Shape(g, Scanned(t, z))
    ensures Edges(g, Scanned(t, z))
  {
    hide EdgeSeen;
    var t' := Scanned(t, z);
    forall j, p, e | Owns(t', j, p) && 0 <= e < Explored(g, t', j, p)
      ensures EdgeSeen(g, t', j, g[t'.stack[p]][e])
    {
      ScanEdge(g, t, z, j, p, e);
    }
  }

  lemma ScanShape(g: Graph, t: State, z: Id)
    requires Shape(g, t) && CanScan(g, t, z)
    ensures Shape(g, Scanned(t, z))
  {
  }

  lemma ScanLinks(g: Graph, t: State, z: Id)
    requires Shape(g, t) && Links(g, t) && CanScan(g, t, z)
    ensures Links(g, Scanned(t, z))
  {
    var t' := Scanned(t, z);
    assert forall j, p :: Owns(t', j, p) ==> Owns(t, j, p);
  }

  lemma Scan(g: Graph, t: State, z: Id)
    requires Inv(g, t) && CanScan(g, t, z)
    ensures Inv(g, Scanned(t, z))
  {
    ScanShape(g, t, z);
    ScanLinks(g, t, z);
    ScanLow(g, t, z);
    ScanEdges(g, t, z);
  }

  // ---------------------------------------------------------------- leaving a node

  ghost predicate TopDone(g: Graph, t: State) {
    && |t.frames| > 0
    && var (x, i) := t.frames[|t.frames| - 1];
       x in g && i == |g[x]| && x in t.low && x in t.index
  }

  /** The search leaves a node whose component is still open. */
  ghost function Retreated(t: State): State
    requires |t.frames| > 1 && |t.pos| == |t.frames|
    requires t.frames[|t.frames| - 1].0 in t.low && t.frames[|t.frames| - 2].0 in t.low
  {
    var k := |t.frames| - 1;
    var (x, par) := (t.frames[k].0, t.frames[k - 1].0);
    t.(low := t.low[par := Lower(t.low[par], t.low[x])], frames := t.frames[..k], pos := t.pos[..k])
  }

  lemma {:induction false} OwnerOf(g: Graph, t: State, q: nat, k: nat) returns (j: nat)
    requires Shape(g, t) && k < |t.pos| && q < End(t, k)
    ensures j <= k && Owns(t, j, q)
  {
    if t.pos[k] <= q {
      j := k;
    } else {
      j := OwnerOf(g, t, q, k - 1);
    }
  }

  /** A node left with a smaller low link reaches its parent on the search path. */
  lemma ReachParent(g: Graph, t: State)
    requires Inv(g, t) && |t.frames| > 0
    requires var x := t.frames[|t.frames| - 1].0; t.low[x] < t.index[x]
    ensures |t.frames| > 1
    ensures Reach(g, t.frames[|t.frames| - 1].0, t.frames[|t.frames| - 2].0)
  {
    hide Reach, Edges, LowKnown;
    var k := |t.frames| - 1;
    var x := t.frames[k].0;
    var q := LowOf(g, t, x);
    var z := t.stack[q];
    Ordered(g, t, t.pos[k], q);
    assert t.pos[0] == 0;
    assert k > 0;
    var j := OwnerOf(g, t, q, k - 1);
    OwnerReaches(g, t, j, q, k - 1);
    ReachTrans(g, x, z, t.frames[k - 1].0);
  }

  /** What a node of the search path owns reaches every later node of the path. */
  lemma OwnerReaches(g: Graph, t: State, j: nat, q: nat, i: nat)
    requires Shape(g, t) && Links(g, t) && Owns(t, j, q) && j <= i < |t.frames| && q < |t.stack|
    ensures Reach(g, t.stack[q], t.frames[i].0)
  {
    hide Reach;
    assert t.pos[j] <= t.pos[i];
    assert Reach(g, t.stack[q], t.stack[t.pos[j]]);
    assert Reach(g, t.stack[t.pos[j]], t.stack[t.pos[i]]);
    ReachTrans(g, t.stack[q], t.stack[t.pos[j]], t.stack[t.pos[i]]);
  }

  lemma RetreatLinks(g: Graph, t: State)
    requires Shape(g, t) && Links(g, t) && |t.frames| > 1
    requires t.frames[|t.frames| - 1].0 in t.low && t.frames[|t.frames| - 2].0 in t.low
    requires Reach(g, t.frames[|t.frames| - 1].0, t.frames[|t.frames| - 2].0)
    ensures Links(g, Retreated(t))
  {
    var t' := Retreated(t);
    var k := |t.frames| - 1;
    forall j, p | Owns(t', j, p) && 0 <= p < |t'.stack| && t'.pos[j] < |t'.stack|
      ensures Reach(g, t'.stack[p], t'.stack[t'.pos[j]])
    {
      if p >= t.pos[k] {
        assert j == k - 1;
        assert Owns(t, k, p);
        ReachTrans(g, t.stack[p], t.stack[t.pos[k]], t.stack[t.pos[k - 1]]);
      } else {
        assert Owns(t, j, p);
      }
    }
  }

  lemma RetreatLow(g: Graph, t: State)
    requires Shape(g, t) && Links(g, t) && LowLinks(g, t) && |t.frames| > 1
    requires t.frames[|t.frames| - 1].0 in t.low && t.frames[|t.frames| - 2].0 in t.low
    ensures LowLinks(g, Retreated(t))
  {
    PathReaches(g, t);
    hide LowKnown, Links, Reach;
    var t', k := Retreated(t), |t.frames| - 1;
    forall j | 0 <= j < |t'.frames| ensures LowKnown(g, t', t'.frames[j].0) {
      assert t'.frames[j].0 == t.frames[j].0;
      assert LowKnown(g, t, t.frames[j].0) && LowKnown(g, t, t.frames[k].0);
      RetreatLowAt(g, t, j);
    }
  }

  lemma PathReaches(g: Graph, t: State)
    requires Shape(g, t) && Links(g, t) && |t.frames| > 1
    ensures Reach(g, t.frames[|t.frames| - 2].0, t.frames[|t.frames| - 1].0)
  {
    hide Reach;
    var k := |t.frames| - 1;
    assert t.pos[k - 1] <= t.pos[k];
    assert Reach(g, t.stack[t.pos[k - 1]], t.stack[t.pos[k]]);
  }

  lemma RetreatLowAt(g: Graph, t: State, j: nat)
    requires Shape(g, t) && |t.frames| > 1 && j < |t.frames| - 1
    requires t.frames[|t.frames| - 1].0 in t.low && t.frames[|t.frames| - 2].0 in t.low
    requires Reach(g, t.frames[|t.frames| - 2].0, t.frames[|t.frames| - 1].0)
    requires LowKnown(g, t, t.frames[j].0) && LowKnown(g, t, t.frames[|t.frames| - 1].0)
    ensures LowKnown(g, Retreated(t), t.frames[j].0)
  {
    PathSizes(g, t);
    hide Reach, LowKnown, Shape;
    var t', k, y := Retreated(t), |t.frames| - 1, t.frames[j].0;
    var x := t.frames[k].0;
    var q := LowOf(g, t, y);
    var p := LowOf(g, t, x);
    if j == k - 1 && t.low[x] < t.low[y] {
      ReachTrans(g, y, x, t.stack[p]);
      assert LowAt(g, t', y, p);
      KnowLow(g, t', y, p);
    } else {
      if j < k - 1 {
        FramesDiffer(g, t, j, k - 1);
      }
      assert LowAt(g, t', y, q);
      KnowLow(g, t', y, q);
    }
  }

  lemma PathSizes(g: Graph, t: State)
    requires Shape(g, t)
    ensures |t.pos| == |t.frames|
  {
  }

  lemma RetreatEdge(g: Graph, t: State, j: nat, p: nat, e: nat)
    requires Shape(g, t) && Edges(g, t) && TopDone(g, t) && |t.frames| > 1
    requires t.frames[|t.frames| - 2].0 in t.low
    requires Shape(g, Retreated(t))
    requires Owns(Retreated(t), j, p) && e < Explored(g, Retreated(t), j, p)
    ensures EdgeSeen(g, Retreated(t), j, g[t.stack[p]][e])
  {
    var i := if p >= t.pos[|t.frames| - 1] then |t.frames| - 1 else j;
    RetreatOwner(g, t, j, p, e, i);
    assert EdgeSeen(g, t, i, g[t.stack[p]][e]);
    hide Edges, Shape, Explored;
    RetreatSeen(g, t, j, i, g[t.stack[p]][e]);
  }

  /** Who owned the position before the retreat. */
  lemma RetreatOwner(g: Graph, t: State, j: nat, p: nat, e: nat, i: nat)
    requires Shape(g, t) && TopDone(g, t) && |t.frames| > 1 && t.frames[|t.frames| - 2].0 in t.low
    requires i == if p >= t.pos[|t.frames| - 1] then |t.frames| - 1 else j
    requires Shape(g, Retreated(t)) && Owns(Retreated(t), j, p) && e < Explored(g, Retreated(t), j, p)
    ensures j < |t.frames| - 1 && Owns(t, i, p) && e < Explored(g, t, i, p) && (i != j ==> j == |t.frames| - 2)
    ensures t.frames[j].0 in t.low && p < |t.stack| && t.stack[p] in g
  {
    assert Retreated(t).frames[j].0 == t.frames[j].0;
    assert t.stack[t.pos[j]] in t.index;
  }

  lemma RetreatSeen(g: Graph, t: State, j: nat, i: nat, z: Id)
    requires |t.frames| > 1 && |t.pos| == |t.frames| && i < |t.frames| && j < |t.frames| - 1 && EdgeSeen(g, t, i, z)
    requires i == j || (i == |t.frames| - 1 && j == |t.frames| - 2)
    requires t.frames[|t.frames| - 1].0 in t.low && t.frames[|t.frames| - 2].0 in t.low && t.frames[j].0 in t.low
    ensures EdgeSeen(g, Retreated(t), j, z)
  {
  }

  lemma RetreatEdges(g: Graph, t: State)
    requires Shape(g, t) && Edges(g, t) && TopDone(g, t) && |t.frames| > 1
    requires t.frames[|t.frames| - 2].0 in t.low
    requires Shape(g, Retreated(t))
    ensures Edges(g, Retreated(t))
  {
    hide EdgeSeen;
    var t' := Retreated(t);
    forall j, p, e | Owns(t', j, p) && 0 <= e < Explored(g, t', j, p)
      ensures EdgeSeen(g, t', j, g[t'.stack[p]][e])
    {
      RetreatEdge(g, t, j, p, e);
    }
  }

  lemma Retreat(g: Graph, t: State)
    requires Inv(g, t) && TopDone(g, t)
    requires var x := t.frames[|t.frames| - 1].0; t.low[x] < t.index[x]
    ensures |t.frames| > 1 && Inv(g, Retreated(t))
  {
    ReachParent(g, t);
    RetreatLinks(g, t);
    RetreatLow(g, t);
    assert Shape(g, Retreated(t));
    RetreatEdges(g, t);
  }

  // ---------------------------------------------------------------- closing a component

  ghost function Top(t: State): nat
    requires |t.pos| > 0 && t.pos[|t.pos| - 1] <= |t.stack|
  {
    t.pos[|t.pos| - 1]
  }

  /** The stack above and including the node being left is taken off. */
  ghost function ClosedOff(t: State): State
    requires |t.frames| > 0 && |t.pos| == |t.frames| && t.pos[|t.pos| - 1] <= |t.stack|
  {
    t.(stack := t.stack[..Top(t)], frames := t.frames[..|t.frames| - 1], pos := t.pos[..|t.pos| - 1])
  }

  /** The stack from the node being left upwards. */
  ghost function Stretch(t: State): set<Id>
    requires |t.pos| > 0 && t.pos[|t.pos| - 1] <= |t.stack|
  {
    Members(t.stack[Top(t)..])
  }

  ghost predicate Component(t: State, c: seq<Id>)
    requires |t.pos| > 0 && t.pos[|t.pos| - 1] <= |t.stack|
  {
    StrictlySorted(c) && Members(c) == Stretch(t)
  }

  lemma CloseLow(g: Graph, t: State)
    requires Shape(g, t) && LowLinks(g, t) && |t.frames| > 0
    ensures LowLinks(g, ClosedOff(t))
  {
    hide LowKnown;
    var t' := ClosedOff(t);
    forall j | 0 <= j < |t'.frames| ensures LowKnown(g, t', t'.frames[j].0) {
      assert LowKnown(g, t, t.frames[j].0);
      CloseLowAt(g, t, j);
    }
  }

  lemma CloseLowAt(g: Graph, t: State, j: nat)
    requires Shape(g, t) && j < |t.frames| - 1 && LowKnown(g, t, t.frames[j].0)
    ensures LowKnown(g, ClosedOff(t), t.frames[j].0)
  {
    hide Reach, LowKnown;
    var t', k, x := ClosedOff(t), |t.frames| - 1, t.frames[j].0;
    var q := LowOf(g, t, x);
    assert t.pos[j] < t.pos[k] && t.stack[t.pos[j]] == x;
    Ordered(g, t, t.pos[j], q);
    assert t'.stack[q] == t.stack[q];
    assert LowAt(g, t', x, q);
    KnowLow(g, t', x, q);
  }

  lemma CloseEdges(g: Graph, t: State)
    requires Shape(g, t) && Edges(g, t) && |t.frames| > 0
    requires Shape(g, ClosedOff(t))
    ensures Edges(g, ClosedOff(t))
  {
    var t' := ClosedOff(t);
    forall j, p, e | Owns(t', j, p) && 0 <= e < Explored(g, t', j, p)
      ensures EdgeSeen(g, t', j, g[t'.stack[p]][e])
    {
      assert Owns(t, j, p);
      assert EdgeSeen(g, t, j, g[t.stack[p]][e]);
    }
  }

  lemma CloseShape(g: Graph, t: State)
    requires Shape(g, t) && |t.frames| > 0
    ensures Shape(g, ClosedOff(t))
  {
    var t' := ClosedOff(t);
    forall j | 0 <= j < |t'.pos|
      ensures t'.pos[j] < |t'.stack| && t'.stack[t'.pos[j]] == t'.frames[j].0
    {
      assert t.pos[j] < t.pos[|t.pos| - 1];
    }
  }

  lemma CloseLinks(g: Graph, t: State)
    requires Shape(g, t) && Links(g, t) && |t.frames| > 0
    ensures Links(g, ClosedOff(t))
  {
    var t' := ClosedOff(t);
    forall j, p | Owns(t', j, p)
      ensures Owns(t, j, p)
    {
    }
    assert forall p :: 0 <= p < |t'.stack| ==> t'.stack[p] == t.stack[p];
  }

  lemma CloseInv(g: Graph, t: State)
    requires Inv(g, t) && |t.frames| > 0
    ensures Inv(g, ClosedOff(t))
  {
    CloseShape(g, t);
    CloseLinks(g, t);
    CloseLow(g, t);
    CloseEdges(g, t);
  }

  /** Every edge out of the stretch being closed stays in it or goes to a finished node. */
  lemma StretchIsClosed(g: Graph, t: State, done: set<Id>)
    requires Inv(g, t) && TopDone(g, t)
    requires done == Finished(t) && ClosedUnder(g, done)
    requires var x := t.frames[|t.frames| - 1].0; t.low[x] == t.index[x]
    ensures ClosedUnder(g, done + Stretch(t))
  {
    hide Links, LowLinks, Edges;
    var n := Top(t);
    var s := done + Stretch(t);
    forall u, v | u in s && Edge(g, u, v)
      ensures v in s
    {
      if u !in done {
        var p :| 0 <= p < |t.stack[n..]| && t.stack[n..][p] == u;
        StretchEdge(g, t, n + p, v);
      }
    }
  }

  lemma StretchEdge(g: Graph, t: State, p: nat, v: Id)
    requires Inv(g, t) && TopDone(g, t)
    requires var x := t.frames[|t.frames| - 1].0; t.low[x] == t.index[x]
    requires Top(t) <= p < |t.stack| && t.stack[p] in g && v in g[t.stack[p]]
    ensures v in Finished(t) || v in t.stack[Top(t)..]
  {
    hide Links, LowLinks;
    var k := |t.frames| - 1;
    var n := Top(t);
    var e :| 0 <= e < |g[t.stack[p]]| && g[t.stack[p]][e] == v;
    assert Owns(t, k, p);
    assert EdgeSeen(g, t, k, v);
    if v in t.stack {
      var q :| 0 <= q < |t.stack| && t.stack[q] == v;
      Ordered(g, t, q, n);
      assert t.stack[n..][q - n] == v;
    }
  }

  lemma ClosedClass(g: Graph, t: State, done: set<Id>, c: seq<Id>)
    requires Inv(g, t) && TopDone(g, t) && done == Finished(t) && ClosedUnder(g, done)
    requires var x := t.frames[|t.frames| - 1].0; t.low[x] == t.index[x]
    requires Component(t, c)
    ensures IsClass(g, c)
  {
    TopInside(g, t);
    ComponentIs(t, c);
    StretchIsClosed(g, t, done);
    CloseDone(g, t);
    hide Reach, Shape, Links, LowLinks, Edges, Component, Finished, Stretch, ClosedUnder;
    var x := t.stack[Top(t)];
    forall u, v | u in c ensures v in c <==> Mutual(g, u, v) {
      ReachTop(g, t, u);
      if v in c {
        ReachTop(g, t, v);
        ReachTrans(g, u, x, v);
        ReachTrans(g, v, x, u);
      }
      if Mutual(g, u, v) {
        ReachStays(g, done + Stretch(t), u, v);
        if v in done {
          ReachStays(g, done, v, u);
        }
      }
    }
  }

  lemma TopInside(g: Graph, t: State)
    requires Shape(g, t) && |t.frames| > 0
    ensures |t.pos| == |t.frames| && Top(t) < |t.stack|
  {
  }

  /** The node being left and everything above it reach each other. */
  lemma ReachTop(g: Graph, t: State, u: Id)
    requires Inv(g, t) && |t.frames| > 0 && |t.pos| == |t.frames| && Top(t) < |t.stack| && u in Stretch(t)
    ensures Reach(g, u, t.stack[Top(t)]) && Reach(g, t.stack[Top(t)], u)
  {
    hide Reach, Edges, LowLinks;
    var k, n := |t.frames| - 1, Top(t);
    var i :| 0 <= i < |t.stack[n..]| && t.stack[n..][i] == u;
    assert t.stack[n + i] == u && Owns(t, k, n + i);
  }

  lemma ComponentIs(t: State, c: seq<Id>)
    requires |t.pos| > 0 && t.pos[|t.pos| - 1] <= |t.stack| && Top(t) < |t.stack| && Component(t, c)
    ensures |c| > 0 && StrictlySorted(c) && forall v :: v in c <==> v in Stretch(t)
  {
    assert t.stack[Top(t)] in t.stack[Top(t)..];
    assert forall v :: v in c <==> v in Members(c);
  }

  lemma Close(g: Graph, t: State, out: seq<seq<Id>>, c: seq<Id>)
    requires Inv(g, t) && TopDone(g, t) && Classes(g, Finished(t), out)
    requires var x := t.frames[|t.frames| - 1].0; t.low[x] == t.index[x]
    requires Component(t, c)
    ensures Inv(g, ClosedOff(t)) && Classes(g, Finished(ClosedOff(t)), out + [c])
  {
    hide Inv, Shape, IsClass, ClosedUnder, Finished, InSome, Disjoint, Members, Stretch;
    CloseInv(g, t);
    var done := Finished(t);
    ClosedClass(g, t, done, c);
    StretchIsClosed(g, t, done);
    CloseDone(g, t);
    CloseClasses(g, done, done + Members(c), out, c);
  }

  lemma CloseDone(g: Graph, t: State)
    requires Inv(g, t) && |t.frames| > 0
    ensures Finished(ClosedOff(t)) == Finished(t) + Stretch(t)
    ensures Finished(t) !! Stretch(t)
  {
    hide Links, LowLinks, Edges, Finished;
    var n := Top(t);
    forall v | v in t.stack[n..] ensures v !in t.stack[..n] && v in t.index {
      OnceOnStack(g, t, n, v);
    }
    SplitFinished(t, n, ClosedOff(t));
  }

  lemma SplitFinished(t: State, n: nat, s: State)
    requires n <= |t.stack| && forall v :: v in t.stack[n..] ==> v !in t.stack[..n] && v in t.index
    requires s.index == t.index && s.stack == t.stack[..n]
    ensures Finished(s) == Finished(t) + Members(t.stack[n..])
    ensures Finished(t) !! Members(t.stack[n..])
  {
    assert t.stack == t.stack[..n] + t.stack[n..];
    forall v ensures v in Finished(s) <==> v in Finished(t) || v in Members(t.stack[n..]) {
      assert v in t.stack <==> v in t.stack[..n] || v in t.stack[n..];
    }
  }

  lemma OnceOnStack(g: Graph, t: State, n: nat, v: Id)
    requires Shape(g, t) && n <= |t.stack| && v in t.stack[n..]
    ensures v !in t.stack[..n] && v in t.index
  {
    var i :| 0 <= i < |t.stack[n..]| && t.stack[n..][i] == v;
    assert t.stack[n + i] == v;
    forall j | 0 <= j < n ensures t.stack[j] != v {
      Ordered(g, t, j, n + i);
    }
  }

  lemma CloseClasses(g: Graph, done: set<Id>, done': set<Id>, out: seq<seq<Id>>, c: seq<Id>)
    requires Classes(g, done, out) && IsClass(g, c)
    requires done' == done + Members(c) && ClosedUnder(g, done')
    requires done !! Members(c)
    ensures Classes(g, done', out + [c])
  {
    var out' := out + [c];
    assert forall v :: v in c ==> v in Members(c);
    forall v | v in done'
      ensures InSome(out', v)
    {
      if v in done {
        var k :| 0 <= k < |out| && v in out[k];
        assert v in out'[k];
      } else {
        assert v in out'[|out|];
      }
    }
  }

  // ---------------------------------------------------------------- whole steps

  ghost predicate Counted(t: State, counter: int) {
    forall v :: v in t.index ==> t.index[v] < counter
  }

  /** Only the last node of the search path can have no explored edge. */
  ghost predicate Resumable(frames: seq<(Id, nat)>) {
    forall j :: 0 <= j < |frames| - 1 ==> frames[j].1 > 0
  }

  ghost predicate Running(g: Graph, t: State, out: seq<seq<Id>>, counter: int) {
    Inv(g, t) && Classes(g, Finished(t), out) && Counted(t, counter) && Resumable(t.frames)
  }

  lemma RunVisit(g: Graph, t: State, out: seq<seq<Id>>, counter: int, c: Id)
    requires Running(g, t, out, counter) && CanVisit(g, t, c, counter)
    ensures Running(g, Visited(t, c, counter), out, counter + 1)
  {
    hide Inv, Classes;
    Visit(g, t, c, counter);
  }

  lemma RunRetreat(g: Graph, t: State, out: seq<seq<Id>>, counter: int)
    requires Running(g, t, out, counter) && TopDone(g, t)
    requires var x := t.frames[|t.frames| - 1].0; t.low[x] != t.index[x]
    ensures |t.frames| > 1 && |t.pos| == |t.frames|
    ensures t.frames[|t.frames| - 1].0 in t.low && t.frames[|t.frames| - 2].0 in t.low
    ensures Running(g, Retreated(t), out, counter)
  {
    Retreat(g, t);
    assert Finished(Retreated(t)) == Finished(t);
  }

  lemma RunClose(g: Graph, t: State, out: seq<seq<Id>>, counter: int, c: seq<Id>)
    requires Running(g, t, out, counter) && TopDone(g, t)
    requires var x := t.frames[|t.frames| - 1].0; t.low[x] == t.index[x]
    requires Component(t, c)
    ensures Running(g, ClosedOff(t), out + [c], counter)
  {
    Close(g, t, out, c);
  }

  /** Closing a component leaves the parent's low link as it is. */
  lemma ParentLowIfAny(g: Graph, t: State)
    requires Shape(g, t) && LowLinks(g, t) && |t.frames| > 0
    requires var x := t.frames[|t.frames| - 1].0; x in t.index && x in t.low && t.low[x] == t.index[x]
    ensures |t.frames| > 1 ==>
              var x, par := t.frames[|t.frames| - 1].0, t.frames[|t.frames| - 2].0;
              par in t.low && t.low[par := Lower(t.low[par], t.low[x])] == t.low
  {
    var k := |t.frames| - 1;
    if k > 0 {
      assert t.pos[k - 1] < t.pos[k];
      Ordered(g, t, t.pos[k - 1], t.pos[k]);
      assert t.frames[k - 1].0 in t.index;
    }
  }
}
