/** Strongly connected components by the iterative search, and the deadlocks among them. */
module Deadlock {
  import opened Graphs
  import opened Sorting
  import opened SccInvariant
  import CycleSearch

  /** Every id that has an adjacency list or occurs in one. */
  ghost predicate IsNode(adj: Graph, n: Id) {
    n in adj || exists u :: Edge(adj, u, n)
  }

  function Listed(adj: Graph): (s: set<Id>)
    ensures forall u, v :: Edge(adj, u, v) ==> v in s
    ensures forall v :: v in s ==> exists u :: Edge(adj, u, v)
  {
    var s := set u, v | u in adj && v in adj[u] :: v;
    assert forall u, v :: Edge(adj, u, v) ==> u in adj && v in adj[u] && v in s;
    assert forall v :: v in s ==> exists u :: Edge(adj, u, v) by {
      forall v | v in s ensures exists u :: Edge(adj, u, v) {
        var u :| u in adj && v in adj[u];
        assert Edge(adj, u, v);
      }
    }
    s
  }

  /** Successor lists without repetition, ascending, with an entry for every node. */
  function Successors(adj: Graph): (g: Graph)
    ensures forall n :: n in g <==> IsNode(adj, n)
    ensures forall u, v :: Edge(g, u, v) <==> Edge(adj, u, v)
  {
    var nodes := adj.Keys + Listed(adj);
    map n | n in nodes :: if n in adj then Sorted(Members(adj[n])) else []
  }

  lemma SameWalks(g: Graph, h: Graph, p: seq<Id>)
    requires forall u, v :: Edge(g, u, v) <==> Edge(h, u, v)
    ensures Walk(g, p) <==> Walk(h, p)
  {
  }

  lemma SameReach(g: Graph, h: Graph, u: Id, v: Id)
    requires forall u, v :: Edge(g, u, v) <==> Edge(h, u, v)
    ensures Reach(g, u, v) <==> Reach(h, u, v)
  {
    forall p ensures WalkFromTo(g, p, u, v) <==> WalkFromTo(h, p, u, v) {
      SameWalks(g, h, p);
    }
  }

  lemma SameClasses(g: Graph, h: Graph, c: seq<Id>)
    requires forall u, v :: Edge(g, u, v) <==> Edge(h, u, v)
    ensures IsClass(g, c) <==> IsClass(h, c)
  {
    forall u, v ensures Mutual(g, u, v) <==> Mutual(h, u, v) {
      SameReach(g, h, u, v);
      SameReach(g, h, v, u);
    }
  }

  /** out lists every class of mutually reachable nodes once, by first element. */
  ghost predicate IsPartition(adj: Graph, out: seq<seq<Id>>) {
    && (forall k :: 0 <= k < |out| ==> IsClass(adj, out[k]))
    && (forall k, v :: 0 <= k < |out| && v in out[k] ==> IsNode(adj, v))
    && (forall v :: IsNode(adj, v) ==> InSome(out, v))
    && (forall i, j :: 0 <= i < j < |out| ==> |out[i]| > 0 && |out[j]| > 0 && out[i][0] < out[j][0])
  }

  // ---------------------------------------------------------------- the search

  /** Looks at the edges of node from the i-th on, up to the first one to an unvisited node. */
  method ScanEdges(succ: Graph, index: map<Id, int>, low0: map<Id, int>, onStack: set<Id>,
                   node: Id, start: nat, ghost t: State)
    returns (i: nat, low: map<Id, int>, found: bool, child: Id, ghost t': State)
    requires Inv(succ, t) && t.index == index && t.low == low0 && onStack == Members(t.stack)
    requires |t.frames| > 0 && t.frames[|t.frames| - 1] == (node, start)
    ensures Inv(succ, t')
    ensures found ==> start < i && LeadsOut(succ, t', node, i, child)
    ensures !found ==> TopDone(succ, t')
    ensures start <= i
    ensures t' == t.(low := low, frames := t.frames[|t.frames| - 1 := (node, if found && i > 0 then i - 1 else i)])
    ensures t'.index.Keys <= succ.Keys
  {
    hide Links, LowLinks, Edges;
    i, low, found, child, t' := start, low0, false, node, t;
    assert node in succ && start <= |succ[node]|;
    var children := succ[node];
    while i < |children|
      invariant start <= i <= |children|
      invariant Inv(succ, t')
      invariant t' == t.(low := low, frames := t.frames[|t.frames| - 1 := (node, i)])
    {
      child := children[i];
      i := i + 1;
      if child !in index {
        found := true;
        break;
      }
      Scan(succ, t', child);
      if child in onStack {
        low := low[node := Lower(low[node], index[child])];
      }
      t' := Scanned(t', child);
    }
  }

  /** The edge just before the i-th of node leads to an unvisited node. */
  ghost predicate LeadsOut(succ: Graph, t: State, node: Id, i: nat, child: Id) {
    && 0 < i && node in succ && i <= |succ[node]|
    && succ[node][i - 1] == child && child !in t.index
  }

  /** Takes nodes off the stack down to and including the given one. */
  method PopComponent(stack0: seq<Id>, onStack0: set<Id>, node: Id, ghost n: nat)
    returns (stack: seq<Id>, onStack: set<Id>, comp: set<Id>)
    requires n < |stack0| && stack0[n] == node && onStack0 == Members(stack0)
    requires forall p, q :: 0 <= p < q < |stack0| ==> stack0[p] != stack0[q]
    ensures stack == stack0[..n] && onStack == Members(stack)
    ensures comp == Members(stack0[n..])
  {
    stack, onStack, comp := stack0, onStack0, {};
    while true
      invariant n < |stack| <= |stack0| && stack == stack0[..|stack|]
      invariant onStack == Members(stack)
      invariant comp == Members(stack0[|stack|..])
      decreases |stack|
    {
      var w := stack[|stack| - 1];
      ghost var m := |stack| - 1;
      assert stack0[m..] == [w] + stack0[m + 1..];
      assert stack == stack0[..m] + [w];
      stack := stack[..|stack| - 1];
      onStack := onStack - {w};
      comp := comp + {w};
      if w == node {
        break;
      }
    }
  }

  /** All edges of node are explored: closes its component if it is a root, and tells its parent. */
  method Leave(succ: Graph, node: Id, index: map<Id, int>, low0: map<Id, int>, stack0: seq<Id>, onStack0: set<Id>,
               out0: seq<seq<Id>>, work: seq<(Id, nat)>, ghost t: State, ghost counter: int)
    returns (low: map<Id, int>, stack: seq<Id>, onStack: set<Id>, out: seq<seq<Id>>, ghost t': State)
    requires Running(succ, t, out0, counter) && TopDone(succ, t)
    requires t.index == index && t.low == low0 && t.stack == stack0 && onStack0 == Members(stack0)
    requires t.frames[|t.frames| - 1].0 == node && work == t.frames[..|t.frames| - 1]
    ensures Running(succ, t', out, counter)
    ensures t'.index == index && t'.low == low && t'.stack == stack && onStack == Members(stack)
    ensures t'.frames == work
  {
    hide Links, Edges, Classes, Counted;
    low, stack, onStack, out := low0, stack0, onStack0, out0;
    assert t.stack[Top(t)] == node;
    if low[node] == index[node] {
      var comp;
      ParentLowIfAny(succ, t);
      stack, onStack, comp := PopComponent(stack, onStack, node, Top(t));
      RunClose(succ, t, out, counter, Sorted(comp));
      out := out + [Sorted(comp)];
      t' := ClosedOff(t);
    } else {
      RunRetreat(succ, t, out, counter);
      t' := Retreated(t);
    }
    if |work| > 0 {
      var parent := work[|work| - 1].0;
      low := low[parent := Lower(low[parent], low[node])];
    }
  }

  /** The work list is the search path, plus the node about to be entered. */
  ghost predicate WorkMatches(work: seq<(Id, nat)>, frames: seq<(Id, nat)>, entering: bool) {
    if entering then |work| > 0 && work == Bumped(frames) + [(work[|work| - 1].0, 0)]
    else work == frames && (|frames| > 0 ==> frames[|frames| - 1].1 > 0)
  }

  ghost predicate AtWork(succ: Graph, t: State, out: seq<seq<Id>>, counter: int, work: seq<(Id, nat)>,
                         entering: bool) {
    && Running(succ, t, out, counter)
    && WorkMatches(work, t.frames, entering)
    && (entering ==> CanVisit(succ, t, work[|work| - 1].0, counter))
  }

  /** The state once the node taken off the work list has been entered, or is being resumed. */
  ghost predicate AtNode(succ: Graph, t: State, out: seq<seq<Id>>, counter: int, work: seq<(Id, nat)>,
                         node: Id, i: nat) {
    && Running(succ, t, out, counter) && Inv(succ, t) && Resumable(t.frames)
    && t.frames == work + [(node, i)]
  }

  /** Numbers the node just taken off the work list if it is new, and opens its component. */
  method Enter(succ: Graph, index0: map<Id, int>, low0: map<Id, int>, stack0: seq<Id>, onStack0: set<Id>,
               counter0: int, work: seq<(Id, nat)>, ghost t: State, ghost out: seq<seq<Id>>, ghost entering: bool)
    returns (index: map<Id, int>, low: map<Id, int>, stack: seq<Id>, onStack: set<Id>, counter: int, ghost t': State)
    requires |work| > 0 && AtWork(succ, t, out, counter0, work, entering)
    requires t.index == index0 && t.low == low0 && t.stack == stack0 && onStack0 == Members(stack0)
    ensures var (node, i) := work[|work| - 1];
            && AtNode(succ, t', out, counter, work[..|work| - 1], node, i)
            && Inv(succ, t') && t'.frames == work[..|work| - 1] + [(node, i)]
            && (i == 0 <==> entering)
            && index == (if entering then index0[node := counter0] else index0)
            && (entering ==> node in succ && node !in index0)
    ensures t'.index == index && t'.low == low && t'.stack == stack && onStack == Members(stack)
  {
    hide Inv, Classes, Counted;
    index, low, stack, onStack, counter, t' := index0, low0, stack0, onStack0, counter0, t;
    var (node, i) := work[|work| - 1];
    if i == 0 {
      RunVisit(succ, t, out, counter, node);
      t' := Visited(t, node, counter);
      index, low := index[node := counter], low[node := counter];
      counter := counter + 1;
      stack, onStack := stack + [node], onStack + {node};
    }
  }

  /** After its edges were looked at, a node either sends the search deeper or is done. */
  lemma AfterScan(succ: Graph, t: State, t': State, out: seq<seq<Id>>, counter: int, work: seq<(Id, nat)>,
                  node: Id, start: nat, i: nat, found: bool, child: Id)
    requires AtNode(succ, t, out, counter, work, node, start)
    requires Inv(succ, t') && start <= i && t'.index.Keys <= succ.Keys
    requires |t.frames| > 0
    requires t' == t.(low := t'.low, frames := t.frames[|t.frames| - 1 := (node, if found && i > 0 then i - 1 else i)])
    requires Closed(succ) && (found ==> LeadsOut(succ, t', node, i, child))
    ensures Running(succ, t', out, counter) && Resumable(t'.frames)
    ensures |t'.frames| > 0 && t'.frames[..|t'.frames| - 1] == work && t'.frames[|t'.frames| - 1].0 == node
    ensures found ==> AtWork(succ, t', out, counter, work + [(node, i), (child, 0)], true)
  {
    hide Inv, Classes;
    assert Finished(t') == Finished(t);
    if found {
      assert Edge(succ, node, child);
    }
  }

  lemma AfterLeave(succ: Graph, t: State, t': State, out: seq<seq<Id>>, counter: int, work: seq<(Id, nat)>)
    requires Resumable(t.frames) && |t.frames| > 0 && work == t.frames[..|t.frames| - 1]
    requires Running(succ, t', out, counter) && t'.frames == work
    ensures AtWork(succ, t', out, counter, work, false)
  {
  }

  lemma StartWork(succ: Graph, t: State, out: seq<seq<Id>>, counter: int, root: Id)
    requires Running(succ, t, out, counter) && root in succ && root !in t.index && t.frames == []
    ensures AtWork(succ, t, out, counter, [(root, 0)], true)
    ensures Members([]) == {}
  {
  }

  lemma AtRest(succ: Graph, t: State, out: seq<seq<Id>>, counter: int, entering: bool)
    requires AtWork(succ, t, out, counter, [], entering)
    ensures t == State(t.index, t.low, [], [], []) && Running(succ, t, out, counter)
  {
  }

  /** Runs the search from one unvisited root until its work list is empty. */
  method Explore(succ: Graph, root: Id, index0: map<Id, int>, low0: map<Id, int>,
                 out0: seq<seq<Id>>, counter0: int)
    returns (index: map<Id, int>, low: map<Id, int>, out: seq<seq<Id>>, counter: int)
    requires Closed(succ) && root in succ && root !in index0
    requires Running(succ, State(index0, low0, [], [], []), out0, counter0)
    ensures Running(succ, State(index, low, [], [], []), out, counter)
    ensures index0.Keys + {root} <= index.Keys
  {
    hide *;
    index, low, out, counter := index0, low0, out0, counter0;
    var onStack: set<Id>, stack: seq<Id> := {}, [];
    var work: seq<(Id, nat)> := [(root, 0)];
    ghost var t := State(index, low, [], [], []);
    ghost var entering := true;
    StartWork(succ, t, out, counter, root);
    while |work| > 0
      invariant AtWork(succ, t, out, counter, work, entering)
      invariant t.index == index && t.low == low && t.stack == stack && onStack == Members(stack)
      invariant index0.Keys <= index.Keys
      invariant entering ==> |work| > 0
      invariant root in index || (entering && work[|work| - 1].0 == root)
      decreases succ.Keys - index.Keys, if entering then 0 else 1, |work|
    {
      ghost var todo := succ.Keys - index.Keys;
      index, low, stack, onStack, counter, t := Enter(succ, index, low, stack, onStack, counter, work, t, out, entering);
      var (node, i) := work[|work| - 1];
      work := work[..|work| - 1];
      assert entering ==> node in todo;
      assert succ.Keys - index.Keys <= todo;
      ghost var before, start := t, i;
      var found, child;
      i, low, found, child, t := ScanEdges(succ, index, low, onStack, node, i, t);
      AfterScan(succ, before, t, out, counter, work, node, start, i, found, child);
      entering := found;
      if found {
        work := work + [(node, i), (child, 0)];
      } else {
        ghost var scanned := t;
        low, stack, onStack, out, t := Leave(succ, node, index, low, stack, onStack, out, work, t, counter);
        AfterLeave(succ, scanned, t, out, counter, work);
      }
    }
    AtRest(succ, t, out, counter, entering);
  }

  /** The strongly connected components, each ascending, ordered by first element. */
  method StronglyConnectedComponents(adj: Graph) returns (out: seq<seq<Id>>)
    ensures IsPartition(adj, out)
  {
    hide *;
    var succ := Successors(adj);
    var index: map<Id, int>, low: map<Id, int>, counter := map[], map[], 0;
    out := [];
    var roots := Sorted(succ.Keys);
    Start(adj, succ);
    for r := 0 to |roots|
      invariant Running(succ, State(index, low, [], [], []), out, counter)
      invariant forall k :: 0 <= k < r ==> roots[k] in index
    {
      if roots[r] !in index {
        index, low, out, counter := Explore(succ, roots[r], index, low, out, counter);
      }
    }
    AllClasses(adj, succ, index, low, out, counter);
    out := SortByFirst(out);
  }

  lemma Start(adj: Graph, succ: Graph)
    requires succ == Successors(adj)
    ensures Closed(succ)
    ensures Running(succ, State(map[], map[], [], [], []), [], 0)
  {
    var t := State(map[], map[], [], [], []);
    assert Shape(succ, t);
    assert Links(succ, t);
    assert LowLinks(succ, t);
    assert Edges(succ, t);
    assert Finished(t) == {};
    assert Classes(succ, {}, []);
  }

  lemma AllClasses(adj: Graph, succ: Graph, index: map<Id, int>, low: map<Id, int>, out: seq<seq<Id>>, counter: int)
    requires succ == Successors(adj) && forall v :: v in succ ==> v in index
    requires Running(succ, State(index, low, [], [], []), out, counter)
    ensures FirstsDiffer(out)
    ensures IsPartition(adj, SortByFirst(out))
  {
    var t := State(index, low, [], [], []);
    assert Finished(t) == index.Keys;
    assert index.Keys <= succ.Keys;
    assert forall v :: v in Finished(t) <==> v in succ;
    assert Classes(succ, Finished(t), out);
    forall k | 0 <= k < |out| ensures IsClass(adj, out[k]) {
      SameClasses(adj, succ, out[k]);
    }
    SortedPartition(adj, Finished(t), out);
  }

  lemma SortedPartition(adj: Graph, nodes: set<Id>, out: seq<seq<Id>>)
    requires forall v :: v in nodes <==> IsNode(adj, v)
    requires forall k :: 0 <= k < |out| ==> IsClass(adj, out[k])
    requires forall k, v :: 0 <= k < |out| && v in out[k] ==> v in nodes
    requires forall v :: v in nodes ==> InSome(out, v)
    requires Disjoint(out)
    ensures FirstsDiffer(out)
    ensures IsPartition(adj, SortByFirst(out))
  {
    hide IsClass, IsNode, Disjoint, InSome;
    DisjointFirsts(adj, out);
    var r := SortByFirst(out);
    forall k | 0 <= k < |r|
      ensures IsClass(adj, r[k]) && forall v :: v in r[k] ==> v in nodes
    {
      assert r[k] in out;
    }
    forall v | v in nodes ensures InSome(r, v) {
      SameMembers(out, r, v);
    }
    forall i, j | 0 <= i < j < |r| ensures r[i][0] < r[j][0] {
      FirstsInOrder(r, i, j);
    }
  }

  lemma SameMembers(out: seq<seq<Id>>, r: seq<seq<Id>>, v: Id)
    requires forall c :: c in r <==> c in out
    requires InSome(out, v)
    ensures InSome(r, v)
  {
    var i :| 0 <= i < |out| && v in out[i];
    assert out[i] in r;
    var k :| 0 <= k < |r| && r[k] == out[i];
  }

  lemma DisjointFirsts(adj: Graph, out: seq<seq<Id>>)
    requires forall k :: 0 <= k < |out| ==> IsClass(adj, out[k])
    requires Disjoint(out)
    ensures FirstsDiffer(out)
  {
    forall i, j | 0 <= i < j < |out| ensures |out[i]| > 0 && |out[j]| > 0 && out[i][0] != out[j][0] {
      assert IsClass(adj, out[i]) && IsClass(adj, out[j]);
      assert out[i][0] in out[i] && out[j][0] in out[j];
    }
    assert forall k :: 0 <= k < |out| ==> IsClass(adj, out[k]) && |out[k]| > 0;
  }

  // ---------------------------------------------------------------- deadlocks

  ghost predicate Acyclic(adj: Graph) {
    forall u, v :: Edge(adj, u, v) ==> !Reach(adj, v, u)
  }

  /** The components of at least two nodes: exactly the deadlock candidates. */
  method DeadlockComponents(adj: Graph) returns (out: seq<seq<Id>>)
    ensures forall c :: c in out ==> IsClass(adj, c) && |c| >= 2
    ensures forall u, v :: u != v && Mutual(adj, u, v) ==> InSome(out, u)
    ensures (forall u :: !Edge(adj, u, u)) ==> (out == [] <==> Acyclic(adj))
    ensures Disjoint(out)
  {
    hide IsPartition, Acyclic, IsClass, Disjoint;
    var all := StronglyConnectedComponents(adj);
    out := [];
    NoneDisjoint(all);
    for k := 0 to |all|
      invariant forall c :: c in out ==> c in all && |c| >= 2
      invariant forall i :: 0 <= i < k && |all[i]| >= 2 ==> all[i] in out
      invariant Disjoint(out) && forall c :: c in out ==> c in all[..k]
    {
      if |all[k]| >= 2 {
        OneMoreDisjoint(adj, all, out, k);
        out := out + [all[k]];
      }
    }
    LargeClasses(adj, all, out);
  }

  lemma NoneDisjoint(all: seq<seq<Id>>)
    ensures Disjoint([])
  {
  }

  lemma OneMoreDisjoint(adj: Graph, all: seq<seq<Id>>, out: seq<seq<Id>>, k: nat)
    requires IsPartition(adj, all) && k < |all| && Disjoint(out) && forall c :: c in out ==> c in all[..k]
    ensures Disjoint(out + [all[k]])
  {
    forall i, v | 0 <= i < |out| && v in out[i] ensures v !in all[k] {
      assert out[i] in out;
      var j :| 0 <= j < k && all[j] == out[i];
      if v in all[k] {
        SameFirst(adj, all[j], all[k], v);
      }
    }
  }

  /** Classes with a common member have the same first member. */
  lemma SameFirst(adj: Graph, c: seq<Id>, d: seq<Id>, v: Id)
    requires IsClass(adj, c) && IsClass(adj, d) && v in c && v in d
    ensures c[0] == d[0]
  {
    hide Mutual;
    SameMember(adj, c, d, v, c[0]);
    SameMember(adj, d, c, v, d[0]);
    var i :| 0 <= i < |d| && d[i] == c[0];
    var j :| 0 <= j < |c| && c[j] == d[0];
  }

  lemma SameMember(adj: Graph, c: seq<Id>, d: seq<Id>, v: Id, x: Id)
    requires IsClass(adj, c) && IsClass(adj, d) && v in c && v in d && x in c
    ensures x in d
  {
    hide Mutual;
    assert Mutual(adj, v, x);
  }

  lemma LargeClasses(adj: Graph, all: seq<seq<Id>>, out: seq<seq<Id>>)
    requires IsPartition(adj, all)
    requires forall c :: c in out <==> c in all && |c| >= 2
    ensures forall c :: c in out ==> IsClass(adj, c) && |c| >= 2
    ensures forall u, v :: u != v && Mutual(adj, u, v) ==> InSome(out, u)
    ensures (forall u :: !Edge(adj, u, u)) ==> (out == [] <==> Acyclic(adj))
  {
    hide IsClass, Reach;
    assert forall c :: c in out ==> IsClass(adj, c) && |c| >= 2;
    forall u, v | u != v && Mutual(adj, u, v)
      ensures InSome(out, u)
    {
      InLargeClass(adj, all, out, u, v);
    }
    if forall u :: !Edge(adj, u, u) {
      if out != [] {
        ClassOnCycle(adj, out[0]);
      } else {
        forall u, v | Edge(adj, u, v)
          ensures !Reach(adj, v, u)
        {
          ReachEdge(adj, u, v);
          assert u != v;
          assert Mutual(adj, u, v) ==> InSome(out, u);
        }
      }
    }
  }

  lemma InLargeClass(adj: Graph, all: seq<seq<Id>>, out: seq<seq<Id>>, u: Id, v: Id)
    requires IsPartition(adj, all) && u != v && Mutual(adj, u, v)
    requires forall c :: c in out <==> c in all && |c| >= 2
    ensures InSome(out, u)
  {
    var p :| WalkFromTo(adj, p, u, v);
    assert Edge(adj, p[0], p[1]);
    assert IsNode(adj, u);
    var k :| 0 <= k < |all| && u in all[k];
    assert IsClass(adj, all[k]);
    assert v in all[k];
    assert |all[k]| >= 2;
    assert all[k] in out;
  }

  lemma ClassOnCycle(adj: Graph, c: seq<Id>)
    requires IsClass(adj, c) && |c| >= 2
    ensures !Acyclic(adj)
  {
    var p := CycleSearch.ClassHasCycle(adj, c, c[0]);
    OnWalk(adj, p, |p| - 1);
    assert Edge(adj, p[|p| - 1], c[0]);
  }

  /** The cycle reported for a deadlock: never empty, simple, inside it, from its smallest id. */
  method DeadlockCycle(adj: Graph, c: seq<Id>) returns (cycle: seq<Id>)
    requires IsClass(adj, c) && |c| >= 2
    ensures CycleSearch.ReturnsTo(adj, Members(c), c[0], cycle) && CycleSearch.Distinct(cycle)
  {
    ghost var p := CycleSearch.ClassHasCycle(adj, c, c[0]);
    assert CycleSearch.Least(c) == c[0];
    TwoMembers(c);
    cycle := CycleSearch.FindCycle(adj, c);
  }

  lemma TwoMembers(c: seq<Id>)
    requires StrictlySorted(c) && |c| >= 2
    ensures |Members(c)| >= 2
  {
    assert {c[0], c[1]} <= Members(c);
    SubsetSize({c[0], c[1]}, Members(c));
  }
}
