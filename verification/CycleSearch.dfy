/** A simple cycle through the smallest node of a component. */
module CycleSearch {
  import opened Graphs
  import opened Sorting
  import opened SccInvariant

  /** The successors of n inside members, ascending. */
  function Inside(adj: Graph, members: set<Id>, n: Id): (r: seq<Id>)
    ensures forall v :: v in r <==> Edge(adj, n, v) && v in members
  {
    if n in adj then Sorted(set v | v in adj[n] && v in members) else []
  }

  ghost predicate Distinct(p: seq<Id>) {
    forall i, j :: 0 <= i < j < |p| ==> p[i] != p[j]
  }

  /** p leads from start through members to a node with an edge back to start. */
  ghost predicate ReturnsTo(adj: Graph, members: set<Id>, start: Id, p: seq<Id>) {
    && Walk(adj, p) && p[0] == start
    && (forall i :: 0 <= i < |p| ==> p[i] in members)
    && Edge(adj, p[|p| - 1], start)
  }

  /** How far the successors of the j-th node of the path have been tried. */
  ghost predicate Tried(adj: Graph, members: set<Id>, start: Id, seen: set<Id>, n: Id, rest: seq<Id>) {
    && |rest| <= |Inside(adj, members, n)|
    && rest == Inside(adj, members, n)[|Inside(adj, members, n)| - |rest|..]
    && forall e :: 0 <= e < |Inside(adj, members, n)| - |rest| ==>
         Inside(adj, members, n)[e] in seen && Inside(adj, members, n)[e] != start
  }

  ghost predicate Searching(adj: Graph, members: set<Id>, start: Id, path: seq<Id>, seen: set<Id>, iters: seq<seq<Id>>) {
    && |path| == |iters|
    && start in seen && seen <= members
    && Distinct(path)
    && (forall j :: 0 <= j < |path| ==> path[j] in seen)
    && (|path| > 0 ==> Walk(adj, path) && path[0] == start)
    && (forall j :: 0 <= j < |path| ==> Tried(adj, members, start, seen, path[j], iters[j]))
    && (forall x :: x in seen && x !in path ==> Tried(adj, members, start, seen, x, []))
  }

  lemma WalkPrefix(adj: Graph, p: seq<Id>, n: nat)
    requires Walk(adj, p) && 0 < n <= |p|
    ensures Walk(adj, p[..n])
  {
    assert forall i :: 0 <= i < n - 1 ==> Edge(adj, p[i], p[i + 1]);
  }

  lemma WalkMore(adj: Graph, p: seq<Id>, v: Id)
    requires Walk(adj, p) && Edge(adj, p[|p| - 1], v)
    ensures Walk(adj, p + [v])
  {
    var q := p + [v];
    forall i | 0 <= i < |q| - 1 ensures Edge(adj, q[i], q[i + 1]) {
      if i < |p| - 1 {
        assert Edge(adj, p[i], p[i + 1]);
      }
    }
  }

  lemma Pop(adj: Graph, members: set<Id>, start: Id, path: seq<Id>, seen: set<Id>, iters: seq<seq<Id>>)
    requires Searching(adj, members, start, path, seen, iters) && |path| > 0
    requires iters[|path| - 1] == []
    ensures Searching(adj, members, start, path[..|path| - 1], seen, iters[..|path| - 1])
  {
    hide Tried, Walk, Distinct;
    var k := |path| - 1;
    DistinctPrefix(path, k);
    if k > 0 {
      WalkPrefix(adj, path, k);
    }
    assert path == path[..k] + [path[k]];
    forall x | x in seen && x !in path[..k] ensures Tried(adj, members, start, seen, x, []) {
      assert x in path ==> x == path[k];
    }
    forall j | 0 <= j < k ensures Tried(adj, members, start, seen, path[..k][j], iters[..k][j]) {
      assert path[..k][j] == path[j] && iters[..k][j] == iters[j];
    }
  }

  lemma DistinctPrefix(path: seq<Id>, k: nat)
    requires Distinct(path) && k <= |path|
    ensures Distinct(path[..k])
  {
  }

  lemma DistinctMore(path: seq<Id>, v: Id)
    requires Distinct(path) && v !in path
    ensures Distinct(path + [v])
  {
  }

  lemma TriedMore(adj: Graph, members: set<Id>, start: Id, seen: set<Id>, seen': set<Id>, n: Id, rest: seq<Id>)
    requires Tried(adj, members, start, seen, n, rest) && seen <= seen'
    ensures Tried(adj, members, start, seen', n, rest)
  {
  }

  lemma TriedNext(adj: Graph, members: set<Id>, start: Id, seen: set<Id>, n: Id, rest: seq<Id>)
    requires Tried(adj, members, start, seen, n, rest) && |rest| > 0
    ensures Edge(adj, n, rest[0]) && rest[0] in members
    ensures rest[0] in seen && rest[0] != start ==> Tried(adj, members, start, seen, n, rest[1..])
  {
    var all := Inside(adj, members, n);
    var k := |all| - |rest|;
    assert all[k] == rest[0] && all[k] in all;
    assert rest[1..] == all[k + 1..];
  }

  lemma Skip(adj: Graph, members: set<Id>, start: Id, path: seq<Id>, seen: set<Id>, iters: seq<seq<Id>>)
    requires Searching(adj, members, start, path, seen, iters) && |path| > 0
    requires var rest := iters[|path| - 1]; |rest| > 0 && rest[0] in seen && rest[0] != start
    ensures Searching(adj, members, start, path, seen, iters[|path| - 1 := iters[|path| - 1][1..]])
  {
    hide Tried, Walk, Distinct;
    var k := |path| - 1;
    TriedNext(adj, members, start, seen, path[k], iters[k]);
    var next := iters[k := iters[k][1..]];
    forall j | 0 <= j < |path| ensures Tried(adj, members, start, seen, path[j], next[j]) {
      assert j != k ==> next[j] == iters[j];
    }
  }

  lemma Push(adj: Graph, members: set<Id>, start: Id, path: seq<Id>, seen: set<Id>, iters: seq<seq<Id>>, v: Id)
    requires Searching(adj, members, start, path, seen, iters) && |path| > 0
    requires var rest := iters[|path| - 1]; |rest| > 0 && rest[0] == v && v !in seen
    ensures Searching(adj, members, start, path + [v], seen + {v},
                      iters[|path| - 1 := iters[|path| - 1][1..]] + [Inside(adj, members, v)])
    ensures v in members
  {
    hide Tried, Walk, Distinct;
    var k := |path| - 1;
    var seen' := seen + {v};
    var iters' := iters[k := iters[k][1..]] + [Inside(adj, members, v)];
    TriedNext(adj, members, start, seen, path[k], iters[k]);
    WalkMore(adj, path, v);
    DistinctMore(path, v);
    forall j | 0 <= j < |path| ensures Tried(adj, members, start, seen', path[j], iters'[j]) {
      TriedMore(adj, members, start, seen, seen', path[j], iters[j]);
      if j == k {
        TriedNext(adj, members, start, seen', path[k], iters[k]);
      }
    }
    Untried(adj, members, start, seen', v);
    forall x | x in seen' && x !in path + [v] ensures Tried(adj, members, start, seen', x, []) {
      assert x !in path;
      TriedMore(adj, members, start, seen, seen', x, []);
    }
  }

  lemma Untried(adj: Graph, members: set<Id>, start: Id, seen: set<Id>, v: Id)
    ensures Tried(adj, members, start, seen, v, Inside(adj, members, v))
  {
  }

  /** A search that ran dry has seen everything reachable, and nothing leads back. */
  lemma {:induction false} NoReturn(adj: Graph, members: set<Id>, start: Id, seen: set<Id>, p: seq<Id>)
    requires Searching(adj, members, start, [], seen, [])
    requires Walk(adj, p) && p[0] == start && forall i :: 0 <= i < |p| ==> p[i] in members
    ensures p[|p| - 1] in seen && !Edge(adj, p[|p| - 1], start)
  {
    var last := p[|p| - 1];
    if |p| > 1 {
      var q := p[..|p| - 1];
      assert forall i :: 0 <= i < |q| - 1 ==> Edge(adj, p[i], p[i + 1]);
      NoReturn(adj, members, start, seen, q);
      var x := q[|q| - 1];
      assert Edge(adj, p[|p| - 2], p[|p| - 1]);
      assert Tried(adj, members, start, seen, x, []);
      assert last in Inside(adj, members, x);
    }
    assert Tried(adj, members, start, seen, last, []);
    assert Edge(adj, last, start) ==> start in Inside(adj, members, last);
  }

  lemma FirstStep(adj: Graph, members: set<Id>, start: Id)
    requires start in members
    ensures Searching(adj, members, start, [start], {start}, [Inside(adj, members, start)])
  {
  }

  lemma Found(adj: Graph, members: set<Id>, start: Id, path: seq<Id>, seen: set<Id>, iters: seq<seq<Id>>)
    requires Searching(adj, members, start, path, seen, iters) && |path| > 0
    requires var rest := iters[|path| - 1]; |rest| > 0 && rest[0] == start
    ensures ReturnsTo(adj, members, start, path) && Distinct(path)
  {
    TriedNext(adj, members, start, seen, path[|path| - 1], iters[|path| - 1]);
  }

  lemma Exhausted(adj: Graph, members: set<Id>, start: Id, seen: set<Id>, p: seq<Id>)
    requires Searching(adj, members, start, [], seen, [])
    ensures !ReturnsTo(adj, members, start, p)
  {
    if ReturnsTo(adj, members, start, p) {
      NoReturn(adj, members, start, seen, p);
    }
  }

  function Least(component: seq<Id>): (least: Id)
    requires component != []
    ensures least in component && forall v :: v in component ==> least <= v
  {
    assert component[0] in component;
    Min(Members(component))
  }

  method FindCycle(adj: Graph, component: seq<Id>) returns (cycle: seq<Id>)
    ensures cycle != [] ==>
              && component != []
              && ReturnsTo(adj, Members(component), Least(component), cycle)
              && Distinct(cycle)
    ensures cycle == [] <==>
              |Members(component)| < 2 ||
              forall p :: !ReturnsTo(adj, Members(component), Least(component), p)
  {
    hide *;
    var members := Members(component);
    if |members| < 2 {
      return [];
    }
    assert component == [] ==> members == {};
    var start := Least(component);
    var path, seen := [start], {start};
    var iters := [Inside(adj, members, start)];
    FirstStep(adj, members, start);
    while |iters| > 0
      invariant Searching(adj, members, start, path, seen, iters)
      invariant |path| == |iters|
      decreases members - seen, |path|, if |iters| > 0 then |iters[|iters| - 1]| else 0
    {
      var k := |iters| - 1;
      if iters[k] == [] {
        Pop(adj, members, start, path, seen, iters);
        iters, path := iters[..k], path[..k];
      } else {
        var next := iters[k][0];
        if next == start {
          Found(adj, members, start, path, seen, iters);
          return path;
        }
        if next !in seen {
          Push(adj, members, start, path, seen, iters, next);
          path, seen := path + [next], seen + {next};
          iters := iters[k := iters[k][1..]] + [Inside(adj, members, next)];
        } else {
          Skip(adj, members, start, path, seen, iters);
          iters := iters[k := iters[k][1..]];
        }
      }
    }
    forall p ensures !ReturnsTo(adj, members, start, p) {
      Exhausted(adj, members, start, seen, p);
    }
    cycle := [];
  }

  /** Every node of a class of at least two nodes lies on a cycle inside the class. */
  lemma ClassHasCycle(adj: Graph, c: seq<Id>, start: Id) returns (p: seq<Id>)
    requires IsClass(adj, c) && |c| >= 2 && start in c
    ensures ReturnsTo(adj, Members(c), start, p)
  {
    var w := if c[0] == start then c[1] else c[0];
    assert w in c && w != start;
    assert Mutual(adj, start, w);
    var p1 :| WalkFromTo(adj, p1, start, w);
    var p2 :| WalkFromTo(adj, p2, w, start);
    var r := p1 + p2[1..];
    JoinWalks(adj, p1, p2, start, w, start);
    assert |p1| > 1 && |p2| > 1;
    p := r[..|r| - 1];
    WalkPrefix(adj, r, |r| - 1);
    forall i | 0 <= i < |p| ensures p[i] in Members(c) {
      OnWalk(adj, r, i);
      assert Mutual(adj, start, r[i]);
    }
    assert Edge(adj, r[|r| - 2], r[|r| - 1]);
  }
}
