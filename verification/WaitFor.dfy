/** The wait-for graph: who stands still because of whom, and why. */
module WaitFor {
  import opened Graphs
  import opened Options
  import opened Sorting
  import SccInvariant
  import Deadlock

  datatype Reason = Token | Crossing | Block
  type Edges = map<Id, map<Id, Reason>>

  ghost predicate HasEdge(m: Edges, u: Id, v: Id) {
    u in m && v in m[u]
  }

  /** No robot waits for itself, and everything waited for is a node. */
  ghost predicate WellFormed(m: Edges) {
    forall u, v :: HasEdge(m, u, v) ==> u != v && v in m
  }

  function WithNode(m: Edges, n: Id): Edges {
    if n in m then m else m[n := map[]]
  }

  function WithEdge(m: Edges, src: Id, dst: Id, reason: Reason): Edges {
    var m1 := WithNode(m, dst);
    if src == dst then m1
    else
      var m2 := WithNode(m1, src);
      if dst in m2[src] then m2 else m2[src := m2[src][dst := reason]]
  }

  /** Adding an edge: self edges are dropped, and the first reason given for a pair stays. */
  lemma WithEdgeMeaning(m: Edges, src: Id, dst: Id, reason: Reason, u: Id, v: Id)
    ensures HasEdge(WithEdge(m, src, dst, reason), u, v) <==>
              HasEdge(m, u, v) || (u == src && v == dst && src != dst)
    ensures HasEdge(m, u, v) ==> WithEdge(m, src, dst, reason)[u][v] == m[u][v]
    ensures src != dst && !HasEdge(m, src, dst) ==> WithEdge(m, src, dst, reason)[src][dst] == reason
    ensures WellFormed(m) ==> WellFormed(WithEdge(m, src, dst, reason))
  {
    var m' := WithEdge(m, src, dst, reason);
    forall a, b | WellFormed(m) && HasEdge(m', a, b) ensures a != b && b in m' {
      assert HasEdge(m, a, b) || (a == src && b == dst && src != dst);
    }
  }

  /** The edges with the wanted reason (any reason if none is given), as adjacency lists. */
  function Only(m: Edges, reason: Option<Reason>): (g: Graph)
    ensures g.Keys == m.Keys
    ensures forall u, v :: Edge(g, u, v) <==>
              HasEdge(m, u, v) && (reason == None || m[u][v] == reason.value)
  {
    map u | u in m :: Sorted(set v | v in m[u] && (reason == None || m[u][v] == reason.value))
  }

  /** p has a non-empty walk along g to one of the targets. */
  ghost predicate LeadsTo(g: Graph, p: Id, targets: set<Id>) {
    exists q, t :: Edge(g, p, q) && Reach(g, q, t) && t in targets
  }

  function Predecessors(g: Graph, d: Id): (r: set<Id>)
    ensures forall s :: s in r <==> Edge(g, s, d)
  {
    set s | s in g && d in g[s]
  }

  /** What the backward search knows: a node it found has all its predecessors found, unless it still waits. */
  ghost predicate Closing(g: Graph, targets: set<Id>, out: set<Id>, waiting: set<Id>) {
    && (forall x :: x in out ==> LeadsTo(g, x, targets))
    && waiting <= out + targets
    && (forall x, s :: x in out + targets && x !in waiting && Edge(g, s, x) ==> s in out)
  }

  lemma BackStep(g: Graph, targets: set<Id>, s: Id, x: Id)
    requires Edge(g, s, x) && (x in targets || LeadsTo(g, x, targets))
    ensures LeadsTo(g, s, targets)
  {
    if x in targets {
      ReachRefl(g, x);
      assert Edge(g, s, x) && Reach(g, x, x) && x in targets;
    } else {
      var q, t :| Edge(g, x, q) && Reach(g, q, t) && t in targets;
      ReachEdge(g, x, q);
      ReachTrans(g, x, q, t);
      assert Edge(g, s, x) && Reach(g, x, t) && t in targets;
    }
  }

  lemma Found(g: Graph, targets: set<Id>, out: set<Id>, waiting: set<Id>, s: Id, x: Id)
    requires Closing(g, targets, out, waiting) && x in out + targets && Edge(g, s, x)
    ensures Closing(g, targets, out + {s}, if s in out then waiting else waiting + {s})
    ensures s in g
  {
    BackStep(g, targets, s, x);
  }

  lemma WalkTail(g: Graph, p: seq<Id>)
    requires Walk(g, p) && |p| > 1
    ensures Walk(g, p[1..])
  {
    forall i | 0 <= i < |p[1..]| - 1 ensures Edge(g, p[1..][i], p[1..][i + 1]) {
      assert Edge(g, p[i + 1], p[i + 2]);
    }
  }

  /** When nothing waits any more, every node that leads to a target was found. */
  lemma {:induction false} AllFound(g: Graph, targets: set<Id>, out: set<Id>, p: seq<Id>)
    requires Closing(g, targets, out, {})
    requires Walk(g, p) && |p| > 1 && p[|p| - 1] in targets
    ensures p[0] in out
  {
    assert Edge(g, p[0], p[1]);
    if |p| > 2 {
      WalkTail(g, p);
      AllFound(g, targets, out, p[1..]);
    }
  }

  lemma FoundAll(g: Graph, targets: set<Id>, out: set<Id>, x: Id)
    requires Closing(g, targets, out, {})
    ensures x in out <==> LeadsTo(g, x, targets)
  {
    if LeadsTo(g, x, targets) {
      var q, t :| Edge(g, x, q) && Reach(g, q, t) && t in targets;
      var p :| WalkFromTo(g, p, q, t);
      var r := [x] + p;
      forall i | 0 <= i < |r| - 1 ensures Edge(g, r[i], r[i + 1]) {
        if i > 0 {
          assert Edge(g, p[i - 1], p[i]);
        }
      }
      AllFound(g, targets, out, r);
    }
  }

  lemma Settled(g: Graph, targets: set<Id>, out: set<Id>, stack: seq<Id>, x: Id)
    requires Closing(g, targets, out, Members(stack) + {x})
    requires forall s :: Edge(g, s, x) ==> s in out
    ensures Closing(g, targets, out, Members(stack))
  {
  }

  lemma NothingFound(g: Graph, targets: set<Id>)
    ensures Closing(g, targets, {}, targets)
  {
  }

  lemma MembersSplit(s: seq<Id>, x: Id)
    ensures Members(s + [x]) == Members(s) + {x}
  {
  }

  lemma NoMembers(s: seq<Id>)
    requires |s| == 0
    ensures Members(s) == {}
  {
  }

  class WaitForGraph {
    var succ: Edges

    ghost predicate Valid()
      reads this
    {
      WellFormed(succ)
    }

    constructor ()
      ensures Valid() && succ == map[]
    {
      succ := map[];
    }

    method AddNode(n: Id)
      requires Valid()
      modifies this
      ensures Valid() && succ == WithNode(old(succ), n)
    {
      if n !in succ {
        succ := succ[n := map[]];
      }
      forall u, v | HasEdge(succ, u, v) ensures u != v && v in succ {
        assert HasEdge(old(succ), u, v);
      }
    }

    method Add(src: Id, dst: Id, reason: Reason)
      requires Valid()
      modifies this
      ensures Valid() && succ == WithEdge(old(succ), src, dst, reason)
    {
      AddNode(dst);
      if src != dst {
        AddNode(src);
        if dst !in succ[src] {
          succ := succ[src := succ[src][dst := reason]];
        }
      }
      forall u, v | HasEdge(succ, u, v) ensures u != v && v in succ {
        WithEdgeMeaning(old(succ), src, dst, reason, u, v);
      }
    }

    /** The nodes from which a non-empty walk along edges of the given reason leads to a target. */
    method PredecessorsClosure(targets: seq<Id>, reason: Option<Reason>) returns (out: set<Id>)
      ensures forall p :: p in out <==> LeadsTo(Only(succ, reason), p, Members(targets))
    {
      hide *;
      var g := Only(succ, reason);
      out := {};
      var stack := targets;
      NothingFound(g, Members(targets));
      while |stack| > 0
        invariant Closing(g, Members(targets), out, Members(stack))
        invariant Members(stack) <= out + Members(targets)
        invariant out <= g.Keys
        decreases g.Keys - out, |stack|
      {
        var x := stack[|stack| - 1];
        ghost var before, todo, n := out, g.Keys - out, |stack| - 1;
        assert stack == stack[..n] + [x];
        MembersSplit(stack[..n], x);
        stack := stack[..|stack| - 1];
        var preds := Sorted(Predecessors(g, x));
        for k := 0 to |preds|
          invariant Closing(g, Members(targets), out, Members(stack) + {x})
          invariant Members(stack) + {x} <= out + Members(targets)
          invariant forall i :: 0 <= i < k ==> preds[i] in out
          invariant before <= out <= g.Keys
          invariant out == before ==> |stack| == n
          invariant out != before ==> g.Keys - out < todo
        {
          var p := preds[k];
          Found(g, Members(targets), out, Members(stack) + {x}, p, x);
          MembersSplit(stack, p);
          if p !in out {
            assert p in todo;
            assert Members(stack) + {x} + {p} == Members(stack) + {p} + {x};
            out := out + {p};
            stack := stack + [p];
          } else {
            assert out + {p} == out;
          }
        }
        Settled(g, Members(targets), out, stack, x);
      }
      NoMembers(stack);
      forall p ensures p in out <==> LeadsTo(g, p, Members(targets)) {
        FoundAll(g, Members(targets), out, p);
      }
    }

    /** Node ids with the ids they wait for, ascending. */
    function Adjacency(): (g: Graph)
      reads this
      ensures forall u, v :: Edge(g, u, v) <==> HasEdge(succ, u, v)
    {
      Only(succ, None)
    }

    method DeadlockComponents() returns (out: seq<seq<Id>>)
      requires Valid()
      ensures out == [] <==> Deadlock.Acyclic(Adjacency())
      ensures forall u, v :: u != v && Mutual(Adjacency(), u, v) ==> SccInvariant.InSome(out, u)
      ensures forall c :: c in out ==> SccInvariant.IsClass(Adjacency(), c) && |c| >= 2
      ensures SccInvariant.Disjoint(out)
    {
      assert forall u :: !Edge(Adjacency(), u, u);
      out := Deadlock.DeadlockComponents(Adjacency());
    }
  }
}
