/** Directed graphs given by adjacency lists, walks and reachability. */
module Graphs {

  // Ids are strings, numbered in their lexicographic order.
  type Id = int
  type Graph = map<Id, seq<Id>>

  ghost predicate Edge(g: Graph, u: Id, v: Id) {
    u in g && v in g[u]
  }

  /** Every successor is a node. */
  ghost predicate Closed(g: Graph) {
    forall u, v :: Edge(g, u, v) ==> v in g
  }

  ghost predicate Walk(g: Graph, p: seq<Id>) {
    |p| > 0 && forall i :: 0 <= i < |p| - 1 ==> Edge(g, p[i], p[i + 1])
  }

  ghost predicate WalkFromTo(g: Graph, p: seq<Id>, u: Id, v: Id) {
    Walk(g, p) && p[0] == u && p[|p| - 1] == v
  }

  /** v can be reached from u by zero or more edges. */
  ghost predicate Reach(g: Graph, u: Id, v: Id) {
    exists p :: WalkFromTo(g, p, u, v)
  }

  ghost predicate Mutual(g: Graph, u: Id, v: Id) {
    Reach(g, u, v) && Reach(g, v, u)
  }

  lemma ReachRefl(g: Graph, u: Id)
    ensures Reach(g, u, u)
  {
    assert WalkFromTo(g, [u], u, u);
  }

  lemma ReachEdge(g: Graph, u: Id, v: Id)
    requires Edge(g, u, v)
    ensures Reach(g, u, v)
  {
    assert WalkFromTo(g, [u, v], u, v);
  }

  lemma JoinWalks(g: Graph, p: seq<Id>, q: seq<Id>, u: Id, v: Id, w: Id)
    requires WalkFromTo(g, p, u, v) && WalkFromTo(g, q, v, w)
    ensures WalkFromTo(g, p + q[1..], u, w)
  {
    var r := p + q[1..];
    forall i | 0 <= i < |r| - 1
      ensures Edge(g, r[i], r[i + 1])
    {
      if i < |p| - 1 {
        assert Edge(g, p[i], p[i + 1]);
      } else {
        assert r[i] == q[i + 1 - |p|] && r[i + 1] == q[i + 2 - |p|];
        assert Edge(g, q[i + 1 - |p|], q[i + 2 - |p|]);
      }
    }
  }

  lemma ReachTrans(g: Graph, u: Id, v: Id, w: Id)
    requires Reach(g, u, v) && Reach(g, v, w)
    ensures Reach(g, u, w)
  {
    var p :| WalkFromTo(g, p, u, v);
    var q :| WalkFromTo(g, q, v, w);
    JoinWalks(g, p, q, u, v, w);
  }

  /** Every node of a walk is reached from its first node and reaches its last. */
  lemma OnWalk(g: Graph, p: seq<Id>, i: nat)
    requires Walk(g, p) && i < |p|
    ensures Reach(g, p[0], p[i]) && Reach(g, p[i], p[|p| - 1])
  {
    var a, b := p[..i + 1], p[i..];
    assert forall k :: 0 <= k < i ==> Edge(g, p[k], p[k + 1]);
    assert WalkFromTo(g, a, p[0], p[i]);
    forall k | 0 <= k < |b| - 1 ensures Edge(g, b[k], b[k + 1]) {
      assert Edge(g, p[i + k], p[i + k + 1]);
    }
    assert WalkFromTo(g, b, p[i], p[|p| - 1]);
  }

  ghost predicate ClosedUnder(g: Graph, s: set<Id>) {
    forall u, v :: u in s && Edge(g, u, v) ==> v in s
  }

  /** A set closed under edges cannot be left. */
  lemma ReachStays(g: Graph, s: set<Id>, u: Id, v: Id)
    requires ClosedUnder(g, s) && u in s && Reach(g, u, v)
    ensures v in s
  {
    var p :| WalkFromTo(g, p, u, v);
    WalkStays(g, s, p);
  }

  lemma {:induction false} WalkStays(g: Graph, s: set<Id>, p: seq<Id>)
    requires ClosedUnder(g, s) && Walk(g, p) && p[0] in s
    ensures p[|p| - 1] in s
  {
    if |p| > 1 {
      assert Edge(g, p[0], p[1]);
      assert Walk(g, p[1..]) by {
        forall i | 0 <= i < |p[1..]| - 1 ensures Edge(g, p[1..][i], p[1..][i + 1]) {
          assert Edge(g, p[i + 1], p[i + 2]);
        }
      }
      WalkStays(g, s, p[1..]);
    }
  }
}
