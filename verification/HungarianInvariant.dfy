/**
 The potentials, the partial matching and the alternating tree of the Kuhn-Munkres
 search, and what each of its steps does to them.  Rows and columns count from 1;
 column 0 holds the row being inserted.
 */
module HungarianInvariant {
  import opened Assignment
  import Sorting

  // A reduced distance; nothing was seen yet while it is Inf.
  datatype Dist = Inf | Fin(value: real)

  /**
   - u, v: row and column potentials
   - p: the row matched to each column, 0 for none
   - way: the column from which each column was reached
   */
  datatype State = State(cost: Matrix, n: nat, m: nat, u: seq<real>, v: seq<real>, p: seq<nat>, way: seq<nat>) {

    ghost predicate Sized() {
      && Rectangular(cost, n, m)
      && |u| == n + 1 && |v| == m + 1 && |p| == m + 1 && |way| == m + 1
    }

    /** What the cost leaves above the two potentials; 0 outside the matrix. */
    ghost function Slack(r: nat, j: nat): real
      requires Sized()
    {
      if 1 <= r <= n && 1 <= j <= m then cost[r - 1][j - 1] - u[r] - v[j] else 0.0
    }

    /** The rows up to k have no negative slack. */
    ghost predicate Below(k: nat)
      requires Sized()
    {
      forall r: nat, j: nat :: 1 <= r <= k && 1 <= j <= m ==> Slack(r, j) >= 0.0
    }

    /** Matched pairs have no slack. */
    ghost predicate Tight()
      requires Sized()
    {
      forall j :: 1 <= j <= m ==> Slack(p[j], j) == 0.0
    }

    /** Column potentials are never positive, and zero on unmatched columns. */
    ghost predicate Signs()
      requires Sized()
    {
      forall j :: 1 <= j <= m ==> v[j] <= 0.0 && (p[j] == 0 ==> v[j] == 0.0)
    }

    /** t lists the columns of the tree: each was entered from an earlier one over a tight edge. */
    ghost predicate Tree(t: seq<nat>)
      requires Sized()
    {
      && |t| > 0 && t[0] == 0
      && Different(t)
      && (forall k :: 0 <= k < |t| ==> t[k] <= m && p[t[k]] != 0)
      && (forall k :: 1 <= k < |t| ==> Entered(t[..k], t[k]))
    }

    /** Column j was entered over a tight edge from a column of t. */
    ghost predicate Entered(t: seq<nat>, j: nat)
      requires Sized()
    {
      j <= m && way[j] in t && way[j] <= m && Slack(p[way[j]], j) == 0.0
    }

    /** d is the smallest slack of column j in the rows of the tree t, found at column way[j]. */
    ghost predicate Nearest(t: seq<nat>, j: nat, d: real)
      requires Sized()
    {
      && j <= m
      && (forall r :: r in TreeRows(p, t) ==> d <= Slack(r, j))
      && way[j] in t && way[j] <= m && d == Slack(p[way[j]], j)
    }

    /** Between two rounds of the search for a place for row i, with tree t. */
    ghost predicate Searching(t: seq<nat>, i: nat) {
      && Sized() && 1 <= i <= n <= m
      && p[0] == i && Assigned(p, i) && Tight() && Signs() && Tree(t)
      && Below(if |t| == 1 then i - 1 else i)
    }

    /** Every column outside the tree t knows its nearest row of the tree s; none is negative if later. */
    ghost predicate Distances(minv: seq<Dist>, t: seq<nat>, s: seq<nat>, later: bool)
      requires Sized()
    {
      && |minv| == m + 1
      && forall j :: 1 <= j <= m && j !in t ==>
           && minv[j].Fin? && (later ==> minv[j].value >= 0.0)
           && Nearest(s, j, minv[j].value)
    }
  }

  ghost predicate Different(t: seq<nat>) {
    forall a, b :: 0 <= a < b < |t| ==> t[a] != t[b]
  }

  /** The rows 1 to k are the rows in p, each once. */
  ghost predicate Assigned(p: seq<nat>, k: nat) {
    && (forall j :: 0 <= j < |p| ==> p[j] <= k)
    && (forall i, j :: 0 <= i < j < |p| && p[i] != 0 ==> p[i] != p[j])
    && (forall r: nat :: 1 <= r <= k ==> r in p)
  }

  ghost function TreeRows(p: seq<nat>, t: seq<nat>): (s: set<nat>)
    ensures forall j :: j in t && j < |p| ==> p[j] in s
    ensures forall r :: r in s ==> exists j :: j in t && j < |p| && p[j] == r
  {
    set j | j in t && j < |p| :: p[j]
  }

  // ---------------------------------------------------------------- shifting the potentials

  ghost predicate Shifted(s: State, t: seq<nat>, delta: real, s': State)
    requires s.Sized()
  {
    && s' == s.(u := s'.u, v := s'.v) && s'.Sized()
    && (forall r :: 1 <= r <= s.n ==> s'.u[r] == s.u[r] + if r in TreeRows(s.p, t) then delta else 0.0)
    && (forall j :: 1 <= j <= s.m ==> s'.v[j] == s.v[j] - if j in t then delta else 0.0)
  }

  lemma ShiftSlack(s: State, t: seq<nat>, delta: real, s': State, r: nat, j: nat)
    requires s.Sized() && Shifted(s, t, delta, s') && 1 <= r <= s.n && 1 <= j <= s.m
    ensures s'.Slack(r, j) ==
              s.Slack(r, j) - (if r in TreeRows(s.p, t) then delta else 0.0) + (if j in t then delta else 0.0)
  {
  }

  /** A matched pair is in the tree with both ends or with neither. */
  lemma BothOrNeither(p: seq<nat>, t: seq<nat>, i: nat, j: nat)
    requires Assigned(p, i) && j < |p| && p[j] != 0
    ensures p[j] in TreeRows(p, t) <==> j in t
  {
    if p[j] in TreeRows(p, t) {
      var b :| b in t && b < |p| && p[b] == p[j];
      assert b == j;
    }
  }

  lemma ShiftedSame(s: State, t: seq<nat>, delta: real, s': State)
    requires s.Sized() && Shifted(s, t, delta, s')
    ensures s'.Sized() && s'.p == s.p && s'.way == s.way && s'.n == s.n && s'.m == s.m && s'.cost == s.cost
  {
  }

  lemma MatchedSlack(s: State, t: seq<nat>, i: nat, delta: real, s': State, j: nat)
    requires s.Searching(t, i) && Shifted(s, t, delta, s') && 1 <= j <= s.m
    ensures s'.Slack(s.p[j], j) == 0.0
  {
    hide State.Tree, State.Below, State.Signs;
    if s.p[j] != 0 {
      BothOrNeither(s.p, t, i, j);
      ShiftSlack(s, t, delta, s', s.p[j], j);
      assert s.Slack(s.p[j], j) == 0.0;
    }
  }

  lemma ShiftTight(s: State, t: seq<nat>, i: nat, delta: real, s': State)
    requires s.Searching(t, i) && Shifted(s, t, delta, s')
    ensures s'.Tight()
  {
    hide Shifted, State.Slack, State.Tree, State.Below, State.Signs, Assigned;
    ShiftedSame(s, t, delta, s');
    forall j | 1 <= j <= s.m
      ensures s'.Slack(s.p[j], j) == 0.0
    {
      MatchedSlack(s, t, i, delta, s', j);
    }
  }

  lemma ShiftEntered(s: State, t: seq<nat>, delta: real, s': State, t0: seq<nat>, j: nat)
    requires s.Sized() && Shifted(s, t, delta, s')
    requires 1 <= j && j in t && s.Entered(t0, j) && (forall c :: c in t0 ==> c in t)
    requires 1 <= s.p[s.way[j]] <= s.n
    ensures s'.Entered(t0, j)
  {
    ShiftSlack(s, t, delta, s', s.p[s.way[j]], j);
  }

  lemma ShiftTree(s: State, t: seq<nat>, i: nat, delta: real, s': State)
    requires s.Searching(t, i) && Shifted(s, t, delta, s')
    ensures s'.Sized() && s'.Tree(t)
  {
    hide Shifted, State.Slack, State.Below, State.Signs, State.Tight;
    ShiftedSame(s, t, delta, s');
    forall k | 1 <= k < |t|
      ensures s'.Entered(t[..k], t[k])
    {
      assert s.Entered(t[..k], t[k]);
      var w := s.way[t[k]];
      var b :| 0 <= b < k && t[b] == w;
      assert s.p[w] != 0 && s.p[w] <= i;
      assert t[k] in t && t[k] != t[0];
      ShiftEntered(s, t, delta, s', t[..k], t[k]);
    }
  }

  lemma ShiftRow(s: State, minv: seq<Dist>, t: seq<nat>, i: nat, delta: real, s': State, r: nat, j: nat)
    requires s.Searching(t, i) && Shifted(s, t, delta, s') && s.Distances(minv, t, t, |t| > 1)
    requires |t| > 1 ==> delta >= 0.0
    requires forall j :: 1 <= j <= s.m && j !in t ==> delta <= minv[j].value
    requires 1 <= r <= i && 1 <= j <= s.m
    ensures s'.Slack(r, j) >= 0.0
  {
    hide Shifted, State.Slack, State.Signs, State.Tight, Assigned;
    ShiftSlack(s, t, delta, s', r, j);
    assert t[0] in t && s.p[t[0]] == i && i in TreeRows(s.p, t);
    assert j in t ==> |t| > 1;
    if r in TreeRows(s.p, t) && j !in t {
      assert s.Nearest(t, j, minv[j].value);
    } else {
      assert s.Slack(r, j) >= 0.0;
    }
  }

  lemma ShiftNearest(s: State, t: seq<nat>, delta: real, s': State, j: nat, d: real)
    requires s.Sized() && Shifted(s, t, delta, s') && s.Tree(t) && (forall c :: 0 <= c <= s.m ==> s.p[c] <= s.n)
    requires 1 <= j <= s.m && j !in t && s.Nearest(t, j, d)
    ensures s'.Nearest(t, j, d - delta)
  {
    hide State.Slack, State.Tree, TreeRows, Shifted;
    ShiftedSame(s, t, delta, s');
    forall r | r in TreeRows(s.p, t)
      ensures d - delta <= s'.Slack(r, j)
    {
      RowInTree(s, t, r);
      ShiftSlack(s, t, delta, s', r, j);
    }
    RowInTree(s, t, s.p[s.way[j]]);
    ShiftSlack(s, t, delta, s', s.p[s.way[j]], j);
  }

  lemma RowInTree(s: State, t: seq<nat>, r: nat)
    requires s.Sized() && s.Tree(t) && (forall c :: 0 <= c <= s.m ==> s.p[c] <= s.n) && r in TreeRows(s.p, t)
    ensures 1 <= r <= s.n
  {
    hide State.Slack, State.Entered;
    var c :| c in t && c < |s.p| && s.p[c] == r;
    var k :| 0 <= k < |t| && t[k] == c;
  }

  lemma ShiftSigns(s: State, t: seq<nat>, i: nat, delta: real, s': State)
    requires s.Searching(t, i) && Shifted(s, t, delta, s') && (|t| > 1 ==> delta >= 0.0)
    ensures s'.Sized() && s'.Signs()
  {
    hide State.Below, State.Tight, Assigned;
    forall j | 1 <= j <= s.m
      ensures s'.v[j] <= 0.0 && (s.p[j] == 0 ==> s'.v[j] == 0.0)
    {
      if j in t {
        var k :| 0 <= k < |t| && t[k] == j;
        assert k > 0 && s.p[t[k]] != 0;
      }
    }
  }

  /** One round of potentials: feasible and tight as before, the tree unchanged, the rest closer by delta. */
  lemma Shift(s: State, minv: seq<Dist>, t: seq<nat>, i: nat, delta: real, s': State, minv': seq<Dist>)
    requires s.Searching(t, i) && Shifted(s, t, delta, s') && s.Distances(minv, t, t, |t| > 1)
    requires |t| > 1 ==> delta >= 0.0
    requires forall j :: 1 <= j <= s.m && j !in t ==> delta <= minv[j].value
    requires |minv'| == s.m + 1
    requires forall j :: 1 <= j <= s.m && j !in t ==> minv'[j] == Fin(minv[j].value - delta)
    ensures s'.Sized() && s'.Tight() && s'.Signs() && s'.Tree(t) && s'.Below(i)
    ensures s'.Distances(minv', t, t, true)
  {
    hide Shifted, State.Slack, State.Tight, State.Signs, State.Tree, State.Nearest;
    ShiftedSame(s, t, delta, s');
    ShiftTight(s, t, i, delta, s');
    ShiftTree(s, t, i, delta, s');
    ShiftSigns(s, t, i, delta, s');
    forall r: nat, j: nat | 1 <= r <= i && 1 <= j <= s.m
      ensures s'.Slack(r, j) >= 0.0
    {
      ShiftRow(s, minv, t, i, delta, s', r, j);
    }
    forall j | 1 <= j <= s.m && j !in t
      ensures s'.Nearest(t, j, minv'[j].value)
    {
      ShiftNearest(s, t, delta, s', j, minv[j].value);
    }
  }

  /** The nearest column outside, now at distance zero and matched, joins the tree. */
  lemma Grow(s: State, t: seq<nat>, j: nat)
    requires s.Sized() && s.Tree(t)
    requires 1 <= j <= s.m && j !in t && s.p[j] != 0 && s.Nearest(t, j, 0.0)
    ensures s.Tree(t + [j])
  {
    var t' := t + [j];
    forall k | 1 <= k < |t'|
      ensures s.Entered(t'[..k], t'[k])
    {
      if k < |t| {
        assert t'[..k] == t[..k];
        assert s.Entered(t[..k], t[k]);
      } else {
        assert t'[..k] == t;
      }
    }
  }

  // ---------------------------------------------------------------- looking at the columns

  /** What one pass over the columns outside the tree does, seen from the newest tree column j0. */
  ghost predicate Looked(s: State, minv: seq<Dist>, used: seq<bool>, j0: nat, way': seq<nat>, minv': seq<Dist>)
    requires s.Sized() && j0 <= s.m
  {
    && |minv| == |minv'| == |way'| == |used| == s.m + 1
    && forall j :: 1 <= j <= s.m ==>
         if used[j] then way'[j] == s.way[j] && minv'[j] == minv[j]
         else
           var cur := s.Slack(s.p[j0], j);
           if minv[j].Inf? || cur < minv[j].value then way'[j] == j0 && minv'[j] == Fin(cur)
           else way'[j] == s.way[j] && minv'[j] == minv[j]
  }

  lemma LookNearest(s: State, minv: seq<Dist>, used: seq<bool>, t0: seq<nat>, j0: nat, s': State,
                    minv': seq<Dist>, i: nat, j: nat)
    requires s.Sized() && s' == s.(way := s'.way) && s'.Sized()
    requires j0 <= s.m && Looked(s, minv, used, j0, s'.way, minv')
    requires 1 <= j <= s.m && !used[j]
    requires if t0 == [] then minv[j] == Inf else minv[j].Fin? && s.Nearest(t0, j, minv[j].value)
    ensures minv'[j].Fin? && s'.Nearest(t0 + [j0], j, minv'[j].value)
  {
    var t := t0 + [j0];
    forall r | r in TreeRows(s.p, t)
      ensures minv'[j].value <= s'.Slack(r, j)
    {
      var c :| c in t && c < |s.p| && s.p[c] == r;
      if c in t0 {
        assert r in TreeRows(s.p, t0);
      }
    }
  }

  /** The used columns are those of the tree before its newest one. */
  ghost predicate Marked(used: seq<bool>, t: seq<nat>, m: nat) {
    |used| == m + 1 && forall j :: 0 <= j <= m ==> (used[j] <==> j in t)
  }

  lemma SameSlack(s: State, s': State, r: nat, j: nat)
    requires s.Sized() && s' == s.(way := s'.way) && s'.Sized()
    ensures s'.Slack(r, j) == s.Slack(r, j)
  {
  }

  lemma SameRest(s: State, s': State, k: nat)
    requires s.Sized() && s' == s.(way := s'.way) && s'.Sized()
    requires s.Tight() && s.Signs() && s.Below(k)
    ensures s'.Tight() && s'.Signs() && s'.Below(k)
  {
    forall r: nat, j: nat | 1 <= r <= k && 1 <= j <= s.m ensures s'.Slack(r, j) >= 0.0 {
      SameSlack(s, s', r, j);
    }
  }

  lemma LookTree(s: State, t: seq<nat>, i: nat, s': State)
    requires s.Searching(t, i) && s' == s.(way := s'.way) && s'.Sized()
    requires forall j :: 1 <= j <= s.m && j in t ==> s'.way[j] == s.way[j]
    ensures s'.Searching(t, i)
  {
    hide State.Slack, State.Tight, State.Signs, State.Below, Assigned;
    forall k | 1 <= k < |t| ensures s'.Entered(t[..k], t[k]) {
      assert s.Entered(t[..k], t[k]);
      assert t[k] in t && t[k] != t[0];
      SameSlack(s, s', s.p[s.way[t[k]]], t[k]);
    }
    SameRest(s, s', if |t| == 1 then i - 1 else i);
  }

  /** A pass over the columns: all distances known afterwards, now to the whole tree. */
  lemma Look(s: State, minv: seq<Dist>, used: seq<bool>, t: seq<nat>, i: nat, s': State, minv': seq<Dist>)
    requires s.Searching(t, i) && Marked(used, t, s.m)
    requires s' == s.(way := s'.way) && s'.Sized() && t[|t| - 1] <= s.m
    requires Looked(s, minv, used, t[|t| - 1], s'.way, minv')
    requires if |t| == 1 then forall j :: 1 <= j <= s.m ==> minv[j] == Inf
             else s.Distances(minv, t, t[..|t| - 1], true)
    ensures s'.Searching(t, i) && s'.Distances(minv', t, t, |t| > 1)
  {
    hide State.Slack, State.Nearest, State.Tight, State.Signs, State.Tree;
    LookTree(s, t, i, s');
    forall j | 1 <= j <= s.m && j !in t
      ensures minv'[j].Fin? && s'.Nearest(t, j, minv'[j].value)
      ensures |t| > 1 ==> minv'[j].value >= 0.0
    {
      LookColumn(s, minv, used, t, i, s', minv', j);
    }
  }

  lemma LookColumn(s: State, minv: seq<Dist>, used: seq<bool>, t: seq<nat>, i: nat, s': State, minv': seq<Dist>, j: nat)
    requires s.Searching(t, i) && Marked(used, t, s.m)
    requires s' == s.(way := s'.way) && s'.Sized() && t[|t| - 1] <= s.m
    requires Looked(s, minv, used, t[|t| - 1], s'.way, minv')
    requires if |t| == 1 then forall j :: 1 <= j <= s.m ==> minv[j] == Inf
             else s.Distances(minv, t, t[..|t| - 1], true)
    requires 1 <= j <= s.m && j !in t
    ensures minv'[j].Fin? && s'.Nearest(t, j, minv'[j].value)
    ensures |t| > 1 ==> minv'[j].value >= 0.0
  {
    hide State.Tight, State.Signs, State.Nearest, State.Slack, Assigned, TreeRows;
    var j0 := t[|t| - 1];
    var t0 := t[..|t| - 1];
    assert t == t0 + [j0];
    LookNearest(s, minv, used, t0, j0, s', minv', i, j);
    if |t| > 1 {
      NewestRow(s, t, i, j);
    }
  }

  lemma NewestRow(s: State, t: seq<nat>, i: nat, j: nat)
    requires s.Searching(t, i) && |t| > 1 && 1 <= j <= s.m && t[|t| - 1] <= s.m
    ensures s.Slack(s.p[t[|t| - 1]], j) >= 0.0
  {
    hide State.Tight, State.Signs;
    assert 1 <= s.p[t[|t| - 1]] <= i;
  }

  // ---------------------------------------------------------------- a free column exists

  lemma {:induction false} DifferentSize(c: seq<nat>, k: nat)
    requires Different(c) && forall i :: 0 <= i < |c| ==> c[i] < k
    ensures |c| <= k
  {
    var s := set j | 0 <= j < |c| :: c[j];
    ElementCount(c, s);
    RangeSize(k);
    assert s <= Range(k);
    Sorting.SubsetSize(s, Range(k));
  }

  lemma {:induction false} ElementCount(c: seq<nat>, s: set<nat>)
    requires Different(c) && s == set j | 0 <= j < |c| :: c[j]
    ensures |s| == |c|
  {
    if c == [] {
      assert s == {};
    } else {
      var rest := c[..|c| - 1];
      var s0 := set j | 0 <= j < |rest| :: rest[j];
      ElementCount(rest, s0);
      assert s == s0 + {c[|c| - 1]} && c[|c| - 1] !in s0;
    }
  }

  /** With at most as many rows as columns, some column is still unmatched. */
  lemma FreeColumn(s: State, t: seq<nat>, i: nat) returns (j: nat)
    requires s.Searching(t, i)
    ensures 1 <= j <= s.m && s.p[j] == 0 && j !in t
  {
    if forall j :: 1 <= j <= s.m ==> s.p[j] != 0 {
      var c := s.p[1..];
      assert forall a :: 0 <= a < |c| ==> c[a] == s.p[a + 1] && c[a] != s.p[0];
      DifferentSize(c, i);
      assert forall a :: 0 <= a < |c| ==> 1 <= c[a] < i;
      var d := seq(|c|, a requires 0 <= a < |c| => (c[a] - 1) as nat);
      assert forall a :: 0 <= a < |d| ==> d[a] == c[a] - 1;
      DifferentSize(d, i - 1);
      assert false;
    }
    j :| 1 <= j <= s.m && s.p[j] == 0;
    assert forall k :: 0 <= k < |t| ==> s.p[t[k]] != 0;
  }

  // ---------------------------------------------------------------- flipping the path

  /** c is a tree whose last column need not be matched. */
  ghost predicate Chain(s: State, c: seq<nat>)
    requires s.Sized()
  {
    && |c| > 0 && c[0] == 0 && Different(c)
    && (forall k :: 0 <= k < |c| ==> c[k] <= s.m)
    && (forall k :: 0 <= k < |c| - 1 ==> s.p[c[k]] != 0)
    && (forall k :: 1 <= k < |c| ==> s.Entered(c[..k], c[k]))
  }

  /** Column c[k] is the hole; everything else is a matching of the rows 1 to i with no slack. */
  ghost predicate Hole(s: State, c: seq<nat>, p: seq<nat>, k: nat, i: nat)
    requires s.Sized() && Chain(s, c)
  {
    && k < |c| && |p| == s.m + 1
    && Assigned(p[c[k] := 0], i)
    && (forall j :: 1 <= j <= s.m && j != c[k] ==> s.Slack(p[j], j) == 0.0 && (p[j] == 0 ==> s.v[j] == 0.0))
    && (forall b :: 0 <= b < k ==> p[c[b]] == s.p[c[b]])
  }

  lemma {:induction false} SwappedAssigned(a: seq<nat>, b: seq<nat>, x: nat, y: nat, i: nat)
    requires Assigned(a, i) && |a| == |b| && x < |a| && y < |a|
    requires b == a[x := a[y]][y := a[x]]
    ensures Assigned(b, i)
  {
    forall r: nat | 1 <= r <= i ensures r in b {
      assert r in a;
      var j :| 0 <= j < |a| && a[j] == r;
      assert b[if j == x then y else if j == y then x else j] == r;
    }
  }

  lemma Flip(s: State, c: seq<nat>, p: seq<nat>, k: nat, i: nat) returns (b: nat)
    requires s.Sized() && Chain(s, c) && Hole(s, c, p, k, i) && k > 0
    ensures b < k && s.way[c[k]] == c[b]
    ensures Hole(s, c, p[c[k] := p[c[b]]], b, i)
  {
    hide State.Slack, Assigned;
    assert s.Entered(c[..k], c[k]);
    b :| 0 <= b < k && c[b] == s.way[c[k]];
    var p' := p[c[k] := p[c[b]]];
    var x, y := c[k], c[b];
    assert x != y;
    MovedHole(p, x, y);
    SwappedAssigned(p[x := 0], p'[y := 0], x, y, i);
    assert p[y] == s.p[y] && s.p[y] != 0;
    assert s.Slack(p'[x], x) == 0.0;
  }

  /** Moving the entry of y to x and leaving a hole at y swaps the two in the list with the hole at x. */
  lemma MovedHole(p: seq<nat>, x: nat, y: nat)
    requires x < |p| && y < |p| && x != y
    ensures p[x := p[y]][y := 0] == p[x := 0][x := p[x := 0][y]][y := p[x := 0][x]]
  {
  }

  // ---------------------------------------------------------------- between two rows

  /** Rows 1 to i are matched without slack, no slack up to row i is negative. */
  ghost predicate Placed(s: State, i: nat) {
    && s.Sized() && i <= s.n <= s.m
    && Assigned(s.p[0 := 0], i) && s.Tight() && s.Signs() && s.Below(i)
  }

  lemma BeginRow(s: State, i: nat)
    requires Placed(s, i) && i < s.n
    ensures s.(p := s.p[0 := i + 1]).Searching([0], i + 1)
  {
    var s' := s.(p := s.p[0 := i + 1]);
    var q := s.p[0 := 0];
    forall r: nat | 1 <= r <= i + 1 ensures r in s'.p {
      if r <= i {
        assert r in q;
        var j :| 0 <= j < |q| && q[j] == r;
        assert s'.p[j] == r;
      } else {
        assert s'.p[0] == r;
      }
    }
    assert forall j :: 1 <= j < |q| ==> s'.p[j] == q[j];
    assert Assigned(s'.p, i + 1);
    forall r: nat, j: nat | 1 <= r <= i && 1 <= j <= s.m ensures s'.Slack(r, j) >= 0.0 {
      assert s.Slack(r, j) >= 0.0;
    }
    forall j | 1 <= j <= s.m ensures s'.Slack(s'.p[j], j) == 0.0 {
      assert s.Slack(s.p[j], j) == 0.0;
    }
    assert s'.Tree([0]);
  }

  lemma BeginFlip(s: State, t: seq<nat>, j: nat, i: nat)
    requires s.Sized() && s.Tight() && s.Signs() && s.Tree(t) && Assigned(s.p, i)
    requires 1 <= j <= s.m && j !in t && s.p[j] == 0 && s.Nearest(t, j, 0.0)
    ensures Chain(s, t + [j]) && Hole(s, t + [j], s.p, |t|, i)
  {
    hide State.Slack;
    var c := t + [j];
    forall k | 1 <= k < |c|
      ensures s.Entered(c[..k], c[k])
    {
      if k < |t| {
        assert c[..k] == t[..k];
        assert s.Entered(t[..k], t[k]);
      } else {
        assert c[..k] == t;
      }
    }
    assert s.p[j := 0] == s.p;
  }

  lemma EndFlip(s: State, c: seq<nat>, p: seq<nat>, i: nat)
    requires s.Sized() && i <= s.n <= s.m && s.Below(i) && s.Signs()
    requires Chain(s, c) && Hole(s, c, p, 0, i)
    ensures Placed(s.(p := p), i)
  {
    var s' := s.(p := p);
    forall r: nat, j: nat | 1 <= r <= i && 1 <= j <= s.m ensures s'.Slack(r, j) >= 0.0 {
      assert s.Slack(r, j) >= 0.0;
    }
    forall j | 1 <= j <= s.m ensures s'.Slack(s'.p[j], j) == 0.0 {
      assert s.Slack(p[j], j) == 0.0;
    }
  }

  // ---------------------------------------------------------------- reading off the result

  /** The matched pairs from column j on, counted from 0. */
  function Matched(p: seq<nat>, j: nat): Pairs
    requires 1 <= j
    decreases |p| - j
  {
    if j >= |p| then []
    else if p[j] == 0 then Matched(p, j + 1)
    else [(p[j] - 1, j - 1)] + Matched(p, j + 1)
  }

  lemma {:induction false} MatchedMembers(p: seq<nat>, j: nat, y: (nat, nat))
    requires 1 <= j
    ensures y in Matched(p, j) <==> j <= y.1 + 1 < |p| && p[y.1 + 1] == y.0 + 1
    decreases |p| - j
  {
    if j < |p| {
      MatchedMembers(p, j + 1, y);
    }
  }

  lemma {:induction false} MatchedSpread(p: seq<nat>, j: nat, n: nat)
    requires 1 <= j && |p| > 0 && Assigned(p[0 := 0], n)
    ensures Spread(Matched(p, j), n, |p| - 1)
    decreases |p| - j
  {
    if j < |p| {
      MatchedSpread(p, j + 1, n);
      if p[j] != 0 {
        var q := p[0 := 0];
        assert q[j] == p[j] <= n;
        forall y | y in Matched(p, j + 1)
          ensures y.0 != p[j] - 1 && y.1 != j - 1
        {
          MatchedMembers(p, j + 1, y);
          assert q[y.1 + 1] == p[y.1 + 1];
        }
        assert Matched(p, j)[1..] == Matched(p, j + 1);
      }
    }
  }

  lemma MatchedRow(p: seq<nat>, n: nat, r: nat)
    requires |p| > 0 && Assigned(p[0 := 0], n) && r < n
    ensures r in RowsOf(Matched(p, 1))
  {
    hide Matched;
    var q := Matched(p, 1);
    var p0 := p[0 := 0];
    assert r + 1 in p0;
    var j :| 0 <= j < |p0| && p0[j] == r + 1;
    MatchedMembers(p, 1, (r, j - 1));
    var k :| 0 <= k < |q| && q[k] == (r, j - 1);
    assert q[k].0 == r;
  }

  lemma AllMatched(s: State)
    requires Placed(s, s.n)
    ensures Spread(Matched(s.p, 1), s.n, s.m) && |Matched(s.p, 1)| == s.n
  {
    hide State.Slack, State.Tight, State.Below, State.Signs, Assigned, Matched, Spread;
    var q := Matched(s.p, 1);
    MatchedSpread(s.p, 1, s.n);
    SpreadIsInjective(q, s.n, s.m);
    forall r: nat | r < s.n ensures r in RowsOf(q) {
      MatchedRow(s.p, s.n, r);
    }
    assert RowsOf(q) == Range(s.n);
    RowCount(q, s.n, s.m);
    RangeSize(s.n);
  }

  lemma MatchedColumn(p: seq<nat>, c: nat)
    requires c + 1 < |p| && p[c + 1] != 0
    ensures c in ColsOf(Matched(p, 1))
  {
    var q := Matched(p, 1);
    MatchedMembers(p, 1, (p[c + 1] - 1, c));
    var k :| 0 <= k < |q| && q[k] == (p[c + 1] - 1, c);
    assert q[k].1 == c;
  }

  /** Once all rows are placed, the potentials certify the matching. */
  lemma Certified(s: State)
    requires Placed(s, s.n)
    ensures Spread(Matched(s.p, 1), s.n, s.m)
    ensures Certificate(s.cost, s.u[1..], s.v[1..], Matched(s.p, 1))
  {
    hide Assigned, Matched, Spread, State.Tight, State.Below, State.Signs, Feasible;
    var q := Matched(s.p, 1);
    AllMatched(s);
    SpreadIsInjective(q, s.n, s.m);
    CertifiedFeasible(s);
    CertifiedTight(s, q);
    CertifiedFree(s, q);
  }

  lemma CertifiedFeasible(s: State)
    requires Placed(s, s.n)
    ensures Rectangular(s.cost, |s.u[1..]|, |s.v[1..]|) && Feasible(s.cost, s.u[1..], s.v[1..])
  {
    hide Assigned, State.Tight, State.Signs;
    var a, b := s.u[1..], s.v[1..];
    forall r, c | 0 <= r < |a| && 0 <= c < |b| ensures a[r] + b[c] <= s.cost[r][c] {
      assert s.Slack(r + 1, c + 1) >= 0.0;
    }
  }

  lemma CertifiedTight(s: State, q: Pairs)
    requires Placed(s, s.n) && q == Matched(s.p, 1) && Injective(q, s.n, s.m)
    ensures forall k :: 0 <= k < |q| ==> s.cost[q[k].0][q[k].1] == s.u[1..][q[k].0] + s.v[1..][q[k].1]
  {
    hide Assigned, State.Below, State.Signs, Matched;
    forall k | 0 <= k < |q| ensures s.cost[q[k].0][q[k].1] == s.u[1..][q[k].0] + s.v[1..][q[k].1] {
      MatchedMembers(s.p, 1, q[k]);
      assert s.Slack(s.p[q[k].1 + 1], q[k].1 + 1) == 0.0;
    }
  }

  lemma CertifiedFree(s: State, q: Pairs)
    requires Placed(s, s.n) && q == Matched(s.p, 1)
    ensures forall c :: 0 <= c < |s.v[1..]| ==> s.v[1..][c] <= 0.0
    ensures forall c :: 0 <= c < |s.v[1..]| && c !in ColsOf(q) ==> s.v[1..][c] == 0.0
  {
    hide Assigned, State.Below, State.Tight, Matched, ColsOf;
    forall c | 0 <= c < |s.v[1..]| && c !in ColsOf(q) ensures s.v[1..][c] == 0.0 {
      if s.p[c + 1] != 0 {
        MatchedColumn(s.p, c);
      }
    }
  }
}
