/** The Kuhn-Munkres algorithm with potentials, and the exhaustive search it must agree with. */
module Hungarian {
  import opened Assignment
  import opened HungarianInvariant

  predicate Closer(a: real, b: Dist) {
    b.Inf? || a < b.value
  }

  /** One pass over the columns that are not in use: distances from row i0, and the nearest column. */
  method LookAtColumns(cost: Matrix, n: nat, m: nat, u: seq<real>, v: seq<real>, ghost p: seq<nat>, i0: nat, j0: nat,
                       used: seq<bool>, minv0: seq<Dist>, way0: seq<nat>)
    returns (minv: seq<Dist>, way: seq<nat>, delta: Dist, j1: nat)
    requires State(cost, n, m, u, v, p, way0).Sized() && |used| == m + 1 && |minv0| == m + 1
    requires 1 <= i0 <= n && j0 <= m && p[j0] == i0
    ensures Looked(State(cost, n, m, u, v, p, way0), minv0, used, j0, way, minv)
    ensures j1 <= m && (j1 == 0 <==> forall j :: 1 <= j <= m ==> used[j])
    ensures j1 != 0 ==> !used[j1] && delta.Fin? && delta == minv[j1]
    ensures forall j :: 1 <= j <= m && !used[j] ==> minv[j].Fin? && delta.Fin? && delta.value <= minv[j].value
  {
    minv, way, delta, j1 := minv0, way0, Inf, 0;
    ghost var s := State(cost, n, m, u, v, p, way0);
    for j := 1 to m + 1
      invariant |minv| == m + 1 && |way| == m + 1
      invariant forall b :: j <= b <= m ==> minv[b] == minv0[b] && way[b] == way0[b]
      invariant forall b :: 1 <= b < j ==>
                  if used[b] then way[b] == way0[b] && minv[b] == minv0[b]
                  else if Closer(s.Slack(i0, b), minv0[b]) then way[b] == j0 && minv[b] == Fin(s.Slack(i0, b))
                  else way[b] == way0[b] && minv[b] == minv0[b]
      invariant j1 < j && (j1 == 0 <==> forall b :: 1 <= b < j ==> used[b])
      invariant j1 != 0 ==> !used[j1] && delta.Fin? && delta == minv[j1]
      invariant j1 == 0 ==> delta == Inf
      invariant forall b :: 1 <= b < j && !used[b] ==> minv[b].Fin? && delta.Fin? && delta.value <= minv[b].value
    {
      if !used[j] {
        var cur := cost[i0 - 1][j - 1] - u[i0] - v[j];
        if Closer(cur, minv[j]) {
          minv := minv[j := Fin(cur)];
          way := way[j := j0];
        }
        if Closer(minv[j].value, delta) {
          delta := minv[j];
          j1 := j;
        }
      }
    }
  }

  /** Raises the rows of the used columns by delta, lowers those columns, brings the others closer. */
  method ShiftPotentials(s: State, used: seq<bool>, minv0: seq<Dist>, delta: real, ghost t: seq<nat>, ghost i: nat)
    returns (u: seq<real>, v: seq<real>, minv: seq<Dist>)
    requires s.Searching(t, i) && Marked(used, t, s.m)
    requires |minv0| == s.m + 1 && forall j :: 1 <= j <= s.m && j !in t ==> minv0[j].Fin?
    ensures Shifted(s, t, delta, s.(u := u, v := v))
    ensures |minv| == s.m + 1
    ensures forall j :: 1 <= j <= s.m && j !in t ==> minv[j] == Fin(minv0[j].value - delta)
  {
    hide State.Searching, RaisedBy, ShiftedTo, Shifted;
    u, v, minv := s.u, s.v, minv0;
    ShiftStarts(s, t, i, minv0, delta);
    for j := 0 to s.m + 1
      invariant ShiftedTo(s, t, minv0, delta, j, u, v, minv)
    {
      ShiftSized(s, t, i, minv0, delta, j, u, v, minv);
      if used[j] {
        ShiftUsed(s, t, i, minv0, delta, j, u, v, minv);
        u := u[s.p[j] := u[s.p[j]] + delta];
        v := v[j := v[j] - delta];
      } else {
        ShiftUnused(s, t, minv0, delta, j, u, v, minv);
        if j != 0 {
          minv := minv[j := Fin(minv[j].value - delta)];
        }
      }
    }
    ShiftEnds(s, t, i, minv0, delta, u, v, minv);
  }

  /** The columns before j have been shifted. */
  ghost predicate ShiftedTo(s: State, t: seq<nat>, minv0: seq<Dist>, delta: real, j: nat, u: seq<real>, v: seq<real>,
                            minv: seq<Dist>)
  {
    && s.Sized() && |u| == |s.u| && |v| == |s.v| && |minv| == |minv0| == s.m + 1
    && (forall r :: 1 <= r <= s.n ==> u[r] == s.u[r] + if RaisedBy(s.p, t, j, r) then delta else 0.0)
    && (forall b :: 1 <= b <= s.m ==> v[b] == s.v[b] - if b in t && b < j then delta else 0.0)
    && (forall b :: 1 <= b <= s.m && b !in t ==>
          minv0[b].Fin? && minv[b] == if b < j then Fin(minv0[b].value - delta) else minv0[b])
  }

  lemma ShiftStarts(s: State, t: seq<nat>, i: nat, minv0: seq<Dist>, delta: real)
    requires s.Searching(t, i) && |minv0| == s.m + 1 && forall j :: 1 <= j <= s.m && j !in t ==> minv0[j].Fin?
    ensures ShiftedTo(s, t, minv0, delta, 0, s.u, s.v, minv0)
  {
    hide State.Tree, State.Tight, State.Signs, State.Below;
  }

  lemma ShiftSized(s: State, t: seq<nat>, i: nat, minv0: seq<Dist>, delta: real, j: nat, u: seq<real>, v: seq<real>,
                  minv: seq<Dist>)
    requires s.Searching(t, i) && ShiftedTo(s, t, minv0, delta, j, u, v, minv) && j <= s.m
    ensures j < |s.p| && s.p[j] < |u| && j < |v| && |minv| == s.m + 1 && (j !in t && j != 0 ==> minv[j].Fin?)
  {
    hide State.Tree, State.Tight, State.Signs, State.Below, RaisedBy;
  }

  lemma ShiftUsed(s: State, t: seq<nat>, i: nat, minv0: seq<Dist>, delta: real, j: nat, u: seq<real>, v: seq<real>,
                  minv: seq<Dist>)
    requires s.Searching(t, i) && ShiftedTo(s, t, minv0, delta, j, u, v, minv) && j <= s.m && j in t
    requires j < |s.p| && s.p[j] < |u| && j < |v|
    ensures ShiftedTo(s, t, minv0, delta, j + 1, u[s.p[j] := u[s.p[j]] + delta], v[j := v[j] - delta], minv)
  {
    AssignedOf(s, t, i);
    hide State.Searching, RaisedBy;
    RaiseOne(s.p, t, i, j);
  }

  lemma AssignedOf(s: State, t: seq<nat>, i: nat)
    requires s.Searching(t, i)
    ensures Assigned(s.p, i)
  {
  }

  lemma ShiftUnused(s: State, t: seq<nat>, minv0: seq<Dist>, delta: real, j: nat, u: seq<real>, v: seq<real>, minv: seq<Dist>)
    requires ShiftedTo(s, t, minv0, delta, j, u, v, minv) && j <= s.m && j !in t
    ensures ShiftedTo(s, t, minv0, delta, j + 1, u, v, if j != 0 then minv[j := Fin(minv[j].value - delta)] else minv)
  {
    RaiseNone(s.p, t, j);
    hide RaisedBy;
  }

  lemma ShiftEnds(s: State, t: seq<nat>, i: nat, minv0: seq<Dist>, delta: real, u: seq<real>, v: seq<real>, minv: seq<Dist>)
    requires s.Searching(t, i) && ShiftedTo(s, t, minv0, delta, s.m + 1, u, v, minv)
    ensures Shifted(s, t, delta, s.(u := u, v := v)) && |minv| == s.m + 1
    ensures forall j :: 1 <= j <= s.m && j !in t ==> minv[j] == Fin(minv0[j].value - delta)
  {
    forall r | 1 <= r <= s.n ensures RaisedBy(s.p, t, s.m + 1, r) <==> r in TreeRows(s.p, t) {
      RaisedAll(s, t, i, r);
    }
    TreeWithin(s, t, i);
    hide State.Searching, RaisedBy, TreeRows;
  }

  lemma TreeWithin(s: State, t: seq<nat>, i: nat)
    requires s.Searching(t, i)
    ensures forall b :: b in t ==> b <= s.m
  {
  }

  lemma RaisedAll(s: State, t: seq<nat>, i: nat, r: nat)
    requires s.Searching(t, i)
    ensures RaisedBy(s.p, t, s.m + 1, r) <==> r in TreeRows(s.p, t)
  {
    hide State.Tight, State.Signs, State.Below;
  }

  /** Row r belongs to a used column before column j. */
  ghost predicate RaisedBy(p: seq<nat>, t: seq<nat>, j: nat, r: nat) {
    exists b :: 0 <= b < j && b < |p| && b in t && p[b] == r
  }

  lemma RaiseOne(p: seq<nat>, t: seq<nat>, i: nat, j: nat)
    requires Assigned(p, i) && j < |p| && j in t
    ensures forall r: nat :: r != 0 ==> (RaisedBy(p, t, j + 1, r) <==> RaisedBy(p, t, j, r) || r == p[j])
    ensures p[j] != 0 ==> !RaisedBy(p, t, j, p[j])
  {
    forall r: nat | r != 0
      ensures RaisedBy(p, t, j + 1, r) <==> RaisedBy(p, t, j, r) || r == p[j]
    {
      if RaisedBy(p, t, j, r) {
        var b :| 0 <= b < j && b < |p| && b in t && p[b] == r;
        assert 0 <= b < j + 1;
      }
      if r == p[j] {
        assert 0 <= j < j + 1 && j < |p| && j in t && p[j] == r;
      }
    }
  }

  lemma RaiseNone(p: seq<nat>, t: seq<nat>, j: nat)
    requires j < |p| && j !in t
    ensures forall r: nat :: RaisedBy(p, t, j + 1, r) <==> RaisedBy(p, t, j, r)
  {
  }

  /** What is known of the distances when the newest column of the tree is about to be used. */
  ghost predicate Known(s: State, minv: seq<Dist>, t: seq<nat>)
    requires s.Sized()
  {
    && |minv| == s.m + 1 && |t| > 0
    && if |t| == 1 then forall j :: 1 <= j <= s.m ==> minv[j] == Inf
       else s.Distances(minv, t, t[..|t| - 1], true)
  }

  /** The search after a round: row i fits in, and j is the next column at distance zero. */
  ghost predicate Reached(s: State, minv: seq<Dist>, t: seq<nat>, i: nat, j: nat) {
    && s.Sized() && s.Tight() && s.Signs() && s.Below(i) && s.Tree(t)
    && 1 <= i <= s.n <= s.m && s.p[0] == i && Assigned(s.p, i)
    && s.Distances(minv, t, t, true)
    && 1 <= j <= s.m && j !in t && s.Nearest(t, j, 0.0)
  }

  /** One round: uses the newest column of the tree and finds the next column to reach. */
  method Round(s0: State, used: seq<bool>, minv0: seq<Dist>, j0: nat, ghost t: seq<nat>, ghost i: nat)
    returns (s: State, minv: seq<Dist>, j1: nat)
    requires s0.Searching(t, i) && Marked(used, t, s0.m) && Known(s0, minv0, t)
    requires j0 == t[|t| - 1] && j0 <= s0.m && 1 <= s0.p[j0] <= s0.n
    ensures s == s0.(u := s.u, v := s.v, way := s.way) && Reached(s, minv, t, i, j1)
  {
    hide State.Tree, State.Tight, State.Signs, State.Below, State.Slack, State.Nearest, Assigned, Shifted, Looked;
    ghost var free := FreeColumn(s0, t, i);
    var way, minv1, delta;
    minv1, way, delta, j1 := LookAtColumns(s0.cost, s0.n, s0.m, s0.u, s0.v, s0.p, s0.p[j0], j0, used, minv0, s0.way);
    assert !used[free];
    var s1 := s0.(way := way);
    LookedSized(s0, minv0, used, j0, way, minv1);
    Look(s0, minv0, used, t, i, s1, minv1);
    var u, v;
    u, v, minv := ShiftPotentials(s1, used, minv1, delta.value, t, i);
    s := s1.(u := u, v := v);
    assert delta.value == minv1[j1].value;
    Shift(s1, minv1, t, i, delta.value, s, minv);
  }

  lemma LookedSized(s: State, minv: seq<Dist>, used: seq<bool>, j0: nat, way: seq<nat>, minv': seq<Dist>)
    requires s.Sized() && j0 <= s.m && Looked(s, minv, used, j0, way, minv')
    ensures |way| == s.m + 1 && |minv'| == s.m + 1
  {
  }

  /** Grows the tree of row i until it meets an unmatched column. */
  method FindFree(s0: State, i: nat) returns (s: State, j0: nat, ghost t: seq<nat>, ghost minv': seq<Dist>)
    requires s0.Searching([0], i)
    ensures s == s0.(u := s.u, v := s.v, way := s.way)
    ensures Reached(s, minv', t, i, j0) && s.p[j0] == 0
  {
    hide *;
    s, j0, t := s0, 0, [0];
    var minv := seq(s.m + 1, _ => Inf);
    var used := seq(s.m + 1, _ => false);
    KnownAtFirst(s, minv, used, i);
    while true
      invariant s == s0.(u := s.u, v := s.v, way := s.way)
      invariant s.Searching(t, i) && s.Sized() && Known(s, minv, t) && |t| <= s.m + 1
      invariant |t| > 0 && t[|t| - 1] == j0 && j0 <= s.m && |s.p| == s.m + 1 && 1 <= s.p[j0] <= s.n
      invariant Marked(used, t[..|t| - 1], s.m)
      decreases s.m + 1 - |t|
    {
      MarkedMore(used, t, s.m, s, i);
      used := used[j0 := true];
      s, minv, j0 := Round(s, used, minv, j0, t, i);
      ReachedSized(s, minv, t, i, j0);
      if s.p[j0] == 0 {
        minv' := minv;
        return;
      }
      GrowSearch(s, minv, t, i, j0);
      t := t + [j0];
    }
  }

  lemma KnownAtFirst(s: State, minv: seq<Dist>, used: seq<bool>, i: nat)
    requires s.Searching([0], i)
    requires |minv| == s.m + 1 && |used| == s.m + 1
    requires forall j :: 0 <= j <= s.m ==> minv[j] == Inf && !used[j]
    ensures s.Sized() && Known(s, minv, [0]) && Marked(used, [0][..0], s.m)
    ensures |s.p| == s.m + 1 && 1 <= s.p[0] <= s.n
  {
  }

  lemma ReachedSized(s: State, minv: seq<Dist>, t: seq<nat>, i: nat, j: nat)
    requires Reached(s, minv, t, i, j)
    ensures s.Sized() && |s.p| == s.m + 1 && 1 <= j <= s.m
  {
  }

  lemma MarkedMore(used: seq<bool>, t: seq<nat>, m: nat, s: State, i: nat)
    requires s.Searching(t, i) && m == s.m && |t| > 0 && t[|t| - 1] <= m
    requires Marked(used, t[..|t| - 1], m)
    ensures |used| == m + 1 && Marked(used[t[|t| - 1] := true], t, m)
  {
    hide State.Tight, State.Signs, State.Below, State.Slack, State.Tree;
    assert t == t[..|t| - 1] + [t[|t| - 1]];
  }

  lemma GrowSearch(s: State, minv: seq<Dist>, t: seq<nat>, i: nat, j: nat)
    requires Reached(s, minv, t, i, j) && s.p[j] != 0
    ensures s.Searching(t + [j], i) && Known(s, minv, t + [j])
    ensures |t| + 1 <= s.m + 1 && 1 <= s.p[j] <= s.n
    ensures (t + [j])[..|t|] == t
  {
    hide State.Tight, State.Signs, State.Below, State.Slack, State.Nearest;
    Grow(s, t, j);
    assert (t + [j])[..|t|] == t;
    TreeSize(s, t + [j]);
  }

  lemma TreeSize(s: State, t: seq<nat>)
    requires s.Sized() && s.Tree(t)
    ensures |t| <= s.m + 1
  {
    DifferentSize(t, s.m + 1);
  }

  /** Shifts the matched rows along the path back to column 0, which frees the last column of the path. */
  method FlipPath(s: State, jfree: nat, ghost t: seq<nat>, ghost i: nat) returns (s': State)
    requires s.Sized() && i <= s.n <= s.m && s.Below(i) && s.Signs() && |t| > 0
    requires Chain(s, t + [jfree]) && Hole(s, t + [jfree], s.p, |t|, i)
    ensures s' == s.(p := s'.p) && Placed(s', i)
  {
    hide State.Signs, State.Below, State.Slack, Hole;
    ghost var c := t + [jfree];
    ghost var k: nat := |t|;
    var p, j0 := s.p, jfree;
    while true
      invariant Chain(s, c) && Hole(s, c, p, k, i) && 0 < k < |c| && |p| == s.m + 1
      invariant j0 == c[k] && j0 <= s.m
      decreases k
    {
      ghost var b := Flip(s, c, p, k, i);
      var j1 := s.way[j0];
      p := p[j0 := p[j1]];
      j0, k := j1, b;
      if j0 == 0 {
        ChainStart(s, c, k);
        break;
      }
    }
    EndFlip(s, c, p, i);
    s' := s.(p := p);
  }

  lemma ChainStart(s: State, c: seq<nat>, k: nat)
    requires s.Sized() && Chain(s, c) && k < |c|
    ensures c[k] == 0 <==> k == 0
  {
  }

  lemma PathFromTree(s: State, minv: seq<Dist>, t: seq<nat>, i: nat, j: nat)
    requires Reached(s, minv, t, i, j) && s.p[j] == 0
    ensures s.Sized() && i <= s.n <= s.m && s.Below(i) && s.Signs()
    ensures Chain(s, t + [j]) && Hole(s, t + [j], s.p, |t|, i) && |t| > 0
  {
    BeginFlip(s, t, j, i);
  }

  /** A cheapest way to pair up all rows or all columns, by ascending row. */
  method Hungarian(cost: Matrix) returns (pairs: Pairs)
    requires Rectangular(cost, |cost|, Columns(cost))
    ensures Optimal(cost, pairs) && RowsAscend(pairs)
    decreases |cost| > Columns(cost)
  {
    var n, m := |cost|, Columns(cost);
    if n == 0 || m == 0 {
      NothingToPair(cost);
      return [];
    }
    if n > m {
      var t := Transpose(cost, n, m);
      assert |t| == m && Columns(t) == n;
      pairs := Hungarian(t);
      TransposeOptimal(cost, pairs);
      SortOptimal(cost, Swap(pairs));
      return SortPairs(Swap(pairs));
    }
    pairs := Square(cost, n, m);
  }

  /** The case of at most as many rows as columns: inserts one row after the other. */
  method Square(cost: Matrix, n: nat, m: nat) returns (pairs: Pairs)
    requires Rectangular(cost, n, m) && 1 <= n <= m && n == |cost| && m == Columns(cost)
    ensures Optimal(cost, pairs) && RowsAscend(pairs)
  {
    hide *;
    var s := State(cost, n, m, seq(n + 1, _ => 0.0), seq(m + 1, _ => 0.0), seq(m + 1, _ => 0), seq(m + 1, _ => 0));
    NothingPlaced(s);
    for i := 1 to n + 1
      invariant s == State(cost, n, m, s.u, s.v, s.p, s.way) && Placed(s, i - 1) && |s.p| > 0
    {
      BeginRow(s, i - 1);
      s := s.(p := s.p[0 := i]);
      var j0;
      ghost var t, minv;
      s, j0, t, minv := FindFree(s, i);
      PathFromTree(s, minv, t, i, j0);
      s := FlipPath(s, j0, t, i);
      PlacedSized(s, i);
    }
    AllPlaced(s);
    pairs := SortPairs(Matched(s.p, 1));
  }

  lemma NothingPlaced(s: State)
    requires Rectangular(s.cost, s.n, s.m) && s.n <= s.m
    requires |s.u| == s.n + 1 && |s.v| == s.m + 1 && |s.p| == s.m + 1 && |s.way| == s.m + 1
    requires forall j :: 0 <= j <= s.m ==> s.p[j] == 0 && s.v[j] == 0.0
    ensures Placed(s, 0)
  {
  }

  lemma PlacedSized(s: State, i: nat)
    requires Placed(s, i)
    ensures |s.p| == s.m + 1
  {
  }

  lemma NothingToPair(cost: Matrix)
    requires Rectangular(cost, |cost|, Columns(cost)) && (|cost| == 0 || Columns(cost) == 0)
    ensures Optimal(cost, []) && RowsAscend([])
  {
  }

  lemma SortOptimal(cost: Matrix, q: Pairs)
    requires Rectangular(cost, |cost|, Columns(cost)) && Optimal(cost, q)
    ensures Optimal(cost, SortPairs(q)) && RowsAscend(SortPairs(q))
  {
    SpreadIsInjective(q, |cost|, Columns(cost));
    SortPairsKeeps(cost, q, |cost|, Columns(cost));
    SpreadIsInjective(SortPairs(q), |cost|, Columns(cost));
  }

  lemma AllPlaced(s: State)
    requires Placed(s, s.n) && s.n >= 1 && s.m == Columns(s.cost) && s.n == |s.cost|
    ensures Rectangular(s.cost, |s.cost|, Columns(s.cost))
    ensures Optimal(s.cost, SortPairs(Matched(s.p, 1))) && RowsAscend(SortPairs(Matched(s.p, 1)))
  {
    hide State.Slack, State.Tight, State.Below, State.Signs, Assigned;
    var q := Matched(s.p, 1);
    Certified(s);
    SpreadIsInjective(q, s.n, s.m);
    forall o | IsAssignment(o, s.n, s.m) ensures Total(s.cost, q) <= Total(s.cost, o) {
      CertifiedBelow(s.cost, s.u[1..], s.v[1..], q, o);
    }
    SortOptimal(s.cost, q);
  }
}
