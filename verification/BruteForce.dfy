/** The reference assignment: tries every way to give each row a column of its own, or each column a row. */
module BruteForce {
  import opened Assignment
  import Hungarian

  /** The first rows' columns, all different. */
  ghost predicate DistinctColumns(cols: seq<nat>, m: nat) {
    && (forall i :: 0 <= i < |cols| ==> cols[i] < m)
    && (forall i, j :: 0 <= i < j < |cols| ==> cols[i] != cols[j])
  }

  function Pair(cols: seq<nat>): (q: Pairs)
    ensures |q| == |cols| && forall i :: 0 <= i < |q| ==> q[i] == (i, cols[i])
  {
    seq(|cols|, i requires 0 <= i < |cols| => (i, cols[i]))
  }

  /** The sum of the first k entries chosen by cols. */
  function Cost(cost: Matrix, cols: seq<nat>, k: nat): real
    requires k <= |cols| <= |cost| && forall i :: 0 <= i < |cols| ==> cols[i] < |cost[i]|
  {
    if k == 0 then 0.0 else Cost(cost, cols, k - 1) + cost[k - 1][cols[k - 1]]
  }

  /** The pairs of cols cost what cols does. */
  lemma {:induction false} PairsCost(cost: Matrix, cols: seq<nat>, n: nat, m: nat, k: nat)
    requires Rectangular(cost, n, m) && |cols| <= n && DistinctColumns(cols, m) && k <= |cols|
    ensures Total(cost, Pair(cols)[k..]) == Cost(cost, cols, |cols|) - Cost(cost, cols, k)
    decreases |cols| - k
  {
    if k < |cols| {
      PairsCost(cost, cols, n, m, k + 1);
      assert Pair(cols)[k..][1..] == Pair(cols)[k + 1..];
    }
  }

  ghost predicate Extends(cols: seq<nat>, chosen: seq<nat>, n: nat, m: nat) {
    |cols| == n && DistinctColumns(cols, m) && chosen <= cols
  }

  lemma {:induction false} SameCost(cost: Matrix, a: seq<nat>, b: seq<nat>, k: nat, n: nat, m: nat)
    requires Rectangular(cost, n, m) && |a| <= n && |b| <= n && DistinctColumns(a, m) && DistinctColumns(b, m)
    requires k <= |a| && k <= |b| && a[..k] == b[..k]
    ensures Cost(cost, a, k) == Cost(cost, b, k)
  {
    if k > 0 {
      assert a[..k][k - 1] == b[..k][k - 1];
      assert a[..k - 1] == a[..k][..k - 1] && b[..k - 1] == b[..k][..k - 1];
      SameCost(cost, a, b, k - 1, n, m);
    }
  }

  /** The cheapest way to go on from the chosen columns. */
  method Best(cost: Matrix, n: nat, m: nat, chosen: seq<nat>) returns (found: bool, cols: seq<nat>)
    requires Rectangular(cost, n, m) && |chosen| <= n && DistinctColumns(chosen, m)
    ensures found ==> Extends(cols, chosen, n, m)
    ensures !found ==> forall o :: !Extends(o, chosen, n, m)
    ensures found ==> forall o :: Extends(o, chosen, n, m) ==> Cost(cost, cols, n) <= Cost(cost, o, n)
    decreases n - |chosen|
  {
    found, cols := false, [];
    if |chosen| == n {
      assert forall o :: Extends(o, chosen, n, m) ==> o == chosen;
      return true, chosen;
    }
    for c := 0 to m
      invariant found ==> Extends(cols, chosen, n, m)
      invariant forall o :: Extends(o, chosen, n, m) && o[|chosen|] < c ==>
                  found && Cost(cost, cols, n) <= Cost(cost, o, n)
    {
      if c !in chosen {
        var next := chosen + [c];
        var more, other := Best(cost, n, m, next);
        forall o | Extends(o, chosen, n, m) && o[|chosen|] == c ensures Extends(o, next, n, m) {
          assert o[..|next|] == next;
        }
        if more && (!found || Cost(cost, other, n) < Cost(cost, cols, n)) {
          found, cols := true, other;
        }
      } else {
        forall o | Extends(o, chosen, n, m) ensures o[|chosen|] != c {
          var i :| 0 <= i < |chosen| && chosen[i] == c;
          assert o[i] == c;
        }
      }
    }
  }

  /** With at most as many rows as columns there is a way to go on. */
  lemma Identity(n: nat, m: nat)
    requires n <= m
    ensures exists o :: Extends(o, [], n, m)
  {
    var o := seq(n, i requires 0 <= i < n => i);
    assert Extends(o, [], n, m);
  }

  /** Every assignment of all rows is a choice of columns of the same cost. */
  lemma AsColumns(cost: Matrix, n: nat, m: nat, o: Pairs) returns (cols: seq<nat>)
    requires Rectangular(cost, n, m) && n <= m && IsAssignment(o, n, m)
    ensures Extends(cols, [], n, m) && Cost(cost, cols, n) == Total(cost, o)
  {
    hide Spread, RowsAscend, SortPairs, Total, Cost;
    SpreadIsInjective(o, n, m);
    SortPairsKeeps(cost, o, n, m);
    var s := SortPairs(o);
    SpreadIsInjective(s, n, m);
    RowsInPlace(s, n, m);
    cols := seq(n, i requires 0 <= i < n => s[i].1);
    ColumnsOfPairs(s, cols, n, m);
    PairsCost(cost, cols, n, m, 0);
    NoCost(cost, cols);
    assert s[0..] == s;
  }

  lemma NoCost(cost: Matrix, cols: seq<nat>)
    requires |cols| <= |cost| && forall i :: 0 <= i < |cols| ==> cols[i] < |cost[i]|
    ensures Cost(cost, cols, 0) == 0.0
  {
  }

  lemma ColumnsOfPairs(s: Pairs, cols: seq<nat>, n: nat, m: nat)
    requires Injective(s, n, m) && |s| == n == |cols| && forall i :: 0 <= i < n ==> s[i].0 == i && cols[i] == s[i].1
    ensures DistinctColumns(cols, m) && Pair(cols) == s
  {
  }

  /** Ascending rows, as many as there are, are all rows in order. */
  lemma RowsInPlace(s: Pairs, n: nat, m: nat)
    requires Injective(s, n, m) && RowsAscend(s) && |s| == n
    ensures forall i :: 0 <= i < n ==> s[i].0 == i
  {
    AtLeast(s, n);
    forall i | 0 <= i < n ensures s[i].0 == i {
      AtMost(s, n, m, i);
    }
  }

  lemma {:induction false} AtLeast(s: Pairs, k: nat)
    requires RowsAscend(s) && k <= |s|
    ensures forall i :: 0 <= i < k ==> s[i].0 >= i
  {
    if k > 0 {
      AtLeast(s, k - 1);
      assert k > 1 ==> s[k - 2].0 < s[k - 2 + 1].0;
    }
  }

  lemma {:induction false} AtMost(s: Pairs, n: nat, m: nat, i: nat)
    requires Injective(s, n, m) && RowsAscend(s) && |s| == n && i < n
    ensures s[i].0 <= i
    decreases n - i
  {
    if i < n - 1 {
      AtMost(s, n, m, i + 1);
    }
  }

  /** The cheapest of all assignments, found by trying them all. */
  method BruteForceAssignment(cost: Matrix) returns (pairs: Pairs)
    requires Rectangular(cost, |cost|, Columns(cost))
    ensures Optimal(cost, pairs)
    decreases |cost| > Columns(cost)
  {
    var n, m := |cost|, Columns(cost);
    if n == 0 || m == 0 {
      Hungarian.NothingToPair(cost);
      return [];
    }
    if n > m {
      var t := Transpose(cost, n, m);
      assert |t| == m && Columns(t) == n;
      pairs := BruteForceAssignment(t);
      TransposeOptimal(cost, pairs);
      Hungarian.SortOptimal(cost, Swap(pairs));
      return SortPairs(Swap(pairs));
    }
    var found, cols := Best(cost, n, m, []);
    Identity(n, m);
    pairs := Pair(cols);
    BestIsOptimal(cost, n, m, cols);
  }

  lemma BestIsOptimal(cost: Matrix, n: nat, m: nat, cols: seq<nat>)
    requires Rectangular(cost, n, m) && 1 <= n <= m && n == |cost| && m == Columns(cost) && Extends(cols, [], n, m)
    requires forall o :: Extends(o, [], n, m) ==> Cost(cost, cols, n) <= Cost(cost, o, n)
    ensures Optimal(cost, Pair(cols))
  {
    PairsCost(cost, cols, n, m, 0);
    assert Pair(cols)[0..] == Pair(cols);
    forall o | IsAssignment(o, n, m) ensures Total(cost, Pair(cols)) <= Total(cost, o) {
      var other := AsColumns(cost, n, m, o);
    }
  }

  /** The Hungarian method and the reference always agree on the least total cost. */
  method CrossCheck(cost: Matrix) returns (fast: Pairs, slow: Pairs)
    requires Rectangular(cost, |cost|, Columns(cost))
    ensures Optimal(cost, fast) && Optimal(cost, slow) && Total(cost, fast) == Total(cost, slow)
  {
    fast := Hungarian.Hungarian(cost);
    slow := BruteForceAssignment(cost);
  }
}
