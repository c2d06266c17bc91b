/** Assignments of rows to columns of a cost matrix, their total, and a lower bound by potentials. */
module Assignment {

  type Matrix = seq<seq<real>>
  type Pairs = seq<(nat, nat)>

  ghost predicate Rectangular(cost: Matrix, n: nat, m: nat) {
    |cost| == n && forall r :: 0 <= r < n ==> |cost[r]| == m
  }

  /** The number of columns; a matrix without rows has none. */
  function Columns(cost: Matrix): nat {
    if cost == [] then 0 else |cost[0]|
  }

  function Smaller(n: nat, m: nat): nat {
    if n <= m then n else m
  }

  /** Pairs inside an n by m matrix, no row and no column twice. */
  ghost predicate Injective(q: Pairs, n: nat, m: nat) {
    && (forall k :: 0 <= k < |q| ==> q[k].0 < n && q[k].1 < m)
    && (forall i, j :: 0 <= i < j < |q| ==> q[i].0 != q[j].0 && q[i].1 != q[j].1)
  }

  ghost predicate IsAssignment(q: Pairs, n: nat, m: nat) {
    |q| == Smaller(n, m) && Injective(q, n, m)
  }

  ghost function Total(cost: Matrix, q: Pairs): real
    requires forall k :: 0 <= k < |q| ==> q[k].0 < |cost| && q[k].1 < |cost[q[k].0]|
  {
    if q == [] then 0.0 else cost[q[0].0][q[0].1] + Total(cost, q[1..])
  }

  /** q costs no more than any other assignment. */
  ghost predicate Optimal(cost: Matrix, q: Pairs)
    requires Rectangular(cost, |cost|, Columns(cost))
  {
    && IsAssignment(q, |cost|, Columns(cost))
    && forall o :: IsAssignment(o, |cost|, Columns(cost)) ==> Total(cost, q) <= Total(cost, o)
  }

  // ---------------------------------------------------------------- sums of potentials

  /** The sum of the first k entries of b whose index is in s. */
  ghost function Picked(b: seq<real>, s: set<nat>, k: nat): real
    requires k <= |b|
  {
    if k == 0 then 0.0 else Picked(b, s, k - 1) + if k - 1 in s then b[k - 1] else 0.0
  }

  ghost function Range(k: nat): (s: set<nat>)
    ensures forall j: nat :: j in s <==> j < k
  {
    if k == 0 then {} else Range(k - 1) + {k - 1}
  }

  lemma {:induction false} PickOne(b: seq<real>, s: set<nat>, x: nat, k: nat)
    requires x !in s && k <= |b|
    ensures Picked(b, s + {x}, k) == Picked(b, s, k) + if x < k then b[x] else 0.0
  {
    if k > 0 {
      PickOne(b, s, x, k - 1);
    }
  }

  lemma {:induction false} PickFewer(b: seq<real>, s: set<nat>, k: nat)
    requires k <= |b| && forall j :: 0 <= j < k ==> b[j] <= 0.0
    ensures Picked(b, s, k) >= Picked(b, Range(|b|), k)
    ensures (forall j :: 0 <= j < k && j !in s ==> b[j] == 0.0) ==>
              Picked(b, s, k) == Picked(b, Range(|b|), k)
  {
    if k > 0 {
      PickFewer(b, s, k - 1);
    }
  }

  ghost function RowsOf(q: Pairs): set<nat> {
    set k | 0 <= k < |q| :: q[k].0
  }

  ghost function ColsOf(q: Pairs): set<nat> {
    set k | 0 <= k < |q| :: q[k].1
  }

  /** The potentials of the rows and columns of q. */
  ghost function Potential(a: seq<real>, b: seq<real>, q: Pairs): real
    requires forall k :: 0 <= k < |q| ==> q[k].0 < |a| && q[k].1 < |b|
  {
    if q == [] then 0.0 else a[q[0].0] + b[q[0].1] + Potential(a, b, q[1..])
  }

  lemma {:induction false} PotentialIsPicked(a: seq<real>, b: seq<real>, q: Pairs)
    requires Injective(q, |a|, |b|)
    ensures Potential(a, b, q) == Picked(a, RowsOf(q), |a|) + Picked(b, ColsOf(q), |b|)
  {
    if q == [] {
      assert RowsOf(q) == {} && ColsOf(q) == {};
      PickNone(a, |a|);
      PickNone(b, |b|);
    } else {
      var (r, c) := q[0];
      PotentialIsPicked(a, b, q[1..]);
      assert RowsOf(q) == RowsOf(q[1..]) + {r} && r !in RowsOf(q[1..]);
      assert ColsOf(q) == ColsOf(q[1..]) + {c} && c !in ColsOf(q[1..]);
      PickOne(a, RowsOf(q[1..]), r, |a|);
      PickOne(b, ColsOf(q[1..]), c, |b|);
    }
  }

  lemma {:induction false} PickNone(b: seq<real>, k: nat)
    requires k <= |b|
    ensures Picked(b, {}, k) == 0.0
  {
    if k > 0 {
      PickNone(b, k - 1);
    }
  }

  lemma {:induction false} RangeSize(k: nat)
    ensures |Range(k)| == k
  {
    if k == 0 {
      assert Range(0) == {};
    } else {
      RangeSize(k - 1);
      assert Range(k) == Range(k - 1) + {k - 1};
    }
  }

  lemma {:induction false} RowCount(q: Pairs, n: nat, m: nat)
    requires Injective(q, n, m)
    ensures |RowsOf(q)| == |q|
  {
    if q == [] {
      assert RowsOf(q) == {};
    } else {
      RowCount(q[1..], n, m);
      assert RowsOf(q) == RowsOf(q[1..]) + {q[0].0} && q[0].0 !in RowsOf(q[1..]);
    }
  }

  /** As many pairs as rows use every row. */
  lemma AllRows(q: Pairs, n: nat, m: nat)
    requires Injective(q, n, m) && |q| == n
    ensures RowsOf(q) == Range(n)
  {
    RowCount(q, n, m);
    RangeSize(n);
    SubsetFull(RowsOf(q), Range(n));
  }

  lemma SubsetFull(s: set<nat>, t: set<nat>)
    requires s <= t && |s| == |t|
    ensures s == t
  {
    assert t == s + (t - s);
    assert |t - s| == 0;
  }

  /** Potentials that stay below every cost. */
  ghost predicate Feasible(cost: Matrix, a: seq<real>, b: seq<real>)
    requires Rectangular(cost, |a|, |b|)
  {
    forall r, c :: 0 <= r < |a| && 0 <= c < |b| ==> a[r] + b[c] <= cost[r][c]
  }

  lemma {:induction false} TotalAbovePotential(cost: Matrix, a: seq<real>, b: seq<real>, q: Pairs)
    requires Rectangular(cost, |a|, |b|) && Feasible(cost, a, b) && Injective(q, |a|, |b|)
    ensures Total(cost, q) >= Potential(a, b, q)
    ensures (forall k :: 0 <= k < |q| ==> cost[q[k].0][q[k].1] == a[q[k].0] + b[q[k].1]) ==>
              Total(cost, q) == Potential(a, b, q)
  {
    if q != [] {
      TotalAbovePotential(cost, a, b, q[1..]);
    }
  }

  /** The dual solution that proves an assignment optimal when there are at most as many rows as columns. */
  ghost predicate Certificate(cost: Matrix, a: seq<real>, b: seq<real>, q: Pairs)
    requires Rectangular(cost, |a|, |b|)
  {
    && Feasible(cost, a, b)
    && |q| == |a| && Injective(q, |a|, |b|)
    && (forall c :: 0 <= c < |b| ==> b[c] <= 0.0)
    && (forall c :: 0 <= c < |b| && c !in ColsOf(q) ==> b[c] == 0.0)
    && (forall k :: 0 <= k < |q| ==> cost[q[k].0][q[k].1] == a[q[k].0] + b[q[k].1])
  }

  lemma CertifiedBelow(cost: Matrix, a: seq<real>, b: seq<real>, q: Pairs, o: Pairs)
    requires Rectangular(cost, |a|, |b|) && Certificate(cost, a, b, q)
    requires |o| == |a| && Injective(o, |a|, |b|)
    ensures Total(cost, q) <= Total(cost, o)
  {
    hide Total, ColsOf;
    TotalAbovePotential(cost, a, b, q);
    TotalAbovePotential(cost, a, b, o);
    PotentialIsPicked(a, b, q);
    PotentialIsPicked(a, b, o);
    AllRows(q, |a|, |b|);
    AllRows(o, |a|, |b|);
    PickFewer(b, ColsOf(q), |b|);
    PickFewer(b, ColsOf(o), |b|);
  }

  // ---------------------------------------------------------------- transposing

  function Swap(q: Pairs): (r: Pairs)
    ensures |r| == |q| && forall k :: 0 <= k < |q| ==> r[k] == (q[k].1, q[k].0)
  {
    seq(|q|, k requires 0 <= k < |q| => (q[k].1, q[k].0))
  }

  function Transpose(cost: Matrix, n: nat, m: nat): (t: Matrix)
    requires Rectangular(cost, n, m)
    ensures Rectangular(t, m, n)
    ensures forall r, c :: 0 <= r < n && 0 <= c < m ==> t[c][r] == cost[r][c]
  {
    seq(m, c requires 0 <= c < m => seq(n, r requires 0 <= r < n => cost[r][c]))
  }

  lemma {:induction false} SwapTotal(cost: Matrix, n: nat, m: nat, q: Pairs)
    requires Rectangular(cost, n, m) && Injective(q, n, m)
    ensures Injective(Swap(q), m, n)
    ensures Total(Transpose(cost, n, m), Swap(q)) == Total(cost, q)
  {
    if q != [] {
      SwapTotal(cost, n, m, q[1..]);
      assert Swap(q)[1..] == Swap(q[1..]);
    }
  }

  lemma TransposeTwice(cost: Matrix, n: nat, m: nat)
    requires Rectangular(cost, n, m)
    ensures Transpose(Transpose(cost, n, m), m, n) == cost
  {
    var t := Transpose(Transpose(cost, n, m), m, n);
    forall r | 0 <= r < n ensures t[r] == cost[r] {
      assert forall c :: 0 <= c < m ==> t[r][c] == cost[r][c];
    }
  }

  /** An optimal assignment of the transposed matrix, swapped back, is optimal. */
  lemma TransposeOptimal(cost: Matrix, q: Pairs)
    requires |cost| > 0 && Columns(cost) > 0 && Rectangular(cost, |cost|, Columns(cost))
    requires Optimal(Transpose(cost, |cost|, Columns(cost)), q)
    ensures Optimal(cost, Swap(q))
  {
    var n, m := |cost|, Columns(cost);
    var t := Transpose(cost, n, m);
    TransposeTwice(cost, n, m);
    SwapTotal(t, m, n, q);
    assert IsAssignment(Swap(q), n, m);
    forall o | IsAssignment(o, n, m) ensures Total(cost, Swap(q)) <= Total(cost, o) {
      SwapTotal(cost, n, m, o);
      assert IsAssignment(Swap(o), m, n);
    }
  }

  // ---------------------------------------------------------------- ordering pairs by row

  ghost predicate RowsAscend(q: Pairs) {
    forall k :: 0 <= k < |q| - 1 ==> q[k].0 < q[k + 1].0
  }

  function InsertPair(x: (nat, nat), q: Pairs): (r: Pairs)
    ensures |r| == |q| + 1 && (r[0] == x || (|q| > 0 && r[0] == q[0]))
    ensures forall y :: y in r <==> y == x || y in q
  {
    if q == [] || x.0 < q[0].0 then [x] + q
    else
      assert q == [q[0]] + q[1..];
      [q[0]] + InsertPair(x, q[1..])
  }

  /** Pairs with different rows, by ascending row. */
  function SortPairs(q: Pairs): (r: Pairs)
    ensures |r| == |q|
    ensures forall y :: y in r <==> y in q
  {
    if q == [] then []
    else
      assert q == [q[0]] + q[1..];
      InsertPair(q[0], SortPairs(q[1..]))
  }

  /** x shares no row and no column with q. */
  ghost predicate Apart(x: (nat, nat), q: Pairs) {
    forall y :: y in q ==> y.0 != x.0 && y.1 != x.1
  }

  /** The recursive form of Injective. */
  ghost predicate Spread(q: Pairs, n: nat, m: nat) {
    q == [] || (q[0].0 < n && q[0].1 < m && Apart(q[0], q[1..]) && Spread(q[1..], n, m))
  }

  lemma InjectiveTail(q: Pairs, n: nat, m: nat)
    requires q != []
    ensures Injective(q, n, m) <==>
              q[0].0 < n && q[0].1 < m && Apart(q[0], q[1..]) && Injective(q[1..], n, m)
  {
    var t := q[1..];
    assert forall k :: 0 <= k < |t| ==> t[k] == q[k + 1];
    if Injective(q, n, m) {
      forall y | y in t ensures y.0 != q[0].0 && y.1 != q[0].1 {
        var k :| 0 <= k < |t| && t[k] == y;
        assert q[k + 1] == y;
      }
    }
    if q[0].0 < n && q[0].1 < m && Apart(q[0], t) && Injective(t, n, m) {
      forall i, j | 0 <= i < j < |q| ensures q[i].0 != q[j].0 && q[i].1 != q[j].1 {
        assert q[j] == t[j - 1] && t[j - 1] in t;
        if i > 0 {
          assert q[i] == t[i - 1];
        }
      }
      assert forall k :: 0 < k < |q| ==> q[k] == t[k - 1];
    }
  }

  lemma {:induction false} SpreadIsInjective(q: Pairs, n: nat, m: nat)
    ensures Spread(q, n, m) <==> Injective(q, n, m)
  {
    if q != [] {
      InjectiveTail(q, n, m);
      SpreadIsInjective(q[1..], n, m);
    }
  }

  lemma {:induction false} InsertPairSpread(x: (nat, nat), q: Pairs, n: nat, m: nat)
    requires x.0 < n && x.1 < m && Apart(x, q) && Spread(q, n, m)
    ensures Spread(InsertPair(x, q), n, m)
  {
    hide RowsAscend;
    var r := InsertPair(x, q);
    if q == [] || x.0 < q[0].0 {
      assert r[1..] == q;
    } else {
      assert q[0] in q;
      assert r[1..] == InsertPair(x, q[1..]);
      assert forall y :: y in q[1..] ==> y in q;
      InsertPairSpread(x, q[1..], n, m);
    }
  }

  lemma {:induction false} InsertPairAscends(x: (nat, nat), q: Pairs)
    requires Apart(x, q) && RowsAscend(q)
    ensures RowsAscend(InsertPair(x, q))
  {
    if q != [] && q[0].0 <= x.0 {
      assert q[0] in q;
      assert forall y :: y in q[1..] ==> y in q;
      InsertPairAscends(x, q[1..]);
    }
  }

  lemma {:induction false} InsertPairTotal(cost: Matrix, x: (nat, nat), q: Pairs, n: nat, m: nat)
    requires Rectangular(cost, n, m) && InRange(q, n, m) && x.0 < n && x.1 < m
    ensures InRange(InsertPair(x, q), n, m)
    ensures Total(cost, InsertPair(x, q)) == cost[x.0][x.1] + Total(cost, q)
  {
    var r := InsertPair(x, q);
    if q == [] || x.0 < q[0].0 {
      assert r[1..] == q;
    } else {
      InsertPairTotal(cost, x, q[1..], n, m);
      assert r[1..] == InsertPair(x, q[1..]);
    }
  }

  ghost predicate InRange(q: Pairs, n: nat, m: nat) {
    forall k :: 0 <= k < |q| ==> q[k].0 < n && q[k].1 < m
  }

  lemma SpreadInRange(q: Pairs, n: nat, m: nat)
    requires Spread(q, n, m)
    ensures InRange(q, n, m)
  {
    SpreadIsInjective(q, n, m);
  }

  lemma {:induction false} SortPairsKeeps(cost: Matrix, q: Pairs, n: nat, m: nat)
    requires Rectangular(cost, n, m) && Spread(q, n, m)
    ensures var r := SortPairs(q);
            && Spread(r, n, m) && RowsAscend(r)
            && InRange(q, n, m) && InRange(r, n, m)
            && Total(cost, r) == Total(cost, q)
  {
    SpreadInRange(q, n, m);
    if q != [] {
      SortPairsKeeps(cost, q[1..], n, m);
      InsertPairSpread(q[0], SortPairs(q[1..]), n, m);
      InsertPairAscends(q[0], SortPairs(q[1..]));
      InsertPairTotal(cost, q[0], SortPairs(q[1..]), n, m);
    }
  }
}
