/** Ascending order of ids. */
module Sorting {

  ghost predicate StrictlySorted(s: seq<int>) {
    forall i, j :: 0 <= i < j < |s| ==> s[i] < s[j]
  }

  function Members(c: seq<int>): (r: set<int>)
    ensures forall v :: v in c <==> v in r
  {
    set v | v in c
  }

  lemma SubsetSize<T>(a: set<T>, b: set<T>)
    requires a <= b
    ensures |a| <= |b|
  {
    assert b == a + (b - a);
  }

  /** The first k + 1 members are the first k and the next. */
  lemma OneMore<T>(s: seq<T>, k: nat)
    requires k < |s|
    ensures s[..k + 1] == s[..k] + [s[k]] && s[k] in s
  {
  }

  lemma Whole<T>(s: seq<T>)
    ensures s[..0] == [] && s[..|s|] == s
  {
  }

  lemma Associate<T>(a: seq<T>, b: seq<T>, c: seq<T>)
    ensures (a + b) + c == a + (b + c)
  {
  }

  /** No member of an ascending list occurs twice. */
  lemma NextIsNew(s: seq<int>, k: nat)
    requires StrictlySorted(s) && k < |s|
    ensures s[k] !in s[..k]
  {
  }

  lemma Pick<T>(s: set<T>) returns (x: T)
    requires s != {}
    ensures x in s
  {
    x :| x in s;
  }

  lemma {:induction false} MinExists(s: set<int>)
    requires s != {}
    ensures exists m :: m in s && forall x :: x in s ==> m <= x
    decreases |s|
  {
    var y := Pick(s);
    var rest := s - {y};
    assert forall x :: x in s <==> x == y || x in rest;
    if rest != {} {
      MinExists(rest);
      var m :| m in rest && forall x :: x in rest ==> m <= x;
      var least := if m <= y then m else y;
      assert least in s && forall x :: x in s ==> least <= x;
    }
  }

  function Min(s: set<int>): (m: int)
    requires s != {}
    ensures m in s && forall x :: x in s ==> m <= x
  {
    MinExists(s);
    var m :| m in s && forall x :: x in s ==> m <= x;
    m
  }

  /** The members of a finite set, ascending. */
  function Sorted(s: set<int>): (r: seq<int>)
    ensures StrictlySorted(r)
    ensures forall x :: x in r <==> x in s
    ensures |r| == |s|
  {
    if s == {} then [] else
      var m := Min(s);
      [m] + Sorted(s - {m})
  }

  ghost predicate FirstsAscend(s: seq<seq<int>>) {
    && (forall k :: 0 <= k < |s| ==> |s[k]| > 0)
    && forall i :: 0 <= i < |s| - 1 ==> s[i][0] < s[i + 1][0]
  }

  ghost predicate FirstsDiffer(s: seq<seq<int>>) {
    && (forall k :: 0 <= k < |s| ==> |s[k]| > 0)
    && forall i, j :: 0 <= i < j < |s| ==> s[i][0] != s[j][0]
  }

  function InsertByFirst(c: seq<int>, s: seq<seq<int>>): (r: seq<seq<int>>)
    requires |c| > 0 && FirstsAscend(s) && forall k :: 0 <= k < |s| ==> s[k][0] != c[0]
    ensures FirstsAscend(r)
    ensures |r| > 0 && (r[0] == c || (|s| > 0 && r[0] == s[0]))
    ensures forall x :: x in r <==> x == c || x in s
  {
    if s == [] || c[0] < s[0][0] then [c] + s
    else
      assert s == [s[0]] + s[1..];
      [s[0]] + InsertByFirst(c, s[1..])
  }

  /** Lists with different first elements, ordered by them. */
  function SortByFirst(s: seq<seq<int>>): (r: seq<seq<int>>)
    requires FirstsDiffer(s)
    ensures FirstsAscend(r)
    ensures forall x :: x in r <==> x in s
  {
    if s == [] then []
    else
      assert s == [s[0]] + s[1..];
      assert forall x :: x in s <==> x == s[0] || x in s[1..];
      var rest := SortByFirst(s[1..]);
      assert forall k :: 0 <= k < |rest| ==> rest[k] in rest && rest[k] in s[1..];
      InsertByFirst(s[0], rest)
  }

  lemma {:induction false} FirstsInOrder(s: seq<seq<int>>, i: nat, j: nat)
    requires FirstsAscend(s) && i < j < |s|
    ensures s[i][0] < s[j][0]
    decreases j
  {
    if i < j - 1 {
      FirstsInOrder(s, i, j - 1);
    }
  }
}
