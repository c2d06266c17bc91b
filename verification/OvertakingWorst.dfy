/** How bad it can get: for every fleet size a run in which a robot that needs a chain is passed as often as possible. */
module OvertakingWorst {
  import opened Options
  import opened Sorting
  import opened Tokens
  import opened TokenRuns
  import opened TokenSafety
  import opened Overtaking

  // ---------------------------------------------------------------- one chain, one robot per link

  function Numbers(from: nat, to: nat): (q: seq<int>)
    requires from <= to
    ensures forall r :: r in q <==> from < r <= to
    ensures |q| == to - from && forall j :: 0 <= j < |q| ==> q[j] == from + 1 + j
  {
    if from == to then [] else Numbers(from, to - 1) + [to]
  }

  /** Robot n wants the whole chain, each other robot, with more priority, the one zone with its number. */
  function Ask(n: nat, r: Robot): Request
    requires n > 0
  {
    Request(if r == n then Numbers(0, n - 1) else [r], map[], if r == n then 0 else 1, None)
  }

  /** Zones 1 to n - 1, all exclusive. */
  ghost predicate OneChain(c: Config, n: nat, k: nat) {
    c.maxBypass == k && (forall z :: z in c.zones <==> 1 <= z < n) && forall z :: z in c.zones ==> !c.zones[z]
  }

  /** Robots 1 to p are outside their zones and ask for them, the others are inside theirs. */
  ghost predicate Visiting(i: Input, n: nat, p: nat, now: real) {
    && p < n && i.Valid() && i.now == now && i.frozen == {} && |i.requests| <= n
    && (forall r :: r in i.requests <==> 1 <= r <= p || r == n)
    && (forall r :: r in i.requests ==> i.requests[r] == Ask(n, r))
    && (forall k :: k in i.occupied <==> k.0 == k.1 && p < k.1 < n)
  }

  /** The robots above p, below n, hold the zones with their numbers. */
  ghost predicate Holds(held: map<Slot, Direction>, n: nat, p: nat) {
    (forall k :: k in held <==> k.0 == k.1 && p < k.1 < n) && forall k :: k in held ==> held[k] == None
  }

  /** Robot n waits for the chain since the given time. */
  ghost predicate Longing(s: State, n: nat, since: real, bypassed: nat) {
    n > 0 && n in s.waits && s.waits[n] == Wait(Numbers(0, n - 1), since, s.waits[n].number, bypassed)
  }

  /** Nothing has happened yet and all come at once; or every zone is held and robots 1 to p have been inside. */
  ghost predicate Before(s: State, n: nat, p: nat, since: real, bypassed: nat, now: real) {
    || (s.held == map[] && s.entered == {} && s.waits == map[] && p == n - 1 && since == now && bypassed == 0)
    || (Holds(s.held, n, 0) && s.entered <= s.held.Keys && (forall r :: 1 <= r <= p ==> (r, r) in s.entered)
        && s.waits.Keys == {n} && Longing(s, n, since, bypassed) && since < now)
  }

  /** Robots 1 to p wait besides robot n. */
  ghost predicate Ready(m: State, n: nat, p: nat, since: real, bypassed: nat, now: real) {
    && Holds(m.held, n, p) && m.entered == m.held.Keys && (forall r :: r in m.waits <==> 1 <= r <= p || r == n)
    && Longing(m, n, since, bypassed)
    && forall r :: 1 <= r <= p ==> m.waits[r].since == now && m.waits[r].bypassed == 0
  }

  lemma ReleasedOwn(n: nat, p: nat, s: State, since: real, bypassed: nat, i: Input)
    requires Visiting(i, n, p, i.now) && Before(s, n, p, since, bypassed, i.now)
    ensures var t := Released(s, i); Holds(t.held, n, p) && t.entered == t.held.Keys && t.waits == s.waits
  {
    assert forall k :: k in s.held ==> (Kept(s, i, k) <==> p < k.1);
  }

  lemma {:induction false} RegisteredSame(c: Config, n: nat, p: nat, s: State, i: Input, x: nat)
    requires Visiting(i, n, p, i.now) && Holds(s.held, n, p) && x <= |i.occupied|
    ensures Registered(c, s, i, x) == s
  {
    if x > 0 {
      RegisteredSame(c, n, p, s, i, x - 1);
      assert i.occupied[x - 1] in i.occupied;
    }
  }

  lemma {:induction false} MissingAll(c: Config, held: map<Slot, Direction>, r: Robot, zones: seq<Zone>)
    requires forall j :: 0 <= j < |zones| ==> zones[j] in c.zones && (zones[j], r) !in held
    ensures Missing(c, held, r, zones) == zones
  {
    if zones != [] {
      MissingAll(c, held, r, zones[1..]);
    }
  }

  ghost predicate NeedAsked(c: Config, n: nat, s: State, i: Input)
    requires n > 0
  {
    var need := Need(c, s, i);
    (forall r :: r in need <==> r in i.requests) && forall r :: r in need ==> need[r] == Ask(n, r).zones
  }

  lemma AllNeeded(c: Config, n: nat, k: nat, p: nat, s: State, i: Input)
    requires OneChain(c, n, k) && Visiting(i, n, p, i.now) && n >= 2 && Holds(s.held, n, p)
    ensures NeedAsked(c, n, s, i)
  {
    hide Missing;
    forall r | r in i.requests ensures Missing(c, s.held, r, Ask(n, r).zones) == Ask(n, r).zones {
      MissingAll(c, s.held, r, Ask(n, r).zones);
    }
  }

  lemma Arrived(c: Config, n: nat, k: nat, p: nat, s: State, since: real, bypassed: nat, i: Input)
    requires OneChain(c, n, k) && Visiting(i, n, p, i.now) && n >= 2 && Before(s, n, p, since, bypassed, i.now)
    ensures Ready(Prepared(c, s, i), n, p, since, bypassed, i.now) && Waits(c, Prepared(c, s, i), i)
  {
    var t := Released(s, i);
    ReleasedOwn(n, p, s, since, bypassed, i);
    RegisteredSame(c, n, p, t, i, |i.occupied|);
    AllNeeded(c, n, k, p, t, i);
    hide Released, Registered, Refreshed, NeedAsked, Before, Waits, Ready;
    PreparedWaits(c, s, i);
    Queueing(c, n, p, s, t, since, bypassed, i);
  }

  lemma Queueing(c: Config, n: nat, p: nat, s: State, t: State, since: real, bypassed: nat, i: Input)
    requires Visiting(i, n, p, i.now) && n >= 2 && Before(s, n, p, since, bypassed, i.now)
    requires Holds(t.held, n, p) && t.entered == t.held.Keys && t.waits == s.waits && NeedAsked(c, n, t, i)
    ensures Ready(Refreshed(c, t, i), n, p, since, bypassed, i.now)
  {
    hide Need, Started, Numbers, Overlap;
    var need := Need(c, t, i);
    var u := t.(waits := Continued(t, i, need));
    Shared(Numbers(0, n - 1), 1);
    StartedWaits(u, i, need, |i.order|);
    StartedZones(u, i, need, |i.order|);
    StartedSame(u, i, need, |i.order|);
    assert i.order[..|i.order|] == i.order;
    assert n in t.waits ==> n in u.waits;
  }

  lemma {:induction false} StartedZones(s: State, i: Input, need: map<Robot, seq<Zone>>, n: nat)
    requires n <= |i.order|
    ensures var t := Started(s, i, need, n);
            forall r :: r in t.waits && r !in s.waits ==> r in i.requests && t.waits[r].zones == i.requests[r].zones
  {
    if n > 0 {
      StartedZones(s, i, need, n - 1);
    }
  }

  lemma Shared(zones: seq<Zone>, z: Zone)
    requires z in zones
    ensures Overlap([z], zones) && Overlap(zones, zones)
  {
    assert z in [z];
  }

  // ---------------------------------------------------------------- the grants of one cycle

  /** Nobody else asks, or robot n is not starved, or all are and all ask since now. */
  ghost predicate Mild(k: nat, p: nat, bypassed: nat, since: real, now: real) {
    p == 0 || bypassed < k || (k == 0 && since == now)
  }

  /** The others go first: robot n has no claim they do not have, and less priority. */
  lemma OthersFirst(c: Config, n: nat, k: nat, p: nat, m: State, since: real, bypassed: nat, i: Input, r: Robot)
    requires OneChain(c, n, k) && Visiting(i, n, p, i.now)
    requires Ready(m, n, p, since, bypassed, i.now) && Mild(k, p, bypassed, since, i.now) && 1 <= r <= p
    ensures LexLess(KeyOf(c, m, i, r), KeyOf(c, m, i, n))
  {
    var a, b := KeyOf(c, m, i, r), KeyOf(c, m, i, n);
    if bypassed < k {
      assert a[0] == b[0] == 1.0 && a[1..][0] == a[1] == -1.0 && b[1..][0] == b[1] == 0.0;
    } else {
      assert a[0] == b[0] == 0.0 && a[1..][0] == a[1] == b[1] == b[1..][0];
      assert a[1..][1..][0] == a[2] == -1.0 && b[1..][1..][0] == b[2] == 0.0;
    }
  }

  /** After the turns of some robots: each but robot n has its zone, nothing is reserved before robot n's turn. */
  ghost predicate Granted(g: Grants, n: nat, p: nat, turns: seq<Robot>) {
    && (n !in turns ==> g.reserved == map[])
    && (forall r :: r in g.granted <==> r in turns && r != n)
    && (forall r :: r in g.granted ==> g.granted[r] == [r])
    && (forall l :: l in g.held <==> l.0 == l.1 && (p < l.1 < n || (l.1 in turns && l.1 != n)))
    && (forall l :: l in g.held ==> g.held[l] == None)
  }

  lemma OwnTaken(c: Config, n: nat, p: nat, m: State, i: Input, g: Grants, r: Robot, turns: seq<Robot>)
    requires Granted(g, n, p, turns) && r !in turns && n !in turns && 1 <= r <= p && Visiting(i, n, p, i.now)
    ensures Granted(GrantOne(c, m, i, g, r, [r]), n, p, turns + [r])
  {
    assert Grantable(c, i, g, r, [r]);
    assert [r][..0] == [];
    assert Give(i, g.held, r, [r]) == g.held[(r, r) := None];
  }

  lemma ChainRefused(c: Config, n: nat, p: nat, m: State, i: Input, g: Grants, turns: seq<Robot>)
    requires n >= 2 && Granted(g, n, p, turns) && n !in turns && Visiting(i, n, p, i.now)
    requires p < n - 1 || 1 in turns
    ensures Granted(GrantOne(c, m, i, g, n, Numbers(0, n - 1)), n, p, turns + [n])
  {
    var h := if p < n - 1 then n - 1 else 1;
    hide Numbers, BlockersOf, Give, Tokens.Reserve, Visiting;
    assert (h, h) in g.held && !SameWay(c, h, g.held[(h, h)], DirectionFor(i, n, h));
    assert !Compatible(c, g.held, h, n, DirectionFor(i, n, h));
    assert h in Numbers(0, n - 1);
  }

  lemma {:induction false} TurnsTaken(c: Config, n: nat, p: nat, m: State, i: Input, need: map<Robot, seq<Zone>>,
                                      q: seq<Robot>, x: nat)
    requires n >= 2 && p < n && Visiting(i, n, p, i.now) && Holds(m.held, n, p) && x <= |q| && Queued(need, q)
    requires forall r :: r in need ==> (1 <= r <= p || r == n) && need[r] == Ask(n, r).zones
    requires forall a :: 0 <= a < |q| && q[a] == n ==> a == |q| - 1 && (p == n - 1 ==> 1 in q[..a])
    ensures Granted(GrantAll(c, m, i, need, q, x), n, p, q[..x])
  {
    hide GrantOne, Visiting, Numbers;
    if x > 0 {
      TurnsTaken(c, n, p, m, i, need, q, x - 1);
      assert q[..x] == q[..x - 1] + [q[x - 1]];
      hide Granted, Holds;
      var g := GrantAll(c, m, i, need, q, x - 1);
      assert q[x - 1] in q;
      if q[x - 1] == n {
        ChainRefused(c, n, p, m, i, g, q[..x - 1]);
      } else {
        assert n !in q[..x - 1];
        OwnTaken(c, n, p, m, i, g, q[x - 1], q[..x - 1]);
      }
    }
  }

  /** Robots 1 to p get their zones again, robot n gets nothing. */
  ghost predicate OthersServed(g: Grants, n: nat, p: nat) {
    && Holds(g.held, n, 0)
    && (forall r :: r in g.granted <==> 1 <= r <= p) && forall r :: r in g.granted ==> g.granted[r] == [r]
  }

  lemma CycleGrants(c: Config, n: nat, k: nat, p: nat, m: State, since: real, bypassed: nat, i: Input)
    requires OneChain(c, n, k) && Visiting(i, n, p, i.now) && n >= 2
    requires Ready(m, n, p, since, bypassed, i.now) && Mild(k, p, bypassed, since, i.now)
    ensures OthersServed(Outcome(c, m, i), n, p)
  {
    AllNeeded(c, n, k, p, m, i);
    var need, q := Need(c, m, i), ServingOrder(c, m, i);
    InTurn(c, n, k, p, m, since, bypassed, i);
    hide Need, Queue, GrantAll, Numbers, Visiting, NeedAsked;
    Tells(c, n, p, m, i);
    TurnsTaken(c, n, p, m, i, need, q, |q|);
    assert q[..|q|] == q;
    hide Ready, OthersServed, Granted;
    AllServed(Outcome(c, m, i), n, p, q);
  }

  lemma AllServed(g: Grants, n: nat, p: nat, q: seq<Robot>)
    requires p < n && Granted(g, n, p, q) && forall r :: r in q <==> 1 <= r <= p || r == n
    ensures OthersServed(g, n, p)
  {
  }

  lemma Tells(c: Config, n: nat, p: nat, m: State, i: Input)
    requires Visiting(i, n, p, i.now) && NeedAsked(c, n, m, i)
    ensures p < n && i.Valid() && forall r :: r in Need(c, m, i) <==> 1 <= r <= p || r == n
    ensures forall r :: r in Need(c, m, i) ==> Need(c, m, i)[r] == Ask(n, r).zones
  {
    hide Need, Ask;
  }

  lemma InTurn(c: Config, n: nat, k: nat, p: nat, m: State, since: real, bypassed: nat, i: Input)
    requires OneChain(c, n, k) && Visiting(i, n, p, i.now) && NeedAsked(c, n, m, i) && n >= 2
    requires Ready(m, n, p, since, bypassed, i.now) && Mild(k, p, bypassed, since, i.now)
    ensures var q := ServingOrder(c, m, i);
            && Queued(Need(c, m, i), q) && (forall r :: r in q <==> 1 <= r <= p || r == n)
            && forall a :: 0 <= a < |q| && q[a] == n ==> a == |q| - 1 && (p > 0 ==> 1 in q[..a])
  {
    hide Need, KeyOf, LexLess, Queue, Ask, Holds;
    var need, q := Need(c, m, i), ServingOrder(c, m, i);
    QueueMembers(c, m, i, need, |i.order|);
    assert i.order[..|i.order|] == i.order;
    forall r | 1 <= r <= p ensures LexLess(KeyOf(c, m, i, r), KeyOf(c, m, i, n)) {
      OthersFirst(c, n, k, p, m, since, bypassed, i, r);
    }
    ServedLast(c, m, i, p, q, n);
  }

  lemma ServedLast(c: Config, m: State, i: Input, p: nat, q: seq<Robot>, n: nat)
    requires Ordered(c, m, i, q) && forall r :: r in q <==> 1 <= r <= p || r == n
    requires p < n && forall r :: 1 <= r <= p ==> LexLess(KeyOf(c, m, i, r), KeyOf(c, m, i, n))
    ensures forall a :: 0 <= a < |q| && q[a] == n ==> a == |q| - 1 && (p > 0 ==> 1 in q[..a])
  {
    hide KeyOf, LexLess;
    forall a | 0 <= a < |q| && q[a] == n ensures a == |q| - 1 && (p > 0 ==> 1 in q[..a]) {
      if a < |q| - 1 {
        NotSooner(c, m, i, q, a, a + 1);
        assert false;
      }
      if p > 0 {
        assert 1 in q;
        var b :| 0 <= b < |q| && q[b] == 1;
      }
    }
  }

  lemma NotSooner(c: Config, m: State, i: Input, q: seq<Robot>, a: nat, b: nat)
    requires Ordered(c, m, i, q) && a < b < |q|
    ensures q[b] != q[a] && q[b] in q && !LexLess(KeyOf(c, m, i, q[b]), KeyOf(c, m, i, q[a]))
  {
  }

  ghost function Upto(p: nat): (s: set<Robot>)
    ensures |s| == p && forall r :: r in s <==> 1 <= r <= p
  {
    if p == 0 then {} else Upto(p - 1) + {p}
  }

  /** Robots 1 to p pass robot n, which counts if they asked later. */
  lemma Passers(c: Config, n: nat, k: nat, p: nat, m: State, since: real, bypassed: nat, i: Input)
    requires OneChain(c, n, k) && Visiting(i, n, p, i.now) && n >= 2
    requires Ready(m, n, p, since, bypassed, i.now) && Waits(c, m, i) && Mild(k, p, bypassed, since, i.now) && since <= i.now
    ensures LeftWaiting(c, m, i, n) && Passing(c, m, i, n) == Upto(p)
    ensures Overtakers(m, Need(c, m, i), Outcome(c, m, i).granted, n) == if since < i.now then Upto(p) else {}
  {
    CycleGrants(c, n, k, p, m, since, bypassed, i);
    AllNeeded(c, n, k, p, m, i);
    hide Need, Outcome, Overlap, Numbers, Upto, Overtakers, OneChain, NeedAsked, Visiting;
    Tells(c, n, p, m, i);
    forall r | 1 <= r <= p ensures Overlap([r], Numbers(0, n - 1)) {
      Shared(Numbers(0, n - 1), r);
    }
    hide Waits, LeftWaiting, Passing, Ready, OthersServed;
    Counting(m, Need(c, m, i), Outcome(c, m, i), n, p, since, bypassed, i.now);
    PassedBy(c, m, i, n, p, since, bypassed);
  }

  lemma PassedBy(c: Config, m: State, i: Input, n: nat, p: nat, since: real, bypassed: nat)
    requires p < n && Ready(m, n, p, since, bypassed, i.now) && Waits(c, m, i)
    requires n in Need(c, m, i) && Need(c, m, i)[n] == Numbers(0, n - 1) && OthersServed(Outcome(c, m, i), n, p)
    requires forall r :: 1 <= r <= p ==> Overlap([r], Numbers(0, n - 1))
    ensures LeftWaiting(c, m, i, n) && Passing(c, m, i, n) == Upto(p)
  {
    hide Need, Outcome, Overlap, Numbers, Upto;
  }

  lemma Counting(m: State, need: map<Robot, seq<Zone>>, g: Grants, n: nat, p: nat, since: real, bypassed: nat, now: real)
    requires p < n && Ready(m, n, p, since, bypassed, now) && n in need && need[n] == Numbers(0, n - 1)
    requires OthersServed(g, n, p) && since <= now
    requires forall r :: 1 <= r <= p ==> Overlap([r], Numbers(0, n - 1))
    ensures Overtakers(m, need, g.granted, n) == if since < now then Upto(p) else {}
  {
    hide Overlap, Numbers, Upto, Holds;
    var over := Overtakers(m, need, g.granted, n);
    if since < now {
      assert forall r :: r in Upto(p) ==> r in over;
      assert over == Upto(p);
    } else {
      if over != {} {
        var o := Pick(over);
        assert false;
      }
    }
  }

  /** Every zone is held, and all but robots 1 to p have been inside. */
  ghost predicate After(s: State, n: nat, p: nat, since: real, bypassed: nat) {
    && Holds(s.held, n, 0) && (forall l :: l in s.entered <==> l.0 == l.1 && p < l.1 < n)
    && s.waits.Keys == {n} && Longing(s, n, since, bypassed)
  }

  /** One cycle: robots 1 to p pass robot n; then every zone is held again. */
  lemma Cycle(c: Config, n: nat, k: nat, p: nat, s: State, since: real, bypassed: nat, i: Input)
    requires OneChain(c, n, k) && Visiting(i, n, p, i.now) && n >= 2
    requires Before(s, n, p, since, bypassed, i.now) && Mild(k, p, bypassed, since, i.now)
    ensures var m := Prepared(c, s, i);
            && LeftWaiting(c, m, i, n) && m.waits[n].since == since && m.waits[n].bypassed == bypassed
            && |Passing(c, m, i, n)| == p
            && After(Updated(c, s, i), n, p, since, if since < i.now then bypassed + p else bypassed)
  {
    var m := Prepared(c, s, i);
    Arrived(c, n, k, p, s, since, bypassed, i);
    CycleGrants(c, n, k, p, m, since, bypassed, i);
    Passers(c, n, k, p, m, since, bypassed, i);
    CycleWait(m, n, p, since, bypassed, i.now);
    VisitingFew(i, n, p);
    hide Need, Outcome, Prepared, LeftWaiting, Passing, Overtakers, Numbers, Upto, Visiting, Before, OneChain, After, Holds, Ready,
      OthersServed, Waits, Mild;
    assert Updated(c, s, i) == Finished(c, m, i);
    Ending(c, n, p, m, since, bypassed, i);
  }

  lemma CycleWait(m: State, n: nat, p: nat, since: real, bypassed: nat, now: real)
    requires Ready(m, n, p, since, bypassed, now)
    ensures n in m.waits && m.waits[n].since == since && m.waits[n].bypassed == bypassed
  {
  }

  lemma VisitingFew(i: Input, n: nat, p: nat)
    requires Visiting(i, n, p, i.now)
    ensures p < n && i.Valid()
  {
  }

  lemma Ending(c: Config, n: nat, p: nat, m: State, since: real, bypassed: nat, i: Input)
    requires p < n && Ready(m, n, p, since, bypassed, i.now) && OthersServed(Outcome(c, m, i), n, p)
    requires Overtakers(m, Need(c, m, i), Outcome(c, m, i).granted, n) == if since < i.now then Upto(p) else {}
    ensures After(Finished(c, m, i), n, p, since, if since < i.now then bypassed + p else bypassed)
  {
    hide Need, Outcome, Overtakers, Numbers, Upto;
    var s := Finished(c, m, i);
    assert s.waits.Keys == {n};
  }

  /** Robots 1 to p can come out after a cycle in which all were inside. */
  lemma Again(s: State, n: nat, p: nat, since: real, bypassed: nat, now: real, p': nat)
    requires After(s, n, p, since, bypassed) && since < now && p' < n && (p == 0 || p' == 0)
    ensures Before(s, n, p', since, bypassed, now)
  {
  }

  // ---------------------------------------------------------------- the whole run

  function Chain(n: nat, k: nat): (c: Config)
    requires n > 0
    ensures OneChain(c, n, k)
  {
    var zones := Numbers(0, n - 1);
    Config(map z | z in zones :: false, k, 1.0)
  }

  function Insides(robots: seq<Robot>): (q: seq<Slot>)
    ensures |q| == |robots| && forall j :: 0 <= j < |q| ==> q[j] == (robots[j], robots[j])
  {
    seq(|robots|, j requires 0 <= j < |robots| => (robots[j], robots[j]))
  }

  lemma InsideAll(robots: seq<Robot>)
    ensures forall k :: k in Insides(robots) <==> k.0 == k.1 && k.1 in robots
  {
    forall k: Slot | k.0 == k.1 && k.1 in robots ensures k in Insides(robots) {
      var j :| 0 <= j < |robots| && robots[j] == k.1;
      assert Insides(robots)[j] == k;
    }
  }

  lemma FewAsk(requests: map<Robot, Request>, n: nat)
    requires forall r :: r in requests ==> 1 <= r <= n
    ensures |requests| <= n
  {
    SubsetSize(requests.Keys, Upto(n));
    assert |requests.Keys| == |requests|;
  }

  function Ahead(requests: map<Robot, Request>): map<Robot, set<Zone>> {
    map r | r in requests :: Zones(requests[r].zones)
  }

  function Zones(zones: seq<Zone>): set<Zone> {
    set z | z in zones
  }

  function Visit(n: nat, p: nat, now: real): (i: Input)
    requires p < n
    ensures Visiting(i, n, p, now)
  {
    var order := Numbers(0, p) + [n];
    var requests := map r | r in order :: Ask(n, r);
    FewAsk(requests, n);
    InsideAll(Numbers(p, n - 1));
    Input(now, order, requests, Insides(Numbers(p, n - 1)), Ahead(requests), map[], {})
  }

  function Plain(i: Input): Turn {
    Turn([], i)
  }

  /** Robot 1 leaves and comes back j times; at last everybody leaves and comes back at once. */
  function Returns(n: nat, j: nat, now: real): seq<Turn>
    requires n >= 2
  {
    [Plain(Visit(n, 0, now)), Plain(Visit(n, if j == 0 then n - 1 else 1, now + 1.0))] +
    if j == 0 then [] else Returns(n, j - 1, now + 2.0)
  }

  /** Robot 1 is forgotten, and seen again and given its zone by an immediate reservation before the next cycle. */
  function Jump(n: nat, now: real): Turn
    requires n >= 2
  {
    Turn([Forget(1), Reserve(1, [1], map[])], Visit(n, 0, now))
  }

  /** r such reservations, then the rest. */
  function JumpsThen(n: nat, r: nat, now: real, rest: seq<Turn>): seq<Turn>
    requires n >= 2
  {
    if r == 0 then rest else [Jump(n, now)] + JumpsThen(n, r - 1, now + 1.0, rest)
  }

  function Tail(n: nat, k: nat, now: real): seq<Turn>
    requires n >= 2
  {
    if k == 0 then [] else Returns(n, k - 1, now)
  }

  function WorstRun(n: nat, k: nat, r: nat): seq<Turn>
    requires n >= 2
  {
    [Plain(Visit(n, n - 1, 0.0))] + JumpsThen(n, r, 1.0, Tail(n, k, 1.0 + r as real))
  }

  function Count(turns: seq<Turn>): nat {
    if turns == [] then 0 else Reservations(turns[0].steps) + Count(turns[1..])
  }

  function Reservations(steps: seq<Step>): nat {
    if steps == [] then 0 else Reservations(steps[..|steps| - 1]) + if steps[|steps| - 1].Reserve? then 1 else 0
  }

  /** The waits, the grants that pass w and the reservations of a run with one more turn in front. */
  lemma Prepend(m: Manager, t: Turn, rest: seq<Turn>, w: Robot, since: real, n: nat)
    requires var b := AfterSteps(m, t.steps);
             var p := Prepared(b.c, b.s, t.input);
             && LeftWaiting(b.c, p, t.input, w) && p.waits[w].since == since && |t.input.requests| <= n
             && KeepsWaiting(Cycled(b, t.input), rest, w, since, n, None)
    requires MaySteps(m, t.steps) && (rest != [] ==> since < rest[0].input.now)
    ensures KeepsWaiting(m, [t] + rest, w, since, n, None)
    ensures var b := AfterSteps(m, t.steps);
            && Passed(m, [t] + rest, w) ==
                 |Passing(b.c, Prepared(b.c, b.s, t.input), t.input, w)| + Passed(Cycled(b, t.input), rest, w)
            && Jumped(m, [t] + rest, w) == JumpsIn(m, t.steps, w) + Jumped(Cycled(b, t.input), rest, w)
            && Count([t] + rest) == Reservations(t.steps) + Count(rest)
  {
    hide Prepared, LeftWaiting, Cycled, Passing, AfterSteps, MaySteps, JumpsIn, Reservations;
    assert ([t] + rest)[1..] == rest;
  }

  lemma PrependPlain(m: Manager, i: Input, rest: seq<Turn>, w: Robot, since: real, n: nat)
    requires var p := Prepared(m.c, m.s, i);
             && LeftWaiting(m.c, p, i, w) && p.waits[w].since == since && |i.requests| <= n
             && KeepsWaiting(Cycled(m, i), rest, w, since, n, None)
    requires rest != [] ==> since < rest[0].input.now
    ensures KeepsWaiting(m, [Plain(i)] + rest, w, since, n, None)
    ensures Passed(m, [Plain(i)] + rest, w) == |Passing(m.c, Prepared(m.c, m.s, i), i, w)| + Passed(Cycled(m, i), rest, w)
    ensures Jumped(m, [Plain(i)] + rest, w) == Jumped(Cycled(m, i), rest, w) && Count([Plain(i)] + rest) == Count(rest)
  {
    NoSteps(m, w);
    hide AfterSteps, MaySteps, JumpsIn, Reservations, Prepared, LeftWaiting, Cycled, Passing;
    Prepend(m, Plain(i), rest, w, since, n);
  }

  lemma NoSteps(m: Manager, w: Robot)
    ensures AfterSteps(m, []) == m && MaySteps(m, []) && JumpsIn(m, [], w) == 0 && Reservations([]) == 0
  {
  }

  lemma {:induction false} ReturnsPass(n: nat, k: nat, j: nat, m: Manager, p: nat, since: real, now: real)
    requires n >= 2 && j < k && (p <= 1 || p == n - 1) && After(m.s, n, p, since, k - 1 - j) && since < now && m.c == Chain(n, k)
    ensures KeepsWaiting(m, Returns(n, j, now), n, since, n, None)
    ensures Passed(m, Returns(n, j, now), n) == j + n - 1 && Jumped(m, Returns(n, j, now), n) == 0
    ensures Count(Returns(n, j, now)) == 0
  {
    hide Visit, Visiting, OneChain, Before, After, Prepared, Updated, LeftWaiting, Passing, Chain, Plain;
    var c, p' := Chain(n, k), if j == 0 then n - 1 else 1;
    var i, i' := Visit(n, 0, now), Visit(n, p', now + 1.0);
    var rest := if j == 0 then [] else Returns(n, j - 1, now + 2.0);
    Times(n, now, p');
    Again(m.s, n, p, since, k - 1 - j, now, 0);
    Cycle(c, n, k, 0, m.s, since, k - 1 - j, i);
    var m' := Cycled(m, i);
    Again(m'.s, n, 0, since, k - 1 - j, now + 1.0, p');
    Cycle(c, n, k, p', m'.s, since, k - 1 - j, i');
    if j > 0 {
      ReturnsPass(n, k, j - 1, Cycled(m', i'), 1, since, now + 2.0);
      Times(n, now + 2.0, 0);
      ReturnsBegin(n, j - 1, now + 2.0);
    }
    hide Returns;
    PrependPlain(m', i', rest, n, since, n);
    PlainNow(i');
    PrependPlain(m, i, [Plain(i')] + rest, n, since, n);
    ReturnsAre(n, j, now);
    assert [Plain(i)] + ([Plain(i')] + rest) == [Plain(i), Plain(i')] + rest;
  }

  lemma ReturnsAre(n: nat, j: nat, now: real)
    requires n >= 2
    ensures Returns(n, j, now) ==
              [Plain(Visit(n, 0, now)), Plain(Visit(n, if j == 0 then n - 1 else 1, now + 1.0))] +
              if j == 0 then [] else Returns(n, j - 1, now + 2.0)
  {
  }

  lemma PlainNow(i: Input)
    ensures Plain(i).input == i
  {
  }

  lemma Times(n: nat, now: real, p: nat)
    requires p < n
    ensures Visit(n, 0, now).now == now && |Visit(n, 0, now).requests| <= n
    ensures Visit(n, p, now + 1.0).now == now + 1.0 && |Visit(n, p, now + 1.0).requests| <= n
  {
  }

  lemma ReturnsBegin(n: nat, j: nat, now: real)
    requires n >= 2
    ensures Returns(n, j, now) != [] && Returns(n, j, now)[0].input.now == now
  {
  }

  // ---------------------------------------------------------------- reservations

  /** Forgotten and given its zone again, robot 1 has passed robot n, and all else is as it was. */
  lemma JumpSteps(n: nat, k: nat, m: Manager, p: nat, since: real, bypassed: nat, now: real)
    requires n >= 2 && After(m.s, n, p, since, bypassed) && since < now && m.c == Chain(n, k)
    ensures var steps := [Forget(1), Reserve(1, [1], map[])];
            var b := AfterSteps(m, steps);
            && Before(b.s, n, 0, since, bypassed, now) && b.c == m.c && MaySteps(m, steps)
            && JumpsIn(m, steps, n) == 1 && Reservations(steps) == 1
  {
    var steps := [Forget(1), Reserve(1, [1], map[])];
    var f := m.(s := Forgotten(m.s, 1));
    assert steps[..1] == [Forget(1)] && [Forget(1)][..0] == [];
    assert AfterSteps(m, []) == m;
    assert AfterSteps(m, [Forget(1)]) == f;
    JumpReserves(n, k, m, p, since, bypassed, f);
    hide Chain, Numbers, Jumps, Reserved, Forgotten, After, Before;
    assert AfterSteps(m, steps) == Stepped(f, Reserve(1, [1], map[]));
    JumpedState(n, m, p, since, bypassed, f, now);
    assert JumpsIn(m, [], n) == 0;
    ForgetNoJump(m, n);
    assert JumpsIn(m, [Forget(1)], n) == 0;
    assert Reservations([]) == 0 && Reservations([Forget(1)]) == 0;
    assert MaySteps(m, []) && MaySteps(m, [Forget(1)]);
  }

  lemma ForgetNoJump(m: Manager, w: Robot)
    ensures !Jumps(m, Forget(1), w)
  {
  }

  lemma JumpReserves(n: nat, k: nat, m: Manager, p: nat, since: real, bypassed: nat, f: Manager)
    requires n >= 2 && After(m.s, n, p, since, bypassed) && m.c == Chain(n, k) && f == m.(s := Forgotten(m.s, 1))
    ensures ToReserve(f.c, f.s, 1, [1]) == [1] && CanReserve(f.c, f.s, 1, [1], map[])
    ensures Jumps(f, Reserve(1, [1], map[]), n)
  {
    hide Numbers;
    assert [1][1..] == [];
    assert 1 in Numbers(0, n - 1);
    Shared(Numbers(0, n - 1), 1);
    assert Missing(f.c, f.s.held, 1, []) == [];
    assert Missing(f.c, f.s.held, 1, [1]) == [1];
  }

  lemma JumpedState(n: nat, m: Manager, p: nat, since: real, bypassed: nat, f: Manager, now: real)
    requires n >= 2 && After(m.s, n, p, since, bypassed) && f == m.(s := Forgotten(m.s, 1)) && since < now
    requires ToReserve(f.c, f.s, 1, [1]) == [1] && CanReserve(f.c, f.s, 1, [1], map[])
    ensures var b := Stepped(f, Reserve(1, [1], map[])); Before(b.s, n, 0, since, bypassed, now) && b.c == m.c
  {
    hide ToReserve, CanReserve, Numbers, Reserved;
    ReservedOne(f.c, f.s, 1, 1);
    assert f.s.waits == m.s.waits && f.s.waits.Keys == {n};
  }

  lemma ReservedOne(c: Config, s: State, r: Robot, z: Zone)
    requires ToReserve(c, s, r, [z]) == [z] && CanReserve(c, s, r, [z], map[])
    ensures Reserved(c, s, r, [z], map[]) == s.(held := s.held[(z, r) := None])
  {
    hide ToReserve, CanReserve;
    assert forall y :: y in [z] <==> y == z;
    assert Reserved(c, s, r, [z], map[]).held == s.held[(z, r) := None];
  }

  lemma {:induction false} JumpsPass(n: nat, k: nat, r: nat, m: Manager, p: nat, since: real, now: real)
    requires n >= 2 && (p == 0 || p == n - 1) && After(m.s, n, p, since, 0) && since < now && m.c == Chain(n, k)
    ensures var turns := JumpsThen(n, r, now, Tail(n, k, now + r as real));
            && KeepsWaiting(m, turns, n, since, n, None)
            && Passed(m, turns, n) == (if k == 0 then 0 else k + n - 2) && Jumped(m, turns, n) == r && Count(turns) == r
  {
    hide Visit, Visiting, OneChain, Before, After, Prepared, Updated, LeftWaiting, Passing, Chain, Plain, Returns, JumpsIn, MaySteps,
      AfterSteps, Reservations;
    if r > 0 {
      var t := Jump(n, now);
      var rest := JumpsThen(n, r - 1, now + 1.0, Tail(n, k, now + r as real));
      assert now + r as real == now + 1.0 + (r - 1) as real;
      JumpSteps(n, k, m, p, since, 0, now);
      Times(n, now, 0);
      var b := AfterSteps(m, t.steps);
      Cycle(b.c, n, k, 0, b.s, since, 0, t.input);
      JumpsPass(n, k, r - 1, Cycled(b, t.input), 0, since, now + 1.0);
      JumpsBegin(n, k, r - 1, now + 1.0);
      Prepend(m, t, rest, n, since, n);
    } else if k > 0 {
      ReturnsPass(n, k, k - 1, m, p, since, now);
    }
  }

  lemma JumpsBegin(n: nat, k: nat, r: nat, now: real)
    requires n >= 2
    ensures var turns := JumpsThen(n, r, now, Tail(n, k, now + r as real)); turns != [] ==> turns[0].input.now == now
  {
    if k > 0 {
      ReturnsBegin(n, k - 1, now + r as real);
    }
  }

  /** The wait of w begins with the first cycle and lasts through all of them, with at most n robots asking. */
  ghost predicate WholeWaiting(m: Manager, turns: seq<Turn>, w: Robot, since: real, n: nat) {
    && Fine(m) && turns != [] && KeepsWaiting(m, turns, w, since, n, None)
    && FirstPrepared(m, turns).waits[w].bypassed == 0
  }

  /** All that passes w: grants in cycles, and reservations between them. */
  ghost function AllPassed(m: Manager, turns: seq<Turn>, w: Robot): nat {
    Passed(m, turns, w) + Jumped(m, turns, w)
  }

  function Empty(n: nat, k: nat): Manager
    requires n > 0
  {
    Manager(Chain(n, k), State(map[], {}, map[], 0))
  }

  /** The most often a robot can be passed, among n asking robots and with at most r reservations. */
  function Worst(n: nat, k: nat, r: nat): int {
    (if k == 0 then 0 else k + n - 2) + n - 1 + r
  }

  /** From an empty table on, robot n of n robots can be passed as often as the bound on waits allows. */
  lemma WorstRunPasses(n: nat, k: nat, r: nat)
    requires n >= 2
    ensures WholeWaiting(Empty(n, k), WorstRun(n, k, r), n, 0.0, n) && Count(WorstRun(n, k, r)) == r
    ensures AllPassed(Empty(n, k), WorstRun(n, k, r), n) == Worst(n, k, r)
  {
    hide Visit, Prepared, Updated, LeftWaiting, Passing, Chain, After, KeepsWaiting, Passed, Jumped, Count, Tail, JumpsThen, Plain;
    var m, i := Empty(n, k), Visit(n, n - 1, 0.0);
    var rest := JumpsThen(n, r, 1.0, Tail(n, k, 1.0 + r as real));
    Cycle(m.c, n, k, n - 1, m.s, 0.0, 0, i);
    JumpsPass(n, k, r, Cycled(m, i), n - 1, 0.0, 1.0);
    JumpsBegin(n, k, r, 1.0);
    PrependPlain(m, i, rest, n, 0.0, n);
    FirstPlain(m, i, rest);
  }

  lemma FirstPlain(m: Manager, i: Input, rest: seq<Turn>)
    ensures FirstPrepared(m, [Plain(i)] + rest) == Prepared(m.c, m.s, i)
  {
    NoSteps(m, 0);
  }

  // ---------------------------------------------------------------- the bound

  /**
   No robot is passed more often during a wait, whatever the zones, the state, the run and the waiting
   robot, with at most n robots asking in a cycle and at most r immediate reservations between cycles.
   */
  ghost predicate Bounded(n: nat, k: nat, r: nat, bound: int) {
    forall m: Manager, turns, w, since ::
      m.c.maxBypass == k && WholeWaiting(m, turns, w, since, n) && Count(turns) <= r ==> AllPassed(m, turns, w) <= bound
  }

  lemma {:induction false} JumpsFew(m: Manager, steps: seq<Step>, w: Robot)
    ensures JumpsIn(m, steps, w) <= Reservations(steps)
  {
    hide AfterSteps;
    if steps != [] {
      JumpsFew(m, steps[..|steps| - 1], w);
    }
  }

  lemma {:induction false} JumpedFew(m: Manager, turns: seq<Turn>, w: Robot)
    ensures Jumped(m, turns, w) <= Count(turns)
    decreases |turns|
  {
    hide FirstDone, JumpsIn;
    if turns != [] {
      JumpsFew(m, turns[0].steps, w);
      JumpedFew(FirstDone(m, turns), turns[1..], w);
    }
  }

  /** Every wait stays within the bound. */
  lemma WaitBounded(m: Manager, turns: seq<Turn>, w: Robot, since: real, n: nat)
    requires WholeWaiting(m, turns, w, since, n)
    ensures AllPassed(m, turns, w) <= Worst(n, m.c.maxBypass, Count(turns))
  {
    hide KeepsWaiting, Passed, Jumped, FirstPrepared, Fine, Count, AfterTurns;
    WholeWait(m, turns, w, since, n, None);
    JumpedFew(m, turns, w);
  }

  /** For two or more robots the least bound that holds, with any number of reservations. */
  lemma LeastBound(n: nat, k: nat, r: nat, bound: int)
    requires n >= 2
    ensures Bounded(n, k, r, bound) <==> bound >= Worst(n, k, r)
  {
    hide WorstRun, WholeWaiting, AllPassed, Chain, Count;
    WorstRunPasses(n, k, r);
    assert Empty(n, k).c.maxBypass == k by { assert OneChain(Chain(n, k), n, k); }
    forall m: Manager, turns, w, since | m.c.maxBypass == k && WholeWaiting(m, turns, w, since, n) && Count(turns) <= r
      ensures AllPassed(m, turns, w) <= Worst(n, k, r)
    {
      WaitBounded(m, turns, w, since, n);
    }
  }

  /** The documented bound holds exactly without reservations, and then for two robots or if nobody may be overtaken. */
  lemma AdvertisedExactly(n: nat, k: nat, r: nat)
    requires n >= 2
    ensures Bounded(n, k, r, k + n - 1) <==> r == 0 && (n == 2 || k == 0)
  {
    hide Bounded;
    LeastBound(n, k, r, k + n - 1);
  }
}
