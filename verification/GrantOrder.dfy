/** Who is served first in the grant phase, on the fields of waits and requests, and who is granted because of it. */
module GrantOrder {
  import opened Options
  import opened Tokens
  import opened TokenSafety
  import opened Overtaking

  /** What counts when two robots compete. */
  datatype Claim = Claim(starved: bool, since: real, priority: int, deadline: Option<real>, number: int, robot: Robot)

  /** The claim of a robot that waits with a request. */
  function ClaimOf(c: Config, m: State, i: Input, r: Robot): Claim
    requires r in m.waits && r in i.requests
  {
    var w, q := m.waits[r], i.requests[r];
    Claim(w.bypassed >= c.maxBypass, w.since, q.priority, q.deadline, w.number, r)
  }

  /** An earlier deadline; none is the latest. */
  ghost predicate Sooner(a: Option<real>, b: Option<real>) {
    a.Some? && (b == None || a.value < b.value)
  }

  /** Equal in what comes first, the request that came earlier goes first; robots of one cycle by id. */
  ghost predicate CameEarlier(x: Claim, y: Claim) {
    x.number < y.number || (x.number == y.number && x.robot < y.robot)
  }

  ghost predicate MoreUrgent(x: Claim, y: Claim) {
    x.priority > y.priority || (x.priority == y.priority && Sooner(x.deadline, y.deadline))
  }

  ghost predicate SameUrgency(x: Claim, y: Claim) {
    x.priority == y.priority && x.deadline == y.deadline
  }

  /**
   Starved robots go first, the longest waiting before the others, then the more urgent;
   after them the more urgent, and among equals the longest waiting.
   */
  ghost predicate Precedes(x: Claim, y: Claim) {
    if x.starved != y.starved then x.starved
    else if x.starved then
      || x.since < y.since
      || (x.since == y.since && MoreUrgent(x, y))
      || (x.since == y.since && SameUrgency(x, y) && CameEarlier(x, y))
    else
      || MoreUrgent(x, y)
      || (SameUrgency(x, y) && x.since < y.since)
      || (SameUrgency(x, y) && x.since == y.since && CameEarlier(x, y))
  }

  /** Of two different robots exactly one precedes the other, and precedence has no circles. */
  lemma PrecedesTotal(x: Claim, y: Claim, z: Claim)
    ensures !Precedes(x, x)
    ensures x.robot != y.robot ==> (Precedes(x, y) <==> !Precedes(y, x))
    ensures Precedes(x, y) && Precedes(y, z) ==> Precedes(x, z)
  {
  }

  // ---------------------------------------------------------------- sort keys

  lemma LexHead(x: real, a: seq<real>, y: real, b: seq<real>)
    ensures LexLess([x] + a, [y] + b) <==> x < y || (x == y && LexLess(a, b))
  {
    assert ([x] + a)[1..] == a && ([y] + b)[1..] == b;
  }

  function Late(deadline: Option<real>): seq<real> {
    if deadline.Some? then [0.0, deadline.value] else [1.0, 0.0]
  }

  lemma LexDeadline(x: Option<real>, a: seq<real>, y: Option<real>, b: seq<real>)
    ensures LexLess(Late(x) + a, Late(y) + b) <==> Sooner(x, y) || (x == y && LexLess(a, b))
  {
    var (x0, x1) := if x.Some? then (0.0, x.value) else (1.0, 0.0);
    var (y0, y1) := if y.Some? then (0.0, y.value) else (1.0, 0.0);
    assert Late(x) + a == [x0] + ([x1] + a) && Late(y) + b == [y0] + ([y1] + b);
    LexHead(x0, [x1] + a, y0, [y1] + b);
    LexHead(x1, a, y1, b);
  }

  lemma LexArrival(x: Claim, y: Claim)
    ensures LexLess([x.number as real, x.robot as real], [y.number as real, y.robot as real]) <==> CameEarlier(x, y)
  {
    var a, b := [x.robot as real], [y.robot as real];
    assert [x.number as real, x.robot as real] == [x.number as real] + a;
    assert [y.number as real, y.robot as real] == [y.number as real] + b;
    LexHead(x.number as real, a, y.number as real, b);
    assert a == [x.robot as real] + [] && b == [y.robot as real] + [];
    LexHead(x.robot as real, [], y.robot as real, []);
  }

  function StarvedKey(x: Claim): seq<real> {
    [0.0] + ([x.since] + ([-(x.priority as real)] + (Late(x.deadline) + [x.number as real, x.robot as real])))
  }

  function PlainKey(x: Claim): seq<real> {
    [1.0] + ([-(x.priority as real)] + (Late(x.deadline) + ([x.since] + [x.number as real, x.robot as real])))
  }

  lemma LexStarved(x: Claim, y: Claim)
    requires x.starved && y.starved
    ensures LexLess(StarvedKey(x), StarvedKey(y)) <==> Precedes(x, y)
  {
    hide LexLess, Late;
    var a, b := [x.number as real, x.robot as real], [y.number as real, y.robot as real];
    LexArrival(x, y);
    LexDeadline(x.deadline, a, y.deadline, b);
    LexHead(-(x.priority as real), Late(x.deadline) + a, -(y.priority as real), Late(y.deadline) + b);
    var p, q := [-(x.priority as real)] + (Late(x.deadline) + a), [-(y.priority as real)] + (Late(y.deadline) + b);
    LexHead(x.since, p, y.since, q);
    LexHead(0.0, [x.since] + p, 0.0, [y.since] + q);
  }

  lemma LexPlain(x: Claim, y: Claim)
    requires !x.starved && !y.starved
    ensures LexLess(PlainKey(x), PlainKey(y)) <==> Precedes(x, y)
  {
    hide LexLess, Late;
    var a, b := [x.number as real, x.robot as real], [y.number as real, y.robot as real];
    LexArrival(x, y);
    LexHead(x.since, a, y.since, b);
    LexDeadline(x.deadline, [x.since] + a, y.deadline, [y.since] + b);
    var p, q := Late(x.deadline) + ([x.since] + a), Late(y.deadline) + ([y.since] + b);
    LexHead(-(x.priority as real), p, -(y.priority as real), q);
    LexHead(1.0, [-(x.priority as real)] + p, 1.0, [-(y.priority as real)] + q);
  }

  lemma KeyIs(c: Config, m: State, i: Input, r: Robot)
    requires r in m.waits && r in i.requests
    ensures var x := ClaimOf(c, m, i, r);
            KeyOf(c, m, i, r) == if x.starved then StarvedKey(x) else PlainKey(x)
  {
  }

  /** Sort keys are ordered exactly as the claims precede each other. */
  lemma KeysPrecede(c: Config, m: State, i: Input, a: Robot, b: Robot)
    requires a in m.waits && a in i.requests && b in m.waits && b in i.requests
    ensures LexLess(KeyOf(c, m, i, a), KeyOf(c, m, i, b)) <==> Precedes(ClaimOf(c, m, i, a), ClaimOf(c, m, i, b))
  {
    hide KeyOf, StarvedKey, PlainKey, LexLess;
    var x, y := ClaimOf(c, m, i, a), ClaimOf(c, m, i, b);
    KeyIs(c, m, i, a);
    KeyIs(c, m, i, b);
    if x.starved == y.starved {
      if x.starved {
        LexStarved(x, y);
      } else {
        LexPlain(x, y);
      }
    } else {
      StarvedKeyFirst(x, y);
      StarvedKeyFirst(y, x);
    }
  }

  lemma StarvedKeyFirst(x: Claim, y: Claim)
    ensures LexLess(StarvedKey(x), PlainKey(y)) && !LexLess(PlainKey(y), StarvedKey(x))
  {
    var a := [x.since] + ([-(x.priority as real)] + (Late(x.deadline) + [x.number as real, x.robot as real]));
    var b := [-(y.priority as real)] + (Late(y.deadline) + ([y.since] + [y.number as real, y.robot as real]));
    LexHead(0.0, a, 1.0, b);
    LexHead(1.0, b, 0.0, a);
  }

  // ---------------------------------------------------------------- the serving order

  /** a is served before b. */
  ghost predicate Before(c: Config, m: State, i: Input, a: Robot, b: Robot) {
    && a in m.waits && a in i.requests && b in m.waits && b in i.requests
    && Precedes(ClaimOf(c, m, i, a), ClaimOf(c, m, i, b))
  }

  /** The needing robots are served in the one order in which each precedes the next. */
  lemma ServedByClaims(c: Config, m: State, i: Input)
    requires Waits(c, m, i)
    ensures var q := ServingOrder(c, m, i);
            && Queued(Need(c, m, i), q)
            && (forall r :: r in q <==> r in Need(c, m, i))
            && (forall a, b :: 0 <= a < |q| && 0 <= b < |q| ==> (a < b <==> Before(c, m, i, q[a], q[b])))
  {
    hide KeyOf, LexLess, Precedes, Need, Queue;
    var need, q := Need(c, m, i), ServingOrder(c, m, i);
    QueueMembers(c, m, i, need, |i.order|);
    assert i.order[..|i.order|] == i.order;
    forall r | r in need ensures r in i.order && r in i.requests {
      InRequests(c, m, i, r);
    }
    forall a, b | 0 <= a < b < |q| ensures Before(c, m, i, q[a], q[b]) && !Before(c, m, i, q[b], q[a]) {
      assert q[a] in q && q[b] in q;
      KeysPrecede(c, m, i, q[b], q[a]);
      var x, y := ClaimOf(c, m, i, q[a]), ClaimOf(c, m, i, q[b]);
      PrecedesTotal(x, y, x);
    }
    forall a | 0 <= a < |q| ensures !Before(c, m, i, q[a], q[a]) {
      assert q[a] in q;
      var x := ClaimOf(c, m, i, q[a]);
      PrecedesTotal(x, x, x);
    }
  }

  // ---------------------------------------------------------------- who is granted

  /** b keeps zone z for itself: it is starved, needs the zone, and is not granted. */
  ghost predicate Keeps(c: Config, m: State, need: map<Robot, seq<Zone>>, granted: set<Robot>, b: Robot, z: Zone) {
    b in m.waits && m.waits[b].bypassed >= c.maxBypass && b in need && z in need[b] && b !in granted
  }

  /** b has zone z: it held the zone before the grants, or it is one of those granted it. */
  ghost predicate Has(m: State, need: map<Robot, seq<Zone>>, granted: set<Robot>, b: Robot, z: Zone) {
    (z, b) in m.held || (b in granted && b in need && z in need[b])
  }

  /** The way b goes through zone z. */
  ghost function WayOf(m: State, i: Input, b: Robot, z: Zone): Direction {
    if (z, b) in m.held then m.held[(z, b)] else DirectionFor(i, b, z)
  }

  /** Who holds what after the first n turns, by who was granted in them. */
  ghost predicate HeldSo(m: State, i: Input, need: map<Robot, seq<Zone>>, g: Grants) {
    && (forall z, b :: (z, b) in g.held <==> Has(m, need, g.granted.Keys, b, z))
    && (forall z, b :: (z, b) in g.held ==> g.held[(z, b)] == WayOf(m, i, b, z))
  }

  /** What is reserved after the first n turns. */
  ghost predicate ReservedSo(c: Config, m: State, need: map<Robot, seq<Zone>>, q: seq<Robot>, n: nat, granted: set<Robot>,
                             reserved: map<Zone, Robot>)
    requires n <= |q|
  {
    && (forall j, z :: 0 <= j < n && Keeps(c, m, need, granted, q[j], z) ==> z in reserved)
    && (forall z :: z in reserved ==> FirstKeeper(c, m, need, granted, q, n, z, reserved[z]))
  }

  ghost predicate Turned(c: Config, m: State, i: Input, need: map<Robot, seq<Zone>>, q: seq<Robot>, n: nat, g: Grants)
    requires n <= |q|
  {
    && (forall r :: r in g.granted ==> r in q[..n])
    && HeldSo(m, i, need, g) && ReservedSo(c, m, need, q, n, g.granted.Keys, g.reserved)
  }

  /** b is the first in the queue to keep z for itself. */
  ghost predicate FirstKeeper(c: Config, m: State, need: map<Robot, seq<Zone>>, granted: set<Robot>, q: seq<Robot>, n: nat,
                              z: Zone, b: Robot)
    requires n <= |q|
  {
    Keeps(c, m, need, granted, b, z) &&
    exists j :: 0 <= j < n && q[j] == b && forall l :: 0 <= l < j ==> !Keeps(c, m, need, granted, q[l], z)
  }

  /** What is needed is not held. */
  ghost predicate NeedsNew(m: State, need: map<Robot, seq<Zone>>) {
    forall r, z :: r in need && z in need[r] ==> (z, r) !in m.held
  }

  lemma GiveWays(i: Input, held: map<Slot, Direction>, r: Robot, zones: seq<Zone>)
    ensures forall k :: k in Give(i, held, r, zones) <==> k in held || (k.1 == r && k.0 in zones)
    ensures forall k :: k in Give(i, held, r, zones) ==>
              Give(i, held, r, zones)[k] == if k.1 == r && k.0 in zones then DirectionFor(i, r, k.0) else held[k]
  {
    if zones != [] {
      GiveWays(i, held, r, zones[..|zones| - 1]);
      assert zones == zones[..|zones| - 1] + [zones[|zones| - 1]];
    }
  }

  lemma TurnedGranted(c: Config, m: State, i: Input, need: map<Robot, seq<Zone>>, q: seq<Robot>, n: nat, g: Grants)
    requires Queued(need, q) && NeedsNew(m, need) && n < |q| && Turned(c, m, i, need, q, n, g)
    requires Grantable(c, i, g, q[n], need[q[n]])
    ensures Turned(c, m, i, need, q, n + 1, GrantOne(c, m, i, g, q[n], need[q[n]]))
  {
    hide Grantable, Give, BlockersOf, DirectionFor, ReservedSo, HeldSo, NeedsNew;
    var r := q[n];
    var h := GrantOne(c, m, i, g, r, need[r]);
    assert q[..n + 1] == q[..n] + [r] && r !in q[..n];
    assert h.granted.Keys == g.granted.Keys + {r};
    HeldNext(m, i, need, g, r, h);
    ReservedStays(c, m, need, q, n, g.granted.Keys, g.reserved);
  }

  lemma HeldNext(m: State, i: Input, need: map<Robot, seq<Zone>>, g: Grants, r: Robot, h: Grants)
    requires r in need && NeedsNew(m, need) && HeldSo(m, i, need, g)
    requires h.held == Give(i, g.held, r, need[r]) && h.granted.Keys == g.granted.Keys + {r}
    ensures HeldSo(m, i, need, h)
  {
    hide Give;
    GiveWays(i, g.held, r, need[r]);
  }

  lemma ReservedStays(c: Config, m: State, need: map<Robot, seq<Zone>>, q: seq<Robot>, n: nat, granted: set<Robot>,
                      reserved: map<Zone, Robot>)
    requires Queued(need, q) && n < |q| && ReservedSo(c, m, need, q, n, granted, reserved)
    ensures ReservedSo(c, m, need, q, n + 1, granted + {q[n]}, reserved)
  {
    forall b, z ensures b != q[n] ==> (Keeps(c, m, need, granted + {q[n]}, b, z) <==> Keeps(c, m, need, granted, b, z)) {
    }
    forall z | z in reserved ensures FirstKeeper(c, m, need, granted + {q[n]}, q, n + 1, z, reserved[z]) {
      var j :| 0 <= j < n && q[j] == reserved[z] && forall l :: 0 <= l < j ==> !Keeps(c, m, need, granted, q[l], z);
      assert q[j] != q[n];
    }
  }

  lemma TurnedRefused(c: Config, m: State, i: Input, need: map<Robot, seq<Zone>>, q: seq<Robot>, n: nat, g: Grants)
    requires Queued(need, q) && n < |q| && Turned(c, m, i, need, q, n, g)
    requires !Grantable(c, i, g, q[n], need[q[n]])
    ensures Turned(c, m, i, need, q, n + 1, GrantOne(c, m, i, g, q[n], need[q[n]]))
  {
    hide Grantable, BlockersOf, HeldSo, ReservedSo;
    var r := q[n];
    var h := GrantOne(c, m, i, g, r, need[r]);
    assert q[..n + 1] == q[..n] + [r] && r !in q[..n];
    ReservedNext(c, m, need, q, n, g.granted.Keys, g.reserved, h.reserved);
    SameHeld(m, i, need, g, h);
  }

  lemma SameHeld(m: State, i: Input, need: map<Robot, seq<Zone>>, g: Grants, h: Grants)
    requires HeldSo(m, i, need, g) && h.granted == g.granted && h.held == g.held
    ensures HeldSo(m, i, need, h)
  {
  }

  lemma ReservedNext(c: Config, m: State, need: map<Robot, seq<Zone>>, q: seq<Robot>, n: nat, granted: set<Robot>,
                     before: map<Zone, Robot>, reserved: map<Zone, Robot>)
    requires Queued(need, q) && n < |q| && q[n] !in granted && ReservedSo(c, m, need, q, n, granted, before)
    requires reserved == if q[n] in m.waits && Starved(c, m.waits[q[n]]) then Reserve(before, q[n], need[q[n]]) else before
    ensures ReservedSo(c, m, need, q, n + 1, granted, reserved)
  {
    forall z | z in reserved ensures FirstKeeper(c, m, need, granted, q, n + 1, z, reserved[z]) {
      if z in before {
        var j :| 0 <= j < n && q[j] == before[z] && forall l :: 0 <= l < j ==> !Keeps(c, m, need, granted, q[l], z);
        assert q[j] == reserved[z];
      } else {
        assert q[n] == reserved[z];
      }
    }
  }

  lemma {:induction false} AllTurned(c: Config, m: State, i: Input, need: map<Robot, seq<Zone>>, q: seq<Robot>, n: nat)
    requires Queued(need, q) && NeedsNew(m, need) && n <= |q|
    ensures Turned(c, m, i, need, q, n, GrantAll(c, m, i, need, q, n))
  {
    hide Turned, GrantOne, NeedsNew, Grantable;
    if n > 0 {
      AllTurned(c, m, i, need, q, n - 1);
      var g := GrantAll(c, m, i, need, q, n - 1);
      if Grantable(c, i, g, q[n - 1], need[q[n - 1]]) {
        TurnedGranted(c, m, i, need, q, n - 1, g);
      } else {
        TurnedRefused(c, m, i, need, q, n - 1, g);
      }
    } else {
      NoneTurned(c, m, i, need, q);
    }
  }

  lemma NoneTurned(c: Config, m: State, i: Input, need: map<Robot, seq<Zone>>, q: seq<Robot>)
    ensures Turned(c, m, i, need, q, 0, Grants(m.held, map[], map[], map[]))
  {
  }

  /** The robots granted in the first n turns are those of them that end up granted. */
  lemma GrantedInTurns(c: Config, m: State, i: Input, need: map<Robot, seq<Zone>>, q: seq<Robot>, n: nat)
    requires Queued(need, q) && NeedsNew(m, need) && n <= |q|
    ensures forall r :: r in GrantAll(c, m, i, need, q, n).granted <==>
                          r in q[..n] && r in GrantAll(c, m, i, need, q, |q|).granted
  {
    hide GrantAll, HeldSo, ReservedSo, NeedsNew;
    AllTurned(c, m, i, need, q, n);
    forall r | r in q[..n]
      ensures r in GrantAll(c, m, i, need, q, n).granted <==> r in GrantAll(c, m, i, need, q, |q|).granted
    {
      var a :| 0 <= a < n && q[a] == r;
      LaterTurns(c, m, i, need, q, a, n);
      LaterTurns(c, m, i, need, q, a, |q|);
    }
  }

  /** b has zone z when the turn of r comes. */
  ghost predicate HasBefore(c: Config, m: State, i: Input, granted: set<Robot>, r: Robot, b: Robot, z: Zone) {
    (z, b) in m.held || (b in granted && b in Need(c, m, i) && z in Need(c, m, i)[b] && Before(c, m, i, b, r))
  }

  /** Everybody else in zone z then goes the way r wants to go. */
  ghost predicate Passable(c: Config, m: State, i: Input, granted: set<Robot>, r: Robot, z: Zone) {
    forall b :: b != r && HasBefore(c, m, i, granted, r, b, z) ==> SameWay(c, z, WayOf(m, i, b, z), DirectionFor(i, r, z))
  }

  /** b goes before r, is starved, and needs zone z in vain. */
  ghost predicate KeepsFrom(c: Config, m: State, i: Input, granted: set<Robot>, r: Robot, b: Robot, z: Zone) {
    Keeps(c, m, Need(c, m, i), granted, b, z) && Before(c, m, i, b, r)
  }

  /** b is the first to keep z from r. */
  ghost predicate FirstToKeep(c: Config, m: State, i: Input, granted: set<Robot>, r: Robot, b: Robot, z: Zone) {
    && KeepsFrom(c, m, i, granted, r, b, z)
    && forall o :: KeepsFrom(c, m, i, granted, r, o, z) && o != b ==> Before(c, m, i, b, o) && !Before(c, m, i, o, b)
  }

  ghost predicate FreeFor(c: Config, m: State, i: Input, granted: set<Robot>, r: Robot, z: Zone) {
    Passable(c, m, i, granted, r, z) && forall b :: !KeepsFrom(c, m, i, granted, r, b, z)
  }

  ghost predicate AllFreeFor(c: Config, m: State, i: Input, granted: set<Robot>, r: Robot) {
    r in Need(c, m, i) && forall z :: z in Need(c, m, i)[r] ==> FreeFor(c, m, i, granted, r, z)
  }

  /** A robot is granted exactly if no preceding robot has left or kept a zone it needs out of its reach. */
  ghost predicate Fairly(c: Config, m: State, i: Input, granted: set<Robot>) {
    && granted <= Need(c, m, i).Keys
    && forall r :: r in Need(c, m, i) ==> (r in granted <==> AllFreeFor(c, m, i, granted, r))
  }

  /** b is the first to keep z from r, or is in the way of r in a zone it cannot pass. */
  ghost predicate Blocks(c: Config, m: State, i: Input, granted: set<Robot>, r: Robot, b: Robot, z: Zone) {
    || FirstToKeep(c, m, i, granted, r, b, z)
    || (b != r && HasBefore(c, m, i, granted, r, b, z) && !Passable(c, m, i, granted, r, z))
  }

  // ---------------------------------------------------------------- the turn of one robot

  lemma NeedIsNew(c: Config, m: State, i: Input)
    ensures NeedsNew(m, Need(c, m, i))
  {
    var need := Need(c, m, i);
    forall r, z | r in need && z in need[r] ensures (z, r) !in m.held {
      MissingMembers(c, m.held, r, i.requests[r].zones);
    }
  }

  /** The queue of a cycle. */
  ghost predicate IsQueue(c: Config, m: State, i: Input, q: seq<Robot>) {
    && Queued(Need(c, m, i), q)
    && (forall r :: r in q <==> r in Need(c, m, i))
    && (forall x, y :: 0 <= x < |q| && 0 <= y < |q| ==> (x < y <==> Before(c, m, i, q[x], q[y])))
  }

  lemma EarlierInQueue(c: Config, m: State, i: Input, q: seq<Robot>, a: nat)
    requires IsQueue(c, m, i, q) && a < |q|
    ensures forall b :: b in q[..a] <==> b in Need(c, m, i) && Before(c, m, i, b, q[a])
  {
    hide Need, Before;
    forall b | b in q[..a] ensures b in Need(c, m, i) && Before(c, m, i, b, q[a]) {
      var x :| 0 <= x < a && q[x] == b;
      assert b in q;
    }
    forall b | b in Need(c, m, i) && Before(c, m, i, b, q[a]) ensures b in q[..a] {
      var x :| 0 <= x < |q| && q[x] == b;
      assert q[..a][x] == b;
    }
  }

  /** Robots granted or keeping zones before the turn of q[a] are those that precede it. */
  lemma TurnByPrecedence(c: Config, m: State, i: Input, q: seq<Robot>, a: nat, now: set<Robot>, granted: set<Robot>, z: Zone)
    requires IsQueue(c, m, i, q) && a < |q| && forall r :: r in now <==> r in q[..a] && r in granted
    ensures forall b :: Has(m, Need(c, m, i), now, b, z) <==> HasBefore(c, m, i, granted, q[a], b, z)
    ensures forall j :: 0 <= j < a ==>
              (Keeps(c, m, Need(c, m, i), now, q[j], z) <==> KeepsFrom(c, m, i, granted, q[a], q[j], z))
    ensures forall b :: KeepsFrom(c, m, i, granted, q[a], b, z) ==> b in q[..a]
  {
    hide Need, Before, IsQueue;
    EarlierInQueue(c, m, i, q, a);
    forall j | 0 <= j < a ensures q[j] in q[..a] {
    }
  }

  /** The zone is reserved exactly if somebody keeps it, by the first who does. */
  lemma ReservedByPrecedence(c: Config, m: State, i: Input, q: seq<Robot>, a: nat, now: set<Robot>, granted: set<Robot>,
                             reserved: map<Zone, Robot>, z: Zone)
    requires IsQueue(c, m, i, q) && a < |q| && forall r :: r in now <==> r in q[..a] && r in granted
    requires ReservedSo(c, m, Need(c, m, i), q, a, now, reserved)
    ensures z in reserved <==> exists b :: KeepsFrom(c, m, i, granted, q[a], b, z)
    ensures z in reserved ==> forall b :: b == reserved[z] <==> FirstToKeep(c, m, i, granted, q[a], b, z)
  {
    hide Need, Before, Keeps, KeepsFrom, IsQueue;
    TurnByPrecedence(c, m, i, q, a, now, granted, z);
    if z in reserved {
      var x := reserved[z];
      var j :| 0 <= j < a && q[j] == x && forall l :: 0 <= l < j ==> !Keeps(c, m, Need(c, m, i), now, q[l], z);
      assert KeepsFrom(c, m, i, granted, q[a], q[j], z);
      forall o | KeepsFrom(c, m, i, granted, q[a], o, z) && o != x
        ensures Before(c, m, i, x, o) && !Before(c, m, i, o, x)
      {
        var l :| 0 <= l < a && q[l] == o;
        assert l >= j;
        InQueueOrder(c, m, i, q, j, l);
      }
    }
    if b :| KeepsFrom(c, m, i, granted, q[a], b, z) {
      var l :| 0 <= l < a && q[l] == b;
      assert Keeps(c, m, Need(c, m, i), now, q[l], z);
    }
  }

  lemma InQueueOrder(c: Config, m: State, i: Input, q: seq<Robot>, x: nat, y: nat)
    requires IsQueue(c, m, i, q) && x <= y < |q|
    ensures q[x] != q[y] ==> Before(c, m, i, q[x], q[y]) && !Before(c, m, i, q[y], q[x])
  {
    hide Need, Before;
  }

  lemma OutcomeIs(c: Config, m: State, i: Input)
    requires Queued(Need(c, m, i), ServingOrder(c, m, i))
    ensures Outcome(c, m, i) == GrantAll(c, m, i, Need(c, m, i), ServingOrder(c, m, i), |ServingOrder(c, m, i)|)
  {
  }

  // ---------------------------------------------------------------- the outcome

  /** What the turn of q[a] finds in one zone. */
  lemma ZoneInTurn(c: Config, m: State, i: Input, q: seq<Robot>, a: nat, g: Grants, granted: set<Robot>, z: Zone)
    requires IsQueue(c, m, i, q) && a < |q| && Turned(c, m, i, Need(c, m, i), q, a, g)
    requires forall r :: r in g.granted <==> r in q[..a] && r in granted
    ensures Compatible(c, g.held, z, q[a], DirectionFor(i, q[a], z)) <==> Passable(c, m, i, granted, q[a], z)
    ensures (z in g.reserved ==> g.reserved[z] == q[a]) <==> forall b :: !KeepsFrom(c, m, i, granted, q[a], b, z)
    ensures forall b :: (z in g.reserved && g.reserved[z] != q[a] && b == g.reserved[z]) <==>
                          FirstToKeep(c, m, i, granted, q[a], b, z)
    ensures forall b :: (z, b) in g.held <==> HasBefore(c, m, i, granted, q[a], b, z)
  {
    hide Need, Before, IsQueue, SameWay, DirectionFor, WayOf, KeepsFrom, HasBefore, ReservedSo;
    TurnByPrecedence(c, m, i, q, a, g.granted.Keys, granted, z);
    ReservedByPrecedence(c, m, i, q, a, g.granted.Keys, granted, g.reserved, z);
    NotBeforeItself(c, m, i, granted, q[a], z);
    assert z in g.reserved ==> FirstToKeep(c, m, i, granted, q[a], g.reserved[z], z);
    if Passable(c, m, i, granted, q[a], z) {
      assert forall k :: k in g.held && k.0 == z ==> k == (z, k.1);
    }
    if Compatible(c, g.held, z, q[a], DirectionFor(i, q[a], z)) {
      forall b | b != q[a] && HasBefore(c, m, i, granted, q[a], b, z)
        ensures SameWay(c, z, WayOf(m, i, b, z), DirectionFor(i, q[a], z))
      {
        assert (z, b) in g.held && (z, b).0 == z && (z, b).1 == b;
      }
    }
  }

  lemma NotBeforeItself(c: Config, m: State, i: Input, granted: set<Robot>, r: Robot, z: Zone)
    ensures !KeepsFrom(c, m, i, granted, r, r, z)
  {
  }

  /** In its turn a robot can be granted its zones exactly if all are free for it, and else is told who blocks them. */
  lemma DecidedInTurn(c: Config, m: State, i: Input, q: seq<Robot>, a: nat, g: Grants, granted: set<Robot>)
    requires IsQueue(c, m, i, q) && a < |q| && Turned(c, m, i, Need(c, m, i), q, a, g)
    requires forall r :: r in g.granted <==> r in q[..a] && r in granted
    ensures Grantable(c, i, g, q[a], Need(c, m, i)[q[a]]) <==> AllFreeFor(c, m, i, granted, q[a])
    ensures forall b :: b in BlockersOf(c, i, g, q[a], Need(c, m, i)[q[a]]) <==>
                          exists z :: z in Need(c, m, i)[q[a]] && Blocks(c, m, i, granted, q[a], b, z)
  {
    hide Need, Before, DirectionFor, Turned, Compatible, Passable, KeepsFrom, HasBefore, FirstToKeep;
    var zones := Need(c, m, i)[q[a]];
    forall z | z in zones
      ensures Compatible(c, g.held, z, q[a], DirectionFor(i, q[a], z)) <==> Passable(c, m, i, granted, q[a], z)
      ensures (z in g.reserved ==> g.reserved[z] == q[a]) <==> forall b :: !KeepsFrom(c, m, i, granted, q[a], b, z)
      ensures forall b :: (z in g.reserved && g.reserved[z] != q[a] && b == g.reserved[z]) <==>
                            FirstToKeep(c, m, i, granted, q[a], b, z)
      ensures forall b :: (z, b) in g.held <==> HasBefore(c, m, i, granted, q[a], b, z)
    {
      ZoneInTurn(c, m, i, q, a, g, granted, z);
    }
    forall b | b in BlockersOf(c, i, g, q[a], zones)
      ensures exists z :: z in zones && Blocks(c, m, i, granted, q[a], b, z)
    {
      if z :| z in zones && z in g.reserved && g.reserved[z] != q[a] && b == g.reserved[z] {
        assert Blocks(c, m, i, granted, q[a], b, z);
      } else {
        var k :| k in g.held && k.0 in zones && k.1 != q[a] && k.1 == b &&
                 !Compatible(c, g.held, k.0, q[a], DirectionFor(i, q[a], k.0));
        assert k == (k.0, b);
        assert Blocks(c, m, i, granted, q[a], b, k.0);
      }
    }
    forall b, z | z in zones && Blocks(c, m, i, granted, q[a], b, z) ensures b in BlockersOf(c, i, g, q[a], zones) {
      if !FirstToKeep(c, m, i, granted, q[a], b, z) {
        assert (z, b) in g.held;
        assert (z, b).0 in zones && (z, b).1 == b;
      }
    }
  }

  /** The decision on q[a], at the end of all turns. */
  lemma DecidedAtLast(c: Config, m: State, i: Input, q: seq<Robot>, a: nat)
    requires IsQueue(c, m, i, q) && a < |q|
    ensures var g := GrantAll(c, m, i, Need(c, m, i), q, |q|);
            && (q[a] in g.granted <==> AllFreeFor(c, m, i, g.granted.Keys, q[a]))
            && (q[a] !in g.granted ==> q[a] in g.blockers && TellsWho(c, m, i, g.granted.Keys, q[a], g.blockers[q[a]]))
  {
    hide Need, Before, GrantAll, Turned, Grantable, AllFreeFor, Blocks, BlockersOf;
    var need := Need(c, m, i);
    NeedIsNew(c, m, i);
    AllTurned(c, m, i, need, q, a);
    GrantedInTurns(c, m, i, need, q, a);
    var g, end := GrantAll(c, m, i, need, q, a), GrantAll(c, m, i, need, q, |q|);
    DecidedInTurn(c, m, i, q, a, g, end.granted.Keys);
    OwnTurn(c, m, i, need, q, a);
    if q[a] !in end.granted {
      OneTurn(c, m, i, need, q, a);
      StaysTold(c, m, i, need, q, a, |q|);
    }
  }

  lemma {:induction false} StaysTold(c: Config, m: State, i: Input, need: map<Robot, seq<Zone>>, q: seq<Robot>, a: nat, n: nat)
    requires Queued(need, q) && a < n <= |q| && q[a] in GrantAll(c, m, i, need, q, a + 1).blockers
    ensures q[a] in GrantAll(c, m, i, need, q, n).blockers
    ensures GrantAll(c, m, i, need, q, n).blockers[q[a]] == GrantAll(c, m, i, need, q, a + 1).blockers[q[a]]
  {
    hide GrantOne;
    if a + 1 < n {
      StaysTold(c, m, i, need, q, a, n - 1);
      TurnKeepsMore(c, m, i, GrantAll(c, m, i, need, q, n - 1), q[n - 1], need[q[n - 1]], q[a]);
    }
  }

  /** The robots told are exactly those that block r in a zone it needs. */
  ghost predicate TellsWho(c: Config, m: State, i: Input, granted: set<Robot>, r: Robot, blockers: set<Robot>) {
    r in Need(c, m, i) &&
    forall b :: b in blockers <==> exists z :: z in Need(c, m, i)[r] && Blocks(c, m, i, granted, r, b, z)
  }

  /** The outcome is fair, and every refused robot is told exactly who blocks it. */
  lemma OutcomeFair(c: Config, m: State, i: Input)
    requires Waits(c, m, i) && Valid(c, m)
    ensures var g := Outcome(c, m, i);
            && Fairly(c, m, i, g.granted.Keys)
            && forall r :: r in Need(c, m, i) && r !in g.granted ==>
                 r in g.blockers && TellsWho(c, m, i, g.granted.Keys, r, g.blockers[r])
  {
    hide Need, Before, ServingOrder, Outcome, GrantAll, AllFreeFor, TellsWho, Valid;
    var q := ServingOrder(c, m, i);
    ServedByClaims(c, m, i);
    OutcomeIs(c, m, i);
    AllOrNothing(c, m, i);
    assert forall r :: r in Outcome(c, m, i).granted.Keys ==> r in Need(c, m, i).Keys;
    forall r | r in Need(c, m, i)
      ensures var g := Outcome(c, m, i);
              && (r in g.granted <==> AllFreeFor(c, m, i, g.granted.Keys, r))
              && (r !in g.granted ==> r in g.blockers && TellsWho(c, m, i, g.granted.Keys, r, g.blockers[r]))
    {
      var a :| 0 <= a < |q| && q[a] == r;
      DecidedAtLast(c, m, i, q, a);
    }
  }

  /** Afterwards a zone is held, in the direction asked for, by those who held it or were granted it. */
  lemma GrantsHeld(c: Config, m: State, i: Input)
    requires Waits(c, m, i)
    ensures HeldSo(m, i, Need(c, m, i), Outcome(c, m, i))
  {
    hide Need, Before, ServingOrder, Outcome, GrantAll, HeldSo, NeedsNew;
    var q := ServingOrder(c, m, i);
    ServedByClaims(c, m, i);
    OutcomeIs(c, m, i);
    NeedIsNew(c, m, i);
    AllTurned(c, m, i, Need(c, m, i), q, |q|);
  }

  // ---------------------------------------------------------------- one outcome only

  /** Whether all is free for q[a] depends on the robots before it only. */
  lemma DependsOnEarlier(c: Config, m: State, i: Input, q: seq<Robot>, a: nat, g: set<Robot>, h: set<Robot>)
    requires IsQueue(c, m, i, q) && a < |q| && forall b :: b in q[..a] ==> (b in g <==> b in h)
    ensures AllFreeFor(c, m, i, g, q[a]) <==> AllFreeFor(c, m, i, h, q[a])
  {
    hide Need, Before, SameWay, DirectionFor, WayOf, IsQueue;
    EarlierInQueue(c, m, i, q, a);
    forall b, z ensures HasBefore(c, m, i, g, q[a], b, z) <==> HasBefore(c, m, i, h, q[a], b, z) {
    }
    forall b, z ensures KeepsFrom(c, m, i, g, q[a], b, z) <==> KeepsFrom(c, m, i, h, q[a], b, z) {
    }
    forall z ensures FreeFor(c, m, i, g, q[a], z) <==> FreeFor(c, m, i, h, q[a], z) {
    }
  }

  lemma {:induction false} FairlyAgree(c: Config, m: State, i: Input, q: seq<Robot>, n: nat, g: set<Robot>, h: set<Robot>)
    requires IsQueue(c, m, i, q) && n <= |q| && Fairly(c, m, i, g) && Fairly(c, m, i, h)
    ensures forall b :: b in q[..n] ==> (b in g <==> b in h)
  {
    hide Need, Before, AllFreeFor;
    if n > 0 {
      FairlyAgree(c, m, i, q, n - 1, g, h);
      assert q[..n] == q[..n - 1] + [q[n - 1]] && q[n - 1] in q;
      DependsOnEarlier(c, m, i, q, n - 1, g, h);
    }
  }

  /** Fairness leaves one outcome only. */
  lemma FairlyOnce(c: Config, m: State, i: Input, g: set<Robot>)
    requires Waits(c, m, i) && Valid(c, m) && Fairly(c, m, i, g)
    ensures g == Outcome(c, m, i).granted.Keys
  {
    hide Need, Before, ServingOrder, Outcome, AllFreeFor, TellsWho, Valid;
    var q, h := ServingOrder(c, m, i), Outcome(c, m, i).granted.Keys;
    ServedByClaims(c, m, i);
    OutcomeFair(c, m, i);
    FairlyAgree(c, m, i, q, |q|, g, h);
    assert q[..|q|] == q;
    assert forall b :: b in g || b in h ==> b in q;
  }

  /** Robots that each need nothing but one exclusive zone nobody has: the first of them gets it, alone. */
  lemma FirstGetsIt(c: Config, m: State, i: Input, r: Robot, z: Zone)
    requires Waits(c, m, i) && Valid(c, m) && OnlyWanted(c, m, i, z) && Wants(c, m, i, r, z)
    ensures r in Outcome(c, m, i).granted <==> forall b :: Wants(c, m, i, b, z) && b != r ==> Before(c, m, i, r, b)
  {
    hide Outcome, Before, Wants, OnlyWanted, Need, Valid;
    var q := ServingOrder(c, m, i);
    ServedByClaims(c, m, i);
    WantsNeeds(c, m, i, r, z);
    var f := FirstWanting(c, m, i, q, z, r);
    WantsNeeds(c, m, i, f, z);
    forall b | Wants(c, m, i, b, z) && b != f ensures Before(c, m, i, f, b) && !Before(c, m, i, b, f) {
      WantsNeeds(c, m, i, b, z);
    }
    GrantedIfFirst(c, m, i, f, z);
    if r != f {
      NotAfterAnother(c, m, i, f, r, z);
    }
  }

  /** Zone z is exclusive and empty, and whoever needs it needs nothing else. */
  ghost predicate OnlyWanted(c: Config, m: State, i: Input, z: Zone) {
    && z in c.zones && !c.zones[z] && (forall b :: (z, b) !in m.held)
    && forall b, x :: Wants(c, m, i, b, z) && x in Need(c, m, i)[b] ==> x == z
  }

  ghost predicate Wants(c: Config, m: State, i: Input, b: Robot, z: Zone) {
    b in Need(c, m, i) && z in Need(c, m, i)[b]
  }

  lemma WantsNeeds(c: Config, m: State, i: Input, b: Robot, z: Zone)
    ensures Wants(c, m, i, b, z) ==> b in Need(c, m, i)
  {
  }

  lemma FirstWanting(c: Config, m: State, i: Input, q: seq<Robot>, z: Zone, r: Robot) returns (f: Robot)
    requires IsQueue(c, m, i, q) && Wants(c, m, i, r, z)
    ensures Wants(c, m, i, f, z)
    ensures forall b :: Wants(c, m, i, b, z) && b != f ==> Before(c, m, i, f, b) && !Before(c, m, i, b, f)
  {
    hide Need, Before, Wants;
    var n := 0;
    WantsNeeds(c, m, i, r, z);
    assert r in q;
    while n < |q| && !Wants(c, m, i, q[n], z)
      invariant 0 <= n <= |q| && forall x :: 0 <= x < n ==> !Wants(c, m, i, q[x], z)
    {
      n := n + 1;
    }
    f := q[n];
    forall b | Wants(c, m, i, b, z) && b != f ensures Before(c, m, i, f, b) && !Before(c, m, i, b, f) {
      WantsNeeds(c, m, i, b, z);
      var x :| 0 <= x < |q| && q[x] == b;
      assert n < x;
    }
  }

  lemma GrantedIfFirst(c: Config, m: State, i: Input, f: Robot, z: Zone)
    requires Waits(c, m, i) && Valid(c, m) && OnlyWanted(c, m, i, z) && Wants(c, m, i, f, z)
    requires forall b :: Wants(c, m, i, b, z) && b != f ==> !Before(c, m, i, b, f)
    ensures f in Outcome(c, m, i).granted
  {
    hide Outcome, Need, Before, Valid;
    OutcomeFair(c, m, i);
    var granted := Outcome(c, m, i).granted.Keys;
    forall b ensures b != f ==> !HasBefore(c, m, i, granted, f, b, z) && !KeepsFrom(c, m, i, granted, f, b, z) {
      assert Wants(c, m, i, b, z) <==> b in Need(c, m, i) && z in Need(c, m, i)[b];
    }
    NotBeforeItself(c, m, i, granted, f, z);
    assert FreeFor(c, m, i, granted, f, z);
  }

  lemma NotAfterAnother(c: Config, m: State, i: Input, f: Robot, r: Robot, z: Zone)
    requires Waits(c, m, i) && Valid(c, m) && OnlyWanted(c, m, i, z) && Wants(c, m, i, f, z) && Wants(c, m, i, r, z)
    requires f in Outcome(c, m, i).granted && Before(c, m, i, f, r) && f != r
    ensures r !in Outcome(c, m, i).granted
  {
    hide Outcome, Need, Before, Valid, KeepsFrom;
    OutcomeFair(c, m, i);
    var granted := Outcome(c, m, i).granted.Keys;
    assert HasBefore(c, m, i, granted, r, f, z);
    assert !FreeFor(c, m, i, granted, r, z);
  }
}
