/** Entry tokens for zones: the five phases of one cycle, as functions of the manager's state. */
module Tokens {
  import opened Options
  import opened Sorting

  type Robot = int
  type Zone = int
  type Slot = (Zone, Robot)

  type Direction = Option<(real, real)>

  /** zones: the known zones and whether robots going the same way may share them. */
  datatype Config = Config(zones: map<Zone, bool>, maxBypass: nat, minCos: real)

  datatype Request = Request(zones: seq<Zone>, directions: map<Zone, Direction>, priority: int, deadline: Option<real>)

  datatype Wait = Wait(zones: seq<Zone>, since: real, number: int, bypassed: nat)

  /** held: who holds which zone, with the direction of passage; entered: the held slots already occupied once. */
  datatype State = State(held: map<Slot, Direction>, entered: set<Slot>, waits: map<Robot, Wait>, number: int)

  /**
   What one cycle is given.  occupied lists the slots where a body is, in the order they are met;
   order lists the requesting robots in the order of the request table.
   */
  datatype Input = Input(now: real, order: seq<Robot>, requests: map<Robot, Request>, occupied: seq<Slot>,
                         upcoming: map<Robot, set<Zone>>, directions: map<Slot, Direction>, frozen: set<Robot>) {
    ghost predicate Valid() {
      forall r :: r in order <==> r in requests
    }
  }

  // ---------------------------------------------------------------- compatibility

  predicate SameWay(c: Config, z: Zone, d: Direction, e: Direction) {
    z in c.zones && c.zones[z] && d.Some? && e.Some? &&
    d.value.0 * e.value.0 + d.value.1 * e.value.1 >= c.minCos
  }

  /** r may join zone z: nobody else is there, or everybody goes the same way. */
  predicate Compatible(c: Config, held: map<Slot, Direction>, z: Zone, r: Robot, d: Direction) {
    forall k :: k in held && k.0 == z && k.1 != r ==> SameWay(c, z, held[k], d)
  }

  /** Two holders of a zone always go the same way through a zone that allows it. */
  ghost predicate Exclusive(c: Config, held: map<Slot, Direction>) {
    forall k, l :: k in held && l in held && k.0 == l.0 && k.1 != l.1 ==> SameWay(c, k.0, held[k], held[l])
  }

  ghost predicate Valid(c: Config, s: State) {
    Exclusive(c, s.held) && s.entered <= s.held.Keys
  }

  lemma JoinExclusive(c: Config, held: map<Slot, Direction>, z: Zone, r: Robot, d: Direction)
    requires Exclusive(c, held) && Compatible(c, held, z, r, d)
    ensures Exclusive(c, held[(z, r) := d])
  {
    var h := held[(z, r) := d];
    forall k, l | k in h && l in h && k.0 == l.0 && k.1 != l.1
      ensures SameWay(c, k.0, h[k], h[l])
    {
      if k == (z, r) {
        assert SameWay(c, z, held[l], d);
      } else if l == (z, r) {
        assert SameWay(c, z, held[k], d);
      }
    }
  }

  // ---------------------------------------------------------------- 1: release

  function Lookup(upcoming: map<Robot, set<Zone>>, r: Robot): set<Zone> {
    if r in upcoming then upcoming[r] else {}
  }

  /** A slot is kept while occupied or frozen, and before it is entered as long as it is still on the way. */
  predicate Kept(s: State, i: Input, k: Slot) {
    k in i.occupied || k.1 in i.frozen || (k !in s.entered && k.0 in Lookup(i.upcoming, k.1))
  }

  function Released(s: State, i: Input): State {
    s.(held := map k | k in s.held && Kept(s, i, k) :: s.held[k],
       entered := set k | k in s.entered + s.held.Keys &&
                          (k in s.entered || k in i.occupied) && (k in s.held ==> Kept(s, i, k)))
  }

  // ---------------------------------------------------------------- 2: register robots found inside

  function DirectionAt(i: Input, k: Slot): Direction {
    var d := if k in i.directions then i.directions[k] else None;
    if d == None && k.1 in i.requests && k.0 in i.requests[k.1].directions then i.requests[k.1].directions[k.0] else d
  }

  function RegisterOne(c: Config, s: State, i: Input, k: Slot): State {
    if k.0 in c.zones && k !in s.held && Compatible(c, s.held, k.0, k.1, DirectionAt(i, k))
    then s.(held := s.held[k := DirectionAt(i, k)], entered := s.entered + {k})
    else s
  }

  function Registered(c: Config, s: State, i: Input, n: nat): State
    requires n <= |i.occupied|
  {
    if n == 0 then s else RegisterOne(c, Registered(c, s, i, n - 1), i, i.occupied[n - 1])
  }

  // ---------------------------------------------------------------- 3: refresh the waiting list

  /** The requested zones that are known and not held yet. */
  function Missing(c: Config, held: map<Slot, Direction>, r: Robot, zones: seq<Zone>): seq<Zone> {
    if zones == [] then []
    else
      var rest := Missing(c, held, r, zones[1..]);
      if zones[0] in c.zones && (zones[0], r) !in held then [zones[0]] + rest else rest
  }

  function Need(c: Config, s: State, i: Input): map<Robot, seq<Zone>> {
    map r | r in i.requests && Missing(c, s.held, r, i.requests[r].zones) != [] ::
      Missing(c, s.held, r, i.requests[r].zones)
  }

  predicate Overlap(a: seq<Zone>, b: seq<Zone>) {
    exists z :: z in a && z in b
  }

  /** Waits whose robot still needs something overlapping go on, with the zones of the new request. */
  function Continued(s: State, i: Input, need: map<Robot, seq<Zone>>): map<Robot, Wait> {
    map r | r in s.waits && r in need && r in i.requests && Overlap(s.waits[r].zones, i.requests[r].zones) ::
      s.waits[r].(zones := i.requests[r].zones)
  }

  /** The first n robots of the request order that need something and are not waiting start to wait now. */
  function Started(s: State, i: Input, need: map<Robot, seq<Zone>>, n: nat): State
    requires n <= |i.order|
  {
    if n == 0 then s
    else
      var t := Started(s, i, need, n - 1);
      var r := i.order[n - 1];
      if r in need && r in i.requests && r !in t.waits
      then t.(waits := t.waits[r := Wait(i.requests[r].zones, i.now, t.number + 1, 0)], number := t.number + 1)
      else t
  }

  function Refreshed(c: Config, s: State, i: Input): State {
    var need := Need(c, s, i);
    Started(s.(waits := Continued(s, i, need)), i, need, |i.order|)
  }

  /** The state when grants are about to be decided. */
  function Prepared(c: Config, s: State, i: Input): State {
    Refreshed(c, Registered(c, Released(s, i), i, |i.occupied|), i)
  }

  // ---------------------------------------------------------------- 4: grants

  /** Lexicographic order of sort keys. */
  predicate LexLess(a: seq<real>, b: seq<real>) {
    |a| > 0 && |b| > 0 && (a[0] < b[0] || (a[0] == b[0] && LexLess(a[1..], b[1..])))
  }

  predicate Starved(c: Config, w: Wait) {
    w.bypassed >= c.maxBypass
  }

  /** Starved robots first by waiting time; then by priority, deadline, waiting time; then by arrival and id. */
  function Key(c: Config, w: Wait, q: Request, r: Robot): seq<real> {
    var late := if q.deadline.Some? then [0.0, q.deadline.value] else [1.0, 0.0];
    if Starved(c, w) then [0.0, w.since, -(q.priority as real)] + late + [w.number as real, r as real]
    else [1.0, -(q.priority as real)] + late + [w.since, w.number as real, r as real]
  }

  function KeyOf(c: Config, s: State, i: Input, r: Robot): seq<real> {
    if r in s.waits && r in i.requests then Key(c, s.waits[r], i.requests[r], r) else []
  }

  function InsertByKey(c: Config, s: State, i: Input, r: Robot, q: seq<Robot>): seq<Robot> {
    if q == [] || LexLess(KeyOf(c, s, i, r), KeyOf(c, s, i, q[0])) then [r] + q
    else [q[0]] + InsertByKey(c, s, i, r, q[1..])
  }

  /** The needing robots among the first n of the request order, in the order they are served. */
  function Queue(c: Config, s: State, i: Input, need: map<Robot, seq<Zone>>, n: nat): seq<Robot>
    requires n <= |i.order|
  {
    if n == 0 then []
    else
      var q := Queue(c, s, i, need, n - 1);
      if i.order[n - 1] in need && i.order[n - 1] !in q then InsertByKey(c, s, i, i.order[n - 1], q) else q
  }

  datatype Grants = Grants(held: map<Slot, Direction>, reserved: map<Zone, Robot>, granted: map<Robot, seq<Zone>>,
                           blockers: map<Robot, set<Robot>>)

  function DirectionFor(i: Input, r: Robot, z: Zone): Direction {
    if r in i.requests && z in i.requests[r].directions then i.requests[r].directions[z] else None
  }

  predicate Grantable(c: Config, i: Input, g: Grants, r: Robot, zones: seq<Zone>) {
    forall z :: z in zones ==>
      (z in g.reserved ==> g.reserved[z] == r) && Compatible(c, g.held, z, r, DirectionFor(i, r, z))
  }

  function Give(i: Input, held: map<Slot, Direction>, r: Robot, zones: seq<Zone>): map<Slot, Direction> {
    if zones == [] then held
    else Give(i, held, r, zones[..|zones| - 1])[(zones[|zones| - 1], r) := DirectionFor(i, r, zones[|zones| - 1])]
  }

  function Reserve(reserved: map<Zone, Robot>, r: Robot, zones: seq<Zone>): map<Zone, Robot> {
    (map z | z in zones :: r) + reserved
  }

  /** Who keeps r from its zones: reservations of starved robots, and holders of incompatible zones. */
  function BlockersOf(c: Config, i: Input, g: Grants, r: Robot, zones: seq<Zone>): set<Robot> {
    (set z | z in zones && z in g.reserved && g.reserved[z] != r :: g.reserved[z]) +
    (set k | k in g.held && k.0 in zones && k.1 != r && !Compatible(c, g.held, k.0, r, DirectionFor(i, r, k.0)) :: k.1)
  }

  function GrantOne(c: Config, s: State, i: Input, g: Grants, r: Robot, zones: seq<Zone>): Grants {
    if Grantable(c, i, g, r, zones)
    then g.(held := Give(i, g.held, r, zones), granted := g.granted[r := zones])
    else
      var b := g.(blockers := g.blockers[r := BlockersOf(c, i, g, r, zones)]);
      if r in s.waits && Starved(c, s.waits[r]) then b.(reserved := Reserve(g.reserved, r, zones)) else b
  }

  /** Serves the first n robots of the queue. */
  function GrantAll(c: Config, s: State, i: Input, need: map<Robot, seq<Zone>>, q: seq<Robot>, n: nat): Grants
    requires n <= |q| && forall r :: r in q ==> r in need
  {
    if n == 0 then Grants(s.held, map[], map[], map[])
    else GrantOne(c, s, i, GrantAll(c, s, i, need, q, n - 1), q[n - 1], need[q[n - 1]])
  }

  // ---------------------------------------------------------------- 5: count overtaking

  function Sinces(waits: map<Robot, Wait>): map<Robot, real> {
    map r | r in waits :: waits[r].since
  }

  /** The robots that asked later than the given time and were granted one of the given zones. */
  function LaterGranted(sinces: map<Robot, real>, granted: map<Robot, seq<Zone>>, zones: seq<Zone>, since: real): set<Robot> {
    set o | o in granted && Overlap(granted[o], zones) && o in sinces && sinces[o] > since
  }

  /** The robots that asked strictly later than r and were granted something r still needs. */
  function Overtakers(s: State, need: map<Robot, seq<Zone>>, granted: map<Robot, seq<Zone>>, r: Robot): set<Robot> {
    if r in need && r in s.waits then LaterGranted(Sinces(s.waits), granted, need[r], s.waits[r].since) else {}
  }

  function Counted(s: State, need: map<Robot, seq<Zone>>, granted: map<Robot, seq<Zone>>): map<Robot, Wait> {
    map r | r in s.waits && r !in granted ::
      s.waits[r].(bypassed := s.waits[r].bypassed + |Overtakers(s, need, granted, r)|)
  }

  // ---------------------------------------------------------------- one cycle

  function ServingOrder(c: Config, m: State, i: Input): (q: seq<Robot>) {
    Queue(c, m, i, Need(c, m, i), |i.order|)
  }

  /** The outcome of the grant phase from a prepared state. */
  function Outcome(c: Config, m: State, i: Input): Grants {
    var need := Need(c, m, i);
    var q := ServingOrder(c, m, i);
    QueueMembers(c, m, i, need, |i.order|);
    GrantAll(c, m, i, need, q, |q|)
  }

  function Finished(c: Config, m: State, i: Input): State {
    var g := Outcome(c, m, i);
    State(g.held, m.entered, Counted(m, Need(c, m, i), g.granted), m.number)
  }

  function Updated(c: Config, s: State, i: Input): State {
    Finished(c, Prepared(c, s, i), i)
  }

  // ---------------------------------------------------------------- the serving order

  lemma {:induction false} LexTransitive(a: seq<real>, b: seq<real>, d: seq<real>)
    requires LexLess(a, b) && LexLess(b, d)
    ensures LexLess(a, d)
  {
    if a[0] == b[0] && b[0] == d[0] {
      LexTransitive(a[1..], b[1..], d[1..]);
    }
  }

  /** Nobody is served before somebody with a smaller key. */
  ghost predicate Ordered(c: Config, s: State, i: Input, q: seq<Robot>) {
    && (forall a, b :: 0 <= a < b < |q| ==> q[a] != q[b])
    && (forall a, b :: 0 <= a < b < |q| ==> !LexLess(KeyOf(c, s, i, q[b]), KeyOf(c, s, i, q[a])))
  }

  lemma {:induction false} LexIrreflexive(a: seq<real>)
    ensures !LexLess(a, a)
  {
    if |a| > 0 {
      LexIrreflexive(a[1..]);
    }
  }

  /** What comes before the head of an ordered queue comes before all of it. */
  lemma BeforeHead(c: Config, s: State, i: Input, r: Robot, q: seq<Robot>, b: nat)
    requires Ordered(c, s, i, q) && b < |q| && LexLess(KeyOf(c, s, i, r), KeyOf(c, s, i, q[0]))
    ensures !LexLess(KeyOf(c, s, i, q[b]), KeyOf(c, s, i, r))
  {
    hide KeyOf;
    var k, h, l := KeyOf(c, s, i, r), KeyOf(c, s, i, q[0]), KeyOf(c, s, i, q[b]);
    LexIrreflexive(h);
    if LexLess(l, k) {
      LexTransitive(l, k, h);
    }
  }

  lemma OrderedTail(c: Config, s: State, i: Input, q: seq<Robot>)
    requires Ordered(c, s, i, q) && |q| > 0
    ensures Ordered(c, s, i, q[1..])
    ensures forall x :: x in q[1..] ==> x != q[0] && !LexLess(KeyOf(c, s, i, x), KeyOf(c, s, i, q[0]))
  {
    hide KeyOf, LexLess;
    assert forall b :: 0 <= b < |q[1..]| ==> q[1..][b] == q[b + 1];
  }

  lemma OrderedCons(c: Config, s: State, i: Input, x: Robot, t: seq<Robot>)
    requires Ordered(c, s, i, t)
    requires forall y :: y in t ==> y != x && !LexLess(KeyOf(c, s, i, y), KeyOf(c, s, i, x))
    ensures Ordered(c, s, i, [x] + t)
  {
    hide KeyOf, LexLess;
    var q := [x] + t;
    assert forall b :: 0 < b < |q| ==> q[b] == t[b - 1] && q[b] in t;
  }

  lemma {:induction false} InsertOrdered(c: Config, s: State, i: Input, r: Robot, q: seq<Robot>)
    requires Ordered(c, s, i, q) && r !in q
    ensures Ordered(c, s, i, InsertByKey(c, s, i, r, q))
    ensures forall x :: x in InsertByKey(c, s, i, r, q) <==> x == r || x in q
  {
    hide KeyOf, LexLess, Ordered;
    if q == [] {
      OrderedCons(c, s, i, r, q);
    } else if LexLess(KeyOf(c, s, i, r), KeyOf(c, s, i, q[0])) {
      forall y | y in q ensures !LexLess(KeyOf(c, s, i, y), KeyOf(c, s, i, r)) {
        var b :| 0 <= b < |q| && q[b] == y;
        BeforeHead(c, s, i, r, q, b);
      }
      OrderedCons(c, s, i, r, q);
    } else {
      assert q == [q[0]] + q[1..];
      OrderedTail(c, s, i, q);
      InsertOrdered(c, s, i, r, q[1..]);
      OrderedCons(c, s, i, q[0], InsertByKey(c, s, i, r, q[1..]));
    }
  }

  lemma {:induction false} QueueMembers(c: Config, s: State, i: Input, need: map<Robot, seq<Zone>>, n: nat)
    requires n <= |i.order|
    ensures forall r :: r in Queue(c, s, i, need, n) <==> r in need && r in i.order[..n]
    ensures Ordered(c, s, i, Queue(c, s, i, need, n))
  {
    if n > 0 {
      hide InsertByKey, Ordered;
      QueueMembers(c, s, i, need, n - 1);
      var q := Queue(c, s, i, need, n - 1);
      var r := i.order[n - 1];
      assert i.order[..n] == i.order[..n - 1] + [r];
      if r in need && r !in q {
        InsertOrdered(c, s, i, r, q);
      }
    } else {
      EmptyOrdered(c, s, i);
    }
  }

  lemma EmptyOrdered(c: Config, s: State, i: Input)
    ensures Ordered(c, s, i, [])
  {
  }
}
