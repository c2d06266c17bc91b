/** Distributed choice of chargers: every robot announces its claim and yields to earlier ones. */
module Chargers {
  import opened Options
  import opened Sorting

  type Robot = int
  type Charger = int

  /** heard: when the claim was last received. */
  datatype Claim = Claim(charger: Charger, since: real, heard: real)

  /** Another robot validly claimed the charger before (since, me). */
  predicate Taken(claims: map<Robot, Claim>, me: Robot, id: Charger, since: real, t: real, timeout: real) {
    exists r :: r in claims && claims[r].charger == id && t - claims[r].heard <= timeout &&
                (claims[r].since < since || (claims[r].since == since && r < me))
  }

  /** The first preferred charger that is known and not taken. */
  function FirstFree(pref: seq<Charger>, docks: set<Charger>, claims: map<Robot, Claim>, me: Robot, t: real,
                     timeout: real): Option<Charger>
  {
    if pref == [] then None
    else if !Taken(claims, me, pref[0], t, t, timeout) && pref[0] in docks then Some(pref[0])
    else FirstFree(pref[1..], docks, claims, me, t, timeout)
  }

  datatype Held = Held(charger: Charger, since: real)

  /** What a robot claims after selecting: its old claim if it keeps it, otherwise a new one from now. */
  function Select(own: Option<Held>, keepCurrent: bool, pref: seq<Charger>, docks: set<Charger>,
                  claims: map<Robot, Claim>, me: Robot, t: real, timeout: real): Option<Held>
  {
    if own.Some? && (keepCurrent || !Taken(claims, me, own.value.charger, own.value.since, t, timeout)) then own
    else
      var free := FirstFree(pref, docks, claims, me, t, timeout);
      if free.Some? then Some(Held(free.value, t)) else None
  }

  // ---------------------------------------------------------------- what selecting means

  /** Robot q's claim on the charger still counts, and goes before one made at the given time. */
  ghost predicate Rival(claims: map<Robot, Claim>, me: Robot, id: Charger, since: real, t: real, timeout: real, q: Robot) {
    && q in claims && claims[q].charger == id && claims[q].heard + timeout >= t
    && (claims[q].since < since || (claims[q].since == since && q < me))
  }

  ghost predicate HasRival(claims: map<Robot, Claim>, me: Robot, id: Charger, since: real, t: real, timeout: real) {
    exists q :: Rival(claims, me, id, since, t, timeout, q)
  }

  /** All known chargers of the list have rivals. */
  ghost predicate AllRivals(pref: seq<Charger>, docks: set<Charger>, claims: map<Robot, Claim>, me: Robot, t: real, timeout: real) {
    forall c :: c in pref && c in docks ==> HasRival(claims, me, c, t, t, timeout)
  }

  /**
   A claim is kept if the robot insists on it or has no rival for it; else the first known charger of the
   list without a rival is claimed from now on, and none if there is none.
   */
  ghost predicate SelectsRightly(own: Option<Held>, keepCurrent: bool, pref: seq<Charger>, docks: set<Charger>,
                                 claims: map<Robot, Claim>, me: Robot, t: real, timeout: real, n: Option<Held>)
  {
    if own.Some? && (keepCurrent || !HasRival(claims, me, own.value.charger, own.value.since, t, timeout)) then n == own
    else if n == None then AllRivals(pref, docks, claims, me, t, timeout)
    else
      && n.value.since == t && n.value.charger in docks && !HasRival(claims, me, n.value.charger, t, t, timeout)
      && exists k :: 0 <= k < |pref| && pref[k] == n.value.charger && AllRivals(pref[..k], docks, claims, me, t, timeout)
  }

  lemma RivalTakes(claims: map<Robot, Claim>, me: Robot, id: Charger, since: real, t: real, timeout: real)
    ensures Taken(claims, me, id, since, t, timeout) <==> HasRival(claims, me, id, since, t, timeout)
  {
    if Taken(claims, me, id, since, t, timeout) {
      var q :| q in claims && claims[q].charger == id && t - claims[q].heard <= timeout &&
               (claims[q].since < since || (claims[q].since == since && q < me));
      assert Rival(claims, me, id, since, t, timeout, q);
    }
    if q :| Rival(claims, me, id, since, t, timeout, q) {
      assert q in claims;
    }
  }

  lemma SelectMeaning(own: Option<Held>, keepCurrent: bool, pref: seq<Charger>, docks: set<Charger>,
                      claims: map<Robot, Claim>, me: Robot, t: real, timeout: real)
    ensures SelectsRightly(own, keepCurrent, pref, docks, claims, me, t, timeout,
                           Select(own, keepCurrent, pref, docks, claims, me, t, timeout))
  {
    hide Taken, HasRival, FirstFree;
    forall id, since ensures Taken(claims, me, id, since, t, timeout) <==> HasRival(claims, me, id, since, t, timeout) {
      RivalTakes(claims, me, id, since, t, timeout);
    }
    FirstFreeMeaning(pref, docks, claims, me, t, timeout);
    var n := Select(own, keepCurrent, pref, docks, claims, me, t, timeout);
    if FirstFree(pref, docks, claims, me, t, timeout).Some? {
      var k :| 0 <= k < |pref| && pref[k] == FirstFree(pref, docks, claims, me, t, timeout).value &&
               AllTaken(pref[..k], docks, claims, me, t, timeout);
      assert AllRivals(pref[..k], docks, claims, me, t, timeout);
    }
  }

  lemma {:induction false} FirstFreeMeaning(pref: seq<Charger>, docks: set<Charger>, claims: map<Robot, Claim>, me: Robot,
                                            t: real, timeout: real)
    ensures var f := FirstFree(pref, docks, claims, me, t, timeout);
            && (f.Some? ==> f.value in pref && f.value in docks && !Taken(claims, me, f.value, t, t, timeout))
            && (f == None ==> forall c :: c in pref && c in docks ==> Taken(claims, me, c, t, t, timeout))
            && (f.Some? ==> exists k :: 0 <= k < |pref| && pref[k] == f.value && AllTaken(pref[..k], docks, claims, me, t, timeout))
  {
    if pref != [] {
      FirstFreeMeaning(pref[1..], docks, claims, me, t, timeout);
      var f := FirstFree(pref, docks, claims, me, t, timeout);
      if !Taken(claims, me, pref[0], t, t, timeout) && pref[0] in docks {
        assert pref[0] == f.value && AllTaken(pref[..0], docks, claims, me, t, timeout);
      } else if f.Some? {
        var k :| 0 <= k < |pref[1..]| && pref[1..][k] == f.value && AllTaken(pref[1..][..k], docks, claims, me, t, timeout);
        assert pref[..k + 1] == [pref[0]] + pref[1..][..k];
        assert pref[k + 1] == f.value;
      }
    }
  }

  /** Every known charger of the list is taken. */
  ghost predicate AllTaken(pref: seq<Charger>, docks: set<Charger>, claims: map<Robot, Claim>, me: Robot, t: real, timeout: real) {
    forall c :: c in pref && c in docks ==> Taken(claims, me, c, t, t, timeout)
  }

  /** Remainder with the sign of the dividend. */
  function TruncMod(a: int, n: int): int
    requires n > 0
  {
    if a >= 0 then a % n else -((-a) % n)
  }

  /** The C++ index (a % n + n + i) % n is the Euclidean (a + i) % n, whatever the sign of a. */
  lemma TruncModShift(a: int, n: int, i: int)
    requires n > 0 && 0 <= i < n
    ensures 0 <= TruncMod(a, n) + n + i
    ensures (TruncMod(a, n) + n + i) % n == (a + i) % n
  {
    var q := if a >= 0 then a / n else -((-a) / n);
    var x := TruncMod(a, n) + n + i;
    assert a == q * n + TruncMod(a, n);
    assert a + i == x + (q - 1) * n;
    QuotientUnique(x, a + i, n, q - 1);
  }

  lemma QuotientUnique(x: int, y: int, n: int, k: int)
    requires n > 0 && y == x + k * n
    ensures x % n == y % n
  {
    var d := x / n + k - y / n;
    assert d * n == (x / n) * n + k * n - (y / n) * n;
    assert d * n == y % n - x % n;
    SmallMultiple(d, n);
  }

  lemma SmallMultiple(d: int, n: int)
    requires n > 0 && -n < d * n < n
    ensures d == 0
  {
    assert d >= 1 ==> (d - 1) * n >= 0;
    assert d <= -1 ==> (-1 - d) * n >= 0;
  }

  class ExecutorContext {
    const robotId: Robot
    var docks: set<Charger>
    var preference: seq<Charger>
    var claimTimeout: real
    var claim: Option<Charger>
    var claimSince: real
    var claims: map<Robot, Claim>

    constructor (robotId: Robot, docks: set<Charger>)
      ensures this.robotId == robotId && this.docks == docks && claim == None && claims == map[]
    {
      this.robotId, this.docks := robotId, docks;
      preference, claimTimeout, claim, claimSince, claims := [], 0.0, None, 0.0, map[];
    }

    function Own(): Option<Held>
      reads this
    {
      if claim.Some? then Some(Held(claim.value, claimSince)) else None
    }

    /** The preference is the charger list, rotated to start at the robot's own index. */
    method SetChargers(ids: seq<Charger>, index: int, timeout: real)
      modifies this`preference, this`claimTimeout
      ensures |preference| == |ids| && claimTimeout == timeout
      ensures forall i :: 0 <= i < |ids| ==> preference[i] == ids[(index + i) % |ids|]
    {
      preference := [];
      var n := |ids|;
      for i := 0 to n
        invariant |preference| == i
        invariant forall k :: 0 <= k < i ==> preference[k] == ids[(index + k) % n]
      {
        TruncModShift(index, n, i);
        preference := preference + [ids[(TruncMod(index, n) + n + i) % n]];
      }
      claimTimeout := timeout;
    }

    /** A claim heard from another robot; None releases it. */
    method UpdateChargerClaim(robot: Robot, charger: Option<Charger>, since: real, t: real)
      modifies this`claims
      ensures claims == if robot == robotId then old(claims)
                        else if charger == None then old(claims) - {robot}
                        else old(claims)[robot := Claim(charger.value, since, t)]
    {
      if robot != robotId {
        if charger == None {
          claims := claims - {robot};
        } else {
          claims := claims[robot := Claim(charger.value, since, t)];
        }
      }
    }

    /** Keeps or renews the claim; tells whether the change must be announced. */
    method SelectCharger(keepCurrent: bool, t: real) returns (chosen: Option<Charger>, announce: bool)
      modifies this`claim, this`claimSince
      ensures Own() == Select(old(Own()), keepCurrent, preference, docks, claims, robotId, t, claimTimeout)
      ensures SelectsRightly(old(Own()), keepCurrent, preference, docks, claims, robotId, t, claimTimeout, Own())
      ensures chosen == if claim.Some? && claim.value in docks then claim else None
      ensures announce <==> claim != old(claim)
    {
      hide SelectsRightly, Taken;
      SelectMeaning(Own(), keepCurrent, preference, docks, claims, robotId, t, claimTimeout);
      var previous := claim;
      if claim.Some? && (keepCurrent || !Taken(claims, robotId, claim.value, claimSince, t, claimTimeout)) {
        chosen := if claim.value in docks then claim else None;
      } else {
        claim, chosen := None, None;
        var k := 0;
        while k < |preference|
          invariant 0 <= k <= |preference| && claim == None && chosen == None
          invariant FirstFree(preference, docks, claims, robotId, t, claimTimeout) ==
                      FirstFree(preference[k..], docks, claims, robotId, t, claimTimeout)
        {
          var id := preference[k];
          if !Taken(claims, robotId, id, t, t, claimTimeout) && id in docks {
            chosen, claim, claimSince := Some(id), Some(id), t;
            break;
          }
          k := k + 1;
        }
      }
      announce := claim != previous;
    }

    method ReleaseCharger() returns (announce: bool)
      modifies this`claim
      ensures claim == None && (announce <==> old(claim) != None)
    {
      announce := claim.Some?;
      claim := None;
    }
  }

  // ---------------------------------------------------------------- rounds of announcements

  /** Who claims what, since when. */
  type Claims = map<Robot, Held>

  /**
   The fleet in the round model: in every round each robot has heard everybody's current
   claim and then selects without insisting on its own.
   */
  datatype Fleet = Fleet(robots: set<Robot>, chargers: set<Charger>, pref: map<Robot, seq<Charger>>, timeout: real) {
    ghost predicate Valid() {
      && pref.Keys == robots && timeout >= 0.0
      && forall r :: r in robots ==> forall c :: c in chargers <==> c in pref[r]
    }
  }

  ghost function View(s: Claims, me: Robot, t: real): map<Robot, Claim> {
    map r | r in s && r != me :: Claim(s[r].charger, s[r].since, t)
  }

  ghost function Next(f: Fleet, s: Claims, r: Robot, t: real): Option<Held>
    requires r in f.pref
  {
    Select(if r in s then Some(s[r]) else None, false, f.pref[r], f.chargers, View(s, r, t), r, t, f.timeout)
  }

  /** Everybody selects once, robot r at its time times[r]. */
  ghost function Round(f: Fleet, s: Claims, times: map<Robot, real>): Claims
    requires f.Valid() && times.Keys == f.robots
  {
    map r | r in f.robots && Next(f, s, r, times[r]).Some? :: Next(f, s, r, times[r]).value
  }

  /** Claims of fleet robots on fleet chargers, all made before the times of the next round. */
  ghost predicate Before(f: Fleet, s: Claims, times: map<Robot, real>) {
    && times.Keys == f.robots && s.Keys <= f.robots
    && (forall r :: r in s ==> s[r].charger in f.chargers)
    && (forall r, q :: r in s && q in times ==> s[r].since < times[q])
  }

  ghost predicate Claimed(s: Claims, c: Charger) {
    exists r :: r in s && s[r].charger == c
  }

  ghost predicate Conflict(s: Claims, c: Charger) {
    exists r, q :: r in s && q in s && r != q && s[r].charger == c && s[q].charger == c
  }

  /** r has the earliest claim on its charger, ties by id. */
  ghost predicate Wins(s: Claims, r: Robot) {
    r in s && forall q :: q in s && q != r && s[q].charger == s[r].charger ==>
                s[r].since < s[q].since || (s[r].since == s[q].since && r < q)
  }

  /** The first of the list that nobody claims. */
  ghost predicate FirstUnclaimed(s: Claims, pref: seq<Charger>, c: Charger) {
    !Claimed(s, c) && exists k :: 0 <= k < |pref| && pref[k] == c && forall j :: 0 <= j < k ==> Claimed(s, pref[j])
  }

  /** In a round, a claim stands exactly if it wins; otherwise the robot takes the first of its chargers nobody claims, if any. */
  lemma NextMeaning(f: Fleet, s: Claims, times: map<Robot, real>, r: Robot)
    requires f.Valid() && Before(f, s, times) && r in f.robots
    ensures var n := Next(f, s, r, times[r]);
            if Wins(s, r) then n == Some(s[r])
            else if n.Some? then n.value.since == times[r] && FirstUnclaimed(s, f.pref[r], n.value.charger)
            else forall c :: c in f.chargers ==> Claimed(s, c)
  {
    var t := times[r];
    var view := View(s, r, t);
    FirstFreeMeaning(f.pref[r], f.chargers, view, r, t, f.timeout);
    hide FirstFree;
    if r in s {
      OwnTaken(f, s, r, t);
    }
    forall c | c in f.chargers && (r in s ==> !Wins(s, r))
      ensures Taken(view, r, c, t, t, f.timeout) <==> Claimed(s, c)
    {
      OtherTaken(f, s, times, r, c);
    }
  }

  lemma OwnTaken(f: Fleet, s: Claims, r: Robot, t: real)
    requires r in s && f.timeout >= 0.0
    ensures Taken(View(s, r, t), r, s[r].charger, s[r].since, t, f.timeout) <==> !Wins(s, r)
  {
    var view := View(s, r, t);
    if !Wins(s, r) {
      var q :| q in s && q != r && s[q].charger == s[r].charger &&
               !(s[r].since < s[q].since || (s[r].since == s[q].since && r < q));
      assert q in view;
    }
  }

  lemma OtherTaken(f: Fleet, s: Claims, times: map<Robot, real>, r: Robot, c: Charger)
    requires f.Valid() && Before(f, s, times) && r in f.robots && (r in s ==> !Wins(s, r))
    ensures Taken(View(s, r, times[r]), r, c, times[r], times[r], f.timeout) <==> Claimed(s, c)
  {
    var view := View(s, r, times[r]);
    if Claimed(s, c) {
      var q :| q in s && s[q].charger == c;
      if q == r {
        var p :| p in s && p != r && s[p].charger == s[r].charger;
        assert p in view;
      } else {
        assert q in view;
      }
    }
  }

  // ---------------------------------------------------------------- winners stay

  lemma TwoWinners(s: Claims, r: Robot, q: Robot)
    requires Wins(s, r) && Wins(s, q) && s[r].charger == s[q].charger
    ensures r == q
  {
  }

  lemma LoserConflicts(s: Claims, r: Robot)
    requires r in s && !Wins(s, r)
    ensures Conflict(s, s[r].charger)
  {
  }

  /** In every round the earliest claimant keeps its charger and becomes its only claimant. */
  lemma WinnerStays(f: Fleet, s: Claims, times: map<Robot, real>, r: Robot)
    requires f.Valid() && Before(f, s, times) && Wins(s, r)
    ensures var n := Round(f, s, times); Wins(n, r) && n[r] == s[r] && !Conflict(n, s[r].charger)
  {
    hide Next;
    var n := Round(f, s, times);
    NextMeaning(f, s, times, r);
    forall q | q in n && q != r
      ensures n[q].charger != s[r].charger
    {
      NextMeaning(f, s, times, q);
      assert Claimed(s, s[r].charger);
      if Wins(s, q) && n[q].charger == s[r].charger {
        TwoWinners(s, r, q);
      }
    }
  }

  lemma {:induction false} EarliestIn(s: Claims, c: Charger, among: set<Robot>) returns (w: Robot)
    requires among != {} && forall r :: r in among ==> r in s && s[r].charger == c
    ensures w in among
    ensures forall q :: q in among && q != w ==> s[w].since < s[q].since || (s[w].since == s[q].since && w < q)
    decreases among
  {
    var r := Pick(among);
    if among == {r} {
      w := r;
    } else {
      var v := EarliestIn(s, c, among - {r});
      w := if s[v].since < s[r].since || (s[v].since == s[r].since && v < r) then v else r;
    }
  }

  /** Every claimed charger has an earliest claimant. */
  lemma SomeoneWins(s: Claims, c: Charger) returns (w: Robot)
    requires Claimed(s, c)
    ensures Wins(s, w) && s[w].charger == c
  {
    var among := set r | r in s && s[r].charger == c;
    var r :| r in s && s[r].charger == c;
    assert r in among;
    w := EarliestIn(s, c, among);
    assert forall q :: q in s && s[q].charger == c ==> q in among;
  }

  /** A charger claimed before the round stays claimed, by one robot only. */
  lemma ClaimedStays(f: Fleet, s: Claims, times: map<Robot, real>, c: Charger)
    requires f.Valid() && Before(f, s, times) && Claimed(s, c)
    ensures Claimed(Round(f, s, times), c) && !Conflict(Round(f, s, times), c)
  {
    var w := SomeoneWins(s, c);
    WinnerStays(f, s, times, w);
  }

  /** A robot that lost its charger, or had none, never moves to a charger it saw claimed. */
  lemma LoserAvoidsClaimed(f: Fleet, s: Claims, times: map<Robot, real>, r: Robot)
    requires f.Valid() && Before(f, s, times) && r in f.robots && !Wins(s, r)
    ensures var n := Round(f, s, times);
            if r in n then !Claimed(s, n[r].charger) else forall c :: c in f.chargers ==> Claimed(s, c)
  {
    hide Next;
    NextMeaning(f, s, times, r);
  }

  // ---------------------------------------------------------------- runs of rounds

  ghost predicate Later(a: map<Robot, real>, b: map<Robot, real>) {
    forall r, q :: r in a && q in b ==> a[r] < b[q]
  }

  /** s[k + 1] follows from s[k] by the round at times[k]; each round is after the one before it. */
  ghost predicate Run(f: Fleet, s: seq<Claims>, times: seq<map<Robot, real>>) {
    && f.Valid() && |s| == |times| + 1
    && (forall k :: 0 <= k < |times| ==> times[k].Keys == f.robots)
    && (forall k :: 0 < k < |times| ==> Later(times[k - 1], times[k]))
    && (times != [] ==> Before(f, s[0], times[0]))
    && (forall k :: 0 <= k < |times| ==> s[k + 1] == Round(f, s[k], times[k]))
  }

  lemma RoundBefore(f: Fleet, s: Claims, times: map<Robot, real>, next: map<Robot, real>)
    requires f.Valid() && Before(f, s, times) && next.Keys == f.robots && Later(times, next)
    ensures Before(f, Round(f, s, times), next)
  {
    hide Next;
    var n := Round(f, s, times);
    forall r | r in n
      ensures n[r].charger in f.chargers && forall q :: q in next ==> n[r].since < next[q]
    {
      NextMeaning(f, s, times, r);
      forall q | q in next ensures n[r].since < next[q] {
        assert times[r] < next[q];
      }
    }
  }

  lemma {:induction false} RunBefore(f: Fleet, s: seq<Claims>, times: seq<map<Robot, real>>, k: nat)
    requires Run(f, s, times) && k < |times|
    ensures Before(f, s[k], times[k])
  {
    if k > 0 {
      RunBefore(f, s, times, k - 1);
      RoundBefore(f, s[k - 1], times[k - 1], times[k]);
    }
  }

  ghost function ClaimedSet(f: Fleet, s: Claims): set<Charger> {
    set c | c in f.chargers && Claimed(s, c)
  }

  ghost predicate AnyConflict(s: Claims) {
    exists c :: Conflict(s, c)
  }

  /** Two consecutive rounds: a conflict after the second needs one after the first. */
  lemma ConflictNeedsConflict(f: Fleet, s: Claims, t0: map<Robot, real>, t1: map<Robot, real>)
    requires f.Valid() && Before(f, s, t0) && Before(f, Round(f, s, t0), t1)
    requires AnyConflict(Round(f, Round(f, s, t0), t1))
    ensures AnyConflict(Round(f, s, t0))
  {
    hide Next, Round;
    var a := Round(f, s, t0);
    var b := Round(f, a, t1);
    var c :| Conflict(b, c);
    var r, q :| r in b && q in b && r != q && b[r].charger == c && b[q].charger == c;
    if Claimed(a, c) {
      ClaimedStays(f, a, t1, c);
      assert false;
    }
    InFleet(f, a, t1, r);
    if Wins(a, r) {
      WinnerStays(f, a, t1, r);
      assert false;
    }
    if r !in a {
      NoneLeft(f, s, t0, r, c);
      assert false;
    }
    LoserConflicts(a, r);
  }

  lemma InFleet(f: Fleet, s: Claims, times: map<Robot, real>, r: Robot)
    requires f.Valid() && Before(f, s, times) && r in Round(f, s, times)
    ensures r in f.robots && Round(f, s, times)[r].charger in f.chargers
  {
    hide Next;
    NextMeaning(f, s, times, r);
  }

  /** A robot without a charger after a round means that every charger is claimed. */
  lemma NoneLeft(f: Fleet, s: Claims, times: map<Robot, real>, r: Robot, c: Charger)
    requires f.Valid() && Before(f, s, times) && r in f.robots && r !in Round(f, s, times) && c in f.chargers
    ensures Claimed(Round(f, s, times), c)
  {
    if Wins(s, r) {
      WinnerStays(f, s, times, r);
      assert false;
    }
    LoserAvoidsClaimed(f, s, times, r);
    ClaimedStays(f, s, times, c);
  }

  /** A round that leaves a conflict has claimed a charger that was free. */
  lemma ConflictClaims(f: Fleet, s: Claims, times: map<Robot, real>)
    requires f.Valid() && Before(f, s, times) && AnyConflict(Round(f, s, times))
    ensures |ClaimedSet(f, Round(f, s, times))| > |ClaimedSet(f, s)|
  {
    hide Next, Round;
    var n := Round(f, s, times);
    forall c | c in ClaimedSet(f, s) ensures c in ClaimedSet(f, n) {
      ClaimedStays(f, s, times, c);
    }
    var c :| Conflict(n, c);
    var r :| r in n && n[r].charger == c;
    InFleet(f, s, times, r);
    if Claimed(s, c) {
      ClaimedStays(f, s, times, c);
      assert false;
    }
    assert c in ClaimedSet(f, n);
    SubsetSize(ClaimedSet(f, s) + {c}, ClaimedSet(f, n));
  }

  /** While conflicts last, every round claims one more charger. */
  lemma {:induction false} ConflictCost(f: Fleet, s: seq<Claims>, times: seq<map<Robot, real>>, k: nat)
    requires Run(f, s, times) && 0 < k < |s| && AnyConflict(s[k])
    ensures |ClaimedSet(f, s[k])| >= k
  {
    RunBefore(f, s, times, k - 1);
    ConflictClaims(f, s[k - 1], times[k - 1]);
    if k > 1 {
      RunBefore(f, s, times, k - 2);
      ConflictNeedsConflict(f, s[k - 2], times[k - 2], times[k - 1]);
      ConflictCost(f, s, times, k - 1);
    }
  }

  /**
   With m chargers, from round m + 1 on no two robots claim the same one, nothing changes any
   more, and a robot is left without a charger only if all of them are claimed.
   */
  lemma Settled(f: Fleet, s: seq<Claims>, times: seq<map<Robot, real>>, k: nat)
    requires Run(f, s, times) && |f.chargers| < k < |s|
    ensures !AnyConflict(s[k])
    ensures forall r :: r in f.robots && r !in s[k] ==> forall c :: c in f.chargers ==> Claimed(s[k], c)
    ensures k + 1 < |s| ==> s[k + 1] == s[k]
  {
    if AnyConflict(s[k]) {
      ConflictCost(f, s, times, k);
      SubsetSize(ClaimedSet(f, s[k]), f.chargers);
      assert false;
    }
    RunBefore(f, s, times, k - 1);
    forall r, c | r in f.robots && r !in s[k] && c in f.chargers ensures Claimed(s[k], c) {
      NoneLeft(f, s[k - 1], times[k - 1], r, c);
    }
    if k + 1 < |s| {
      RunBefore(f, s, times, k);
      Fixed(f, s[k], times[k]);
    }
  }

  lemma Fixed(f: Fleet, s: Claims, times: map<Robot, real>)
    requires f.Valid() && Before(f, s, times) && !AnyConflict(s)
    requires forall r :: r in f.robots && r !in s ==> forall c :: c in f.chargers ==> Claimed(s, c)
    ensures Round(f, s, times) == s
  {
    hide Next;
    var n := Round(f, s, times);
    forall r | r in f.robots
      ensures (r in n <==> r in s) && (r in s ==> n[r] == s[r])
    {
      NextMeaning(f, s, times, r);
      if r in s && !Wins(s, r) {
        LoserConflicts(s, r);
        assert false;
      }
    }
  }

  /** An earliest claimant keeps its charger through the whole run. */
  lemma {:induction false} WinnerForever(f: Fleet, s: seq<Claims>, times: seq<map<Robot, real>>, j: nat, k: nat, r: Robot)
    requires Run(f, s, times) && j <= k < |s| && Wins(s[j], r)
    ensures Wins(s[k], r) && s[k][r] == s[j][r]
    decreases k - j
  {
    if j < k {
      WinnerForever(f, s, times, j, k - 1, r);
      RunBefore(f, s, times, k - 1);
      WinnerStays(f, s[k - 1], times[k - 1], r);
    }
  }
}
