/** Giving way at predicted crossings: chains of robots that give way, which never close into a cycle. */
module Crossing {
  import opened Deadlock
  import opened Graphs
  import opened IncidentCycles
  import opened Incidents
  import opened Ladder
  import opened Options

  /** Who gives way to whom. */
  type Yields = map<Robot, Robot>

  function Chain(out: Yields): (g: Graph)
    ensures forall u, v :: Edge(g, u, v) <==> u in out && v == out[u]
  {
    map y | y in out :: [out[y]]
  }

  // ---------------------------------------------------------------- following a chain

  /** The nodes seen have their successors seen, but for the one that comes next. */
  ghost predicate Followed(out: Yields, start: Robot, target: Robot, seen: set<Robot>, node: Option<Robot>) {
    && (start in seen || node == Some(start))
    && target !in seen
    && (forall u :: u in seen && u in out ==> out[u] in seen || node == Some(out[u]))
    && (node.Some? ==> Reach(Chain(out), start, node.value))
  }

  lemma FollowOne(out: Yields, start: Robot, target: Robot, seen: set<Robot>, n: Robot)
    requires Followed(out, start, target, seen, Some(n)) && n != target
    ensures Followed(out, start, target, seen + {n}, if n in out then Some(out[n]) else None)
  {
    if n in out {
      ReachEdge(Chain(out), n, out[n]);
      ReachTrans(Chain(out), start, n, out[n]);
    }
  }

  lemma FollowEnd(out: Yields, start: Robot, target: Robot, seen: set<Robot>, node: Option<Robot>)
    requires Followed(out, start, target, seen, node) && (node == None || node.value in seen)
    ensures !Reach(Chain(out), start, target)
  {
    if Reach(Chain(out), start, target) {
      assert ClosedUnder(Chain(out), seen);
      ReachStays(Chain(out), seen, start, target);
      assert false;
    }
  }

  /** Whether following the chain from start reaches the target; ends on every chain, cyclic or not. */
  method LeadsToTarget(out: Yields, start: Robot, target: Robot) returns (r: bool)
    ensures r <==> Reach(Chain(out), start, target)
  {
    hide Reach, Chain;
    var seen: set<Robot>, node := {}, Some(start);
    ReachRefl(Chain(out), start);
    while node.Some? && node.value !in seen
      invariant Followed(out, start, target, seen, node)
      decreases out.Keys - seen, node.Some?
    {
      var n := node.value;
      if n == target {
        return true;
      }
      FollowOne(out, start, target, seen, n);
      seen := seen + {n};
      node := if n in out then Some(out[n]) else None;
    }
    FollowEnd(out, start, target, seen, node);
    r := false;
  }

  // ---------------------------------------------------------------- no cycle closes

  /** A walk of the longer chain from o uses old edges only, unless o led to y before. */
  lemma {:induction false} OldWalk(out: Yields, y: Robot, o: Robot, p: seq<Robot>)
    requires y !in out && !Reach(Chain(out), o, y)
    requires Walk(Chain(out[y := o]), p) && p[0] == o
    ensures Walk(Chain(out), p) && p[|p| - 1] != y
  {
    var n := |p| - 1;
    if n > 0 {
      var q := p[..n];
      assert forall i :: 0 <= i < |q| - 1 ==> Edge(Chain(out[y := o]), p[i], p[i + 1]);
      OldWalk(out, y, o, q);
      assert Edge(Chain(out[y := o]), p[n - 1], p[n]);
      forall i | 0 <= i < n ensures Edge(Chain(out), p[i], p[i + 1]) {
        if i < n - 1 {
          assert Edge(Chain(out), q[i], q[i + 1]);
        }
      }
    }
    assert WalkFromTo(Chain(out), p, o, p[n]);
  }

  lemma StillApart(out: Yields, y: Robot, o: Robot)
    requires y !in out && !Reach(Chain(out), o, y)
    ensures !Reach(Chain(out[y := o]), o, y)
  {
    if Reach(Chain(out[y := o]), o, y) {
      var p :| WalkFromTo(Chain(out[y := o]), p, o, y);
      OldWalk(out, y, o, p);
      assert false;
    }
  }

  /** A walk of the longer chain that never leaves y is a walk of the old one. */
  lemma WithoutNew(out: Yields, y: Robot, o: Robot, p: seq<Robot>)
    requires y !in out && Walk(Chain(out[y := o]), p) && forall i :: 0 <= i < |p| - 1 ==> p[i] != y
    ensures Walk(Chain(out), p)
  {
    forall i | 0 <= i < |p| - 1 ensures Edge(Chain(out), p[i], p[i + 1]) {
      assert Edge(Chain(out[y := o]), p[i], p[i + 1]);
    }
  }

  /** Letting y give way to o closes no cycle exactly if o does not already give way to y along the chain. */
  lemma NoCycleCloses(out: Yields, y: Robot, o: Robot)
    requires Acyclic(Chain(out)) && y !in out
    ensures Acyclic(Chain(out[y := o])) <==> !Reach(Chain(out), o, y)
  {
    if Reach(Chain(out), o, y) {
      var p :| WalkFromTo(Chain(out), p, o, y);
      assert WalkFromTo(Chain(out[y := o]), p, o, y) by {
        assert forall i :: 0 <= i < |p| - 1 ==> Edge(Chain(out), p[i], p[i + 1]);
      }
      assert Edge(Chain(out[y := o]), y, o);
    } else {
      var g := Chain(out[y := o]);
      forall u, v | Edge(g, u, v) ensures !Reach(g, v, u) {
        NoCycleThrough(out, y, o, u, v);
      }
    }
  }

  lemma NoCycleThrough(out: Yields, y: Robot, o: Robot, u: Robot, v: Robot)
    requires Acyclic(Chain(out)) && y !in out && !Reach(Chain(out), o, y) && Edge(Chain(out[y := o]), u, v)
    ensures !Reach(Chain(out[y := o]), v, u)
  {
    var g := Chain(out[y := o]);
    StillApart(out, y, o);
    if Reach(g, v, u) && u != y {
      var p :| WalkFromTo(g, p, v, u);
      if i :| 0 <= i < |p| - 1 && p[i] == y {
        assert Edge(g, p[i], p[i + 1]);
        OnWalk(g, p, i + 1);
        OnWalk(g, p, i);
        ReachEdge(g, u, v);
        ReachTrans(g, o, u, v);
        ReachTrans(g, o, v, y);
        assert false;
      } else {
        WithoutNew(out, y, o, p);
        assert WalkFromTo(Chain(out), p, v, u);
        assert Edge(Chain(out), u, v);
        assert false;
      }
    }
  }

  lemma NobodyYields()
    ensures Acyclic(Chain(map[]))
  {
  }

  // ---------------------------------------------------------------- conflicts and latches

  /** timeA, timeB: when each robot is at the predicted meeting point. */
  datatype Conflict = Conflict(a: Robot, b: Robot, crossing: bool, inZone: bool, timeA: real, timeB: real) {
    function TimeOf(r: Robot): real {
      if r == a then timeA else timeB
    }
  }

  datatype Latch = Latch(yielder: Robot, other: Robot, since: real)

  datatype Limits = Limits(actS: real, minS: real, maxHoldS: real)

  /**
   What one cycle is given.  busy: robots bound by an incident, yielding or waiting for a token;
   pinned: robots in a zone or holding the token of one they entered; ahead: pairs (y, o) where y already stands in
   the way of o.
   */
  datatype Scene = Scene(t: real, moving: set<Robot>, busy: set<Robot>, pinned: set<Robot>, ahead: set<(Robot, Robot)>)

  predicate Applies(s: Scene, c: Conflict) {
    c.crossing && c.a in s.moving && c.b in s.moving && c.a !in s.busy && c.b !in s.busy && !c.inZone
  }

  /** A conflict applies exactly if it is a crossing outside the zones of two driving robots that are not busy. */
  lemma AppliesWhen(s: Scene, c: Conflict)
    ensures Applies(s, c) <==> c.crossing && !c.inZone && {c.a, c.b} <= s.moving - s.busy
  {
  }

  /** Who can be stopped in time, the less important first. */
  function Candidates(l: Limits, s: Scene, w: World, c: Conflict): seq<Robot>
    requires c.a in w.views && c.b in w.views
  {
    var order := if Outranks(w, c.b, c.a) then [c.a, c.b] else [c.b, c.a];
    (if order[0] !in s.pinned && c.TimeOf(order[0]) >= l.minS then [order[0]] else []) +
    (if order[1] !in s.pinned && c.TimeOf(order[1]) >= l.minS then [order[1]] else [])
  }

  /** r gives way to the other robot of a conflict that applies, for no longer than allowed. */
  ghost predicate Justified(l: Limits, s: Scene, conflicts: seq<Conflict>, latches: map<set<Robot>, Latch>, r: Robot,
                            o: Robot)
  {
    exists c :: c in conflicts && Gives(l, s, c, latches, r, o)
  }

  ghost predicate Gives(l: Limits, s: Scene, c: Conflict, latches: map<set<Robot>, Latch>, r: Robot, o: Robot) {
    && Applies(s, c) && {c.a, c.b} in latches
    && latches[{c.a, c.b}].yielder == r && latches[{c.a, c.b}].other == o
    && r !in s.pinned && s.t - latches[{c.a, c.b}].since <= l.maxHoldS
  }

  /** When a robot of the conflict is at the meeting point. */
  ghost function ArrivalOf(c: Conflict, r: Robot): real {
    if r == c.b && c.b != c.a then c.timeB else c.timeA
  }

  /** y is the first of the two that can be stopped, is near enough to be, and does not stand in the other's way. */
  ghost predicate CanYield(l: Limits, s: Scene, w: World, c: Conflict, y: Robot, o: Robot) {
    && {y, o} == {c.a, c.b} && y !in s.pinned && l.minS <= ArrivalOf(c, y) <= l.actS && (y, o) !in s.ahead
    && y in w.views && o in w.views
    && (LessImportant(w, y, o) || o in s.pinned || ArrivalOf(c, o) < l.minS)
  }

  /** A new latch: the less important robot gives way, unless it cannot be stopped. */
  ghost predicate Right(l: Limits, s: Scene, w: World, c: Conflict, latch: Latch) {
    CanYield(l, s, w, c, latch.yielder, latch.other) && latch.since == s.t
  }

  class CrossingKeeper {
    var latches: map<set<Robot>, Latch>

    /** A latch between two robots names them. */
    ghost predicate Valid()
      reads this
    {
      forall p :: p in latches ==> p == {latches[p].yielder, latches[p].other}
    }

    constructor ()
      ensures Valid() && latches == map[]
    {
      latches := map[];
    }

    /** Chooses who gives way in a conflict not decided yet. */
    method Decide(l: Limits, s: Scene, w: World, c: Conflict, out: Yields) returns (latch: Option<Latch>)
      requires Applies(s, c) && c.a in w.views && c.b in w.views
      ensures latch.Some? ==> Right(l, s, w, c, latch.value) && latch.value.yielder !in out &&
                              !Reach(Chain(out), latch.value.other, latch.value.yielder)
      ensures latch.Some? ==> {latch.value.yielder, latch.value.other} == {c.a, c.b} && latch.value.since == s.t &&
                              latch.value.yielder !in s.pinned
      ensures latch == None ==> forall y, o :: CanYield(l, s, w, c, y, o) ==> y in out || Reach(Chain(out), o, y)
    {
      latch := None;
      FieldsOutrank(w, c.a, c.b);
      FieldsOutrank(w, c.b, c.a);
      if c.a != c.b {
        OutranksTotal(w, c.a, c.b);
      } else {
        ReachRefl(Chain(out), c.a);
      }
      var candidates := Candidates(l, s, w, c);
      if candidates != [] {
        var y := candidates[0];
        var o := if y == c.a then c.b else c.a;
        if c.TimeOf(y) <= l.actS && y !in out && (y, o) !in s.ahead {
          var back := LeadsToTarget(out, o, y);
          if !back {
            latch := Some(Latch(y, o, s.t));
          }
        }
      }
    }

    /** Treats one conflict. */
    method Meet(l: Limits, s: Scene, w: World, c: Conflict, out0: Yields, seen0: set<set<Robot>>)
      returns (out: Yields, seen: set<set<Robot>>)
      requires Valid() && Acyclic(Chain(out0)) && c.a in w.views && c.b in w.views
      modifies this
      ensures Valid() && Acyclic(Chain(out))
      ensures Met(l, s, w, c, Sweep(old(latches), seen0, out0), Sweep(latches, seen, out))
    {
      hide Reach, Acyclic, Chain, Applies, Right, CanYield, Met;
      NotMet(l, s, w, c, Sweep(latches, seen0, out0));
      ghost var before := latches;
      out, seen := out0, seen0;
      if Applies(s, c) {
        var pair := {c.a, c.b};
        if pair in latches && latches[pair].yielder in s.pinned {
          latches := latches - {pair};
        }
        var latch := if pair in latches then Some(latches[pair]) else None;
        if latch == None {
          latch := Decide(l, s, w, c, out);
        }
        ghost var decided := latch;
        if latch.Some? {
          latches := latches[pair := latch.value];
          seen := seen + {pair};
          var back := LeadsToTarget(out, latch.value.other, latch.value.yielder);
          if s.t - latch.value.since <= l.maxHoldS && latch.value.yielder !in out && !back {
            NoCycleCloses(out, latch.value.yielder, latch.value.other);
            out := out[latch.value.yielder := latch.value.other];
          }
        }
        MetBy(l, s, w, c, Sweep(before, seen0, out0), Sweep(latches, seen, out), decided);
      }
    }

    /**
     Who gives way to whom this cycle.  Whatever the conflicts and the latches of earlier cycles,
     nobody gives way in a circle; everybody who gives way is free to and in a conflict that
     applies; a latch stays exactly as long as its conflict applies and its robot is not pinned.
     */
    method CrossingHolds(l: Limits, s: Scene, w: World, conflicts: seq<Conflict>) returns (out: Yields)
      requires Valid() && forall c :: c in conflicts ==> c.a in w.views && c.b in w.views
      modifies this
      ensures Valid()
      ensures RightOfWay(l, s, w, conflicts, old(latches), latches, out)
    {
      hide Met, Acyclic, Chain, Swept, AllMet;
      out := map[];
      NobodyYields();
      var seen: set<set<Robot>> := {};
      StartSweep(l, s, w, conflicts, latches);
      var k := 0;
      while k < |conflicts|
        invariant 0 <= k <= |conflicts| && Valid()
        invariant Acyclic(Chain(out))
        invariant Swept(l, s, w, conflicts[..k], old(latches), Sweep(latches, seen, out))
      {
        ghost var before := Sweep(latches, seen, out);
        out, seen := Meet(l, s, w, conflicts[k], out, seen);
        SweepOn(l, s, w, conflicts[..k], conflicts[k], old(latches), before, Sweep(latches, seen, out));
        assert conflicts[..k] + [conflicts[k]] == conflicts[..k + 1];
        k := k + 1;
      }
      assert conflicts[..k] == conflicts;
      EndSweep(l, s, w, conflicts, old(latches), Sweep(latches, seen, out));
      latches := map p | p in latches && p in seen :: latches[p];
    }
  }

  /** Who gives way after a cycle, and the latches it leaves: nobody in a circle, everybody who must and can. */
  ghost predicate RightOfWay(l: Limits, s: Scene, w: World, conflicts: seq<Conflict>, before: map<set<Robot>, Latch>,
                             latches: map<set<Robot>, Latch>, out: Yields)
  {
    && Acyclic(Chain(out))
    && (forall r :: r in out ==> Justified(l, s, conflicts, latches, r, out[r]))
    && (forall c :: c in conflicts && Lasts(s, c, before) ==>
          {c.a, c.b} in latches && latches[{c.a, c.b}] == before[{c.a, c.b}])
    && (forall p :: p in latches ==> Between(s, conflicts, p))
    && (forall p :: p in latches ==> (p in before && latches[p] == before[p]) || Chosen(l, s, w, conflicts, latches[p]))
    && AllMet(l, s, w, conflicts, latches, out)
  }

  // ---------------------------------------------------------------- one sweep over the conflicts

  datatype Sweep = Sweep(latches: map<set<Robot>, Latch>, seen: set<set<Robot>>, out: Yields)

  /** Treating c decides at most the latch of its two robots, and lets at most one of them give way. */
  ghost predicate Met(l: Limits, s: Scene, w: World, c: Conflict, x: Sweep, y: Sweep) {
    var p := {c.a, c.b};
    if !Applies(s, c) then y == x
    else
      && (forall q :: q != p ==> (q in y.latches <==> q in x.latches) && (q in x.latches ==> y.latches[q] == x.latches[q]))
      && (p in y.latches ==> y.latches[p].yielder !in s.pinned)
      && (p in y.latches && !Lasts(s, c, x.latches) ==> Right(l, s, w, c, y.latches[p]))
      && (p in x.latches && x.latches[p].yielder !in s.pinned ==> p in y.latches && y.latches[p] == x.latches[p])
      && y.seen == (if p in y.latches then x.seen + {p} else x.seen)
      && (y.out == x.out ||
          (p in y.latches && y.latches[p].yielder !in x.out && Gives(l, s, c, y.latches, y.latches[p].yielder, y.latches[p].other)
           && y.out == x.out[y.latches[p].yielder := y.latches[p].other]))
      && (if p in y.latches then s.t - y.latches[p].since <= l.maxHoldS ==>
                                   YieldsOrCircles(y.out, y.latches[p].yielder, y.latches[p].other)
          else NobodyCan(l, s, w, c, y.out))
  }

  /** r gives way already, or a circle would close if it gave way to o. */
  ghost predicate YieldsOrCircles(out: Yields, r: Robot, o: Robot) {
    r in out || Reach(Chain(out), o, r)
  }

  /** Neither of the two can give way to the other now. */
  ghost predicate NobodyCan(l: Limits, s: Scene, w: World, c: Conflict, out: Yields) {
    forall y, o :: CanYield(l, s, w, c, y, o) ==> YieldsOrCircles(out, y, o)
  }

  /** More robots giving way makes more circles. */
  lemma StillCircles(out: Yields, more: Yields, r: Robot, o: Robot)
    requires YieldsOrCircles(out, r, o) && forall u :: u in out ==> u in more && more[u] == out[u]
    ensures YieldsOrCircles(more, r, o)
  {
    if r !in out {
      var p :| WalkFromTo(Chain(out), p, o, r);
      forall i | 0 <= i < |p| - 1 ensures Edge(Chain(more), p[i], p[i + 1]) {
        assert Edge(Chain(out), p[i], p[i + 1]);
      }
      assert WalkFromTo(Chain(more), p, o, r);
    }
  }

  lemma NotMet(l: Limits, s: Scene, w: World, c: Conflict, x: Sweep)
    ensures !Applies(s, c) ==> Met(l, s, w, c, x, x)
  {
    hide Applies;
  }

  /** The latches without the one of the two robots, if that is pinned. */
  function Unpinned(s: Scene, c: Conflict, latches: map<set<Robot>, Latch>): map<set<Robot>, Latch> {
    if {c.a, c.b} in latches && latches[{c.a, c.b}].yielder in s.pinned then latches - {{c.a, c.b}} else latches
  }

  lemma MetBy(l: Limits, s: Scene, w: World, c: Conflict, x: Sweep, y: Sweep, latch: Option<Latch>)
    requires Applies(s, c)
    requires var p, kept := {c.a, c.b}, Unpinned(s, c, x.latches);
             && (p in kept ==> latch == Some(kept[p]))
             && (p !in kept && latch.Some? ==> Right(l, s, w, c, latch.value) && latch.value.yielder !in s.pinned)
             && y.latches == (if latch.Some? then kept[p := latch.value] else kept)
             && y.seen == (if latch.Some? then x.seen + {p} else x.seen)
             && (y.out == x.out ||
                 (latch.Some? && latch.value.yielder !in x.out && s.t - latch.value.since <= l.maxHoldS &&
                  y.out == x.out[latch.value.yielder := latch.value.other]))
             && (if latch.Some? then s.t - latch.value.since <= l.maxHoldS ==>
                                       YieldsOrCircles(y.out, latch.value.yielder, latch.value.other)
                 else NobodyCan(l, s, w, c, y.out))
    ensures Met(l, s, w, c, x, y)
  {
    hide Applies, Right, YieldsOrCircles, NobodyCan;
  }

  ghost predicate Between(s: Scene, conflicts: seq<Conflict>, p: set<Robot>) {
    exists c :: c in conflicts && Applies(s, c) && p == {c.a, c.b}
  }

  /** The latch of the conflict's robots goes on. */
  ghost predicate Lasts(s: Scene, c: Conflict, latches: map<set<Robot>, Latch>) {
    Applies(s, c) && {c.a, c.b} in latches && latches[{c.a, c.b}].yielder !in s.pinned
  }

  /** Every latch in force makes its robot give way, and in a conflict without a latch neither can, but for circles. */
  ghost predicate AllMet(l: Limits, s: Scene, w: World, conflicts: seq<Conflict>, latches: map<set<Robot>, Latch>, out: Yields) {
    && (forall p :: p in latches && s.t - latches[p].since <= l.maxHoldS ==>
          YieldsOrCircles(out, latches[p].yielder, latches[p].other))
    && (forall c :: c in conflicts && Applies(s, c) && {c.a, c.b} !in latches ==> NobodyCan(l, s, w, c, out))
  }

  /** What holds after the given conflicts: seen latches are decided, the others are those of before. */
  ghost predicate Swept(l: Limits, s: Scene, w: World, done: seq<Conflict>, before: map<set<Robot>, Latch>, x: Sweep) {
    && (forall p :: p in x.seen ==> p in x.latches && x.latches[p].yielder !in s.pinned && Between(s, done, p))
    && (forall p :: p in x.seen ==> (p in before && x.latches[p] == before[p]) || Chosen(l, s, w, done, x.latches[p]))
    && (forall p :: p in x.latches && p !in x.seen ==> p in before && x.latches[p] == before[p])
    && (forall p :: p in before && before[p].yielder !in s.pinned ==> p in x.latches && x.latches[p] == before[p])
    && (forall c :: c in done && Lasts(s, c, before) ==> {c.a, c.b} in x.seen)
    && (forall r :: r in x.out ==> Seen(l, s, done, x, r, x.out[r]))
    && (forall p :: p in x.seen && p in x.latches && s.t - x.latches[p].since <= l.maxHoldS ==>
          YieldsOrCircles(x.out, x.latches[p].yielder, x.latches[p].other))
    && (forall c :: c in done && Applies(s, c) && {c.a, c.b} !in x.seen ==> NobodyCan(l, s, w, c, x.out))
  }

  ghost predicate Chosen(l: Limits, s: Scene, w: World, done: seq<Conflict>, latch: Latch) {
    exists c :: c in done && Right(l, s, w, c, latch)
  }

  ghost predicate Seen(l: Limits, s: Scene, done: seq<Conflict>, x: Sweep, r: Robot, o: Robot) {
    exists c :: c in done && {c.a, c.b} in x.seen && Gives(l, s, c, x.latches, r, o)
  }

  lemma StartSweep(l: Limits, s: Scene, w: World, conflicts: seq<Conflict>, before: map<set<Robot>, Latch>)
    ensures Swept(l, s, w, conflicts[..0], before, Sweep(before, {}, map[]))
  {
  }

  lemma SweepOn(l: Limits, s: Scene, w: World, done: seq<Conflict>, c: Conflict, before: map<set<Robot>, Latch>, x: Sweep, y: Sweep)
    requires Swept(l, s, w, done, before, x) && Met(l, s, w, c, x, y)
    ensures Swept(l, s, w, done + [c], before, y)
  {
    hide Applies, Right, Gives, Chosen, Seen, Between, Met;
    LatchesOn(l, s, w, done, c, before, x, y);
    forall p | p in y.seen
      ensures (p in before && y.latches[p] == before[p]) || Chosen(l, s, w, done + [c], y.latches[p])
    {
      ChosenOn(l, s, w, done, c, before, x, y, p);
    }
    forall r | r in y.out ensures Seen(l, s, done + [c], y, r, y.out[r]) {
      SeenOn(l, s, w, done, c, before, x, y, r);
    }
    LatchesUsed(l, s, w, done, c, before, x, y);
    NobodyStillCan(l, s, w, done, c, before, x, y);
  }

  lemma LatchesUsed(l: Limits, s: Scene, w: World, done: seq<Conflict>, c: Conflict, before: map<set<Robot>, Latch>, x: Sweep,
                    y: Sweep)
    requires Swept(l, s, w, done, before, x) && Met(l, s, w, c, x, y)
    ensures forall p :: p in y.seen && p in y.latches && s.t - y.latches[p].since <= l.maxHoldS ==>
              YieldsOrCircles(y.out, y.latches[p].yielder, y.latches[p].other)
  {
    hide Applies, Right, Gives, Chosen, Seen, Between, NobodyCan, YieldsOrCircles;
    forall p | p in y.seen && p in y.latches && s.t - y.latches[p].since <= l.maxHoldS
      ensures YieldsOrCircles(y.out, y.latches[p].yielder, y.latches[p].other)
    {
      if p != {c.a, c.b} || !Applies(s, c) {
        StillCircles(x.out, y.out, y.latches[p].yielder, y.latches[p].other);
      }
    }
  }

  lemma NobodyStillCan(l: Limits, s: Scene, w: World, done: seq<Conflict>, c: Conflict, before: map<set<Robot>, Latch>, x: Sweep,
                       y: Sweep)
    requires Swept(l, s, w, done, before, x) && Met(l, s, w, c, x, y)
    ensures forall e :: e in done + [c] && Applies(s, e) && {e.a, e.b} !in y.seen ==> NobodyCan(l, s, w, e, y.out)
  {
    hide Applies, Right, Gives, Chosen, Seen, Between, CanYield, YieldsOrCircles;
    forall e | e in done && Applies(s, e) && {e.a, e.b} !in y.seen ensures NobodyCan(l, s, w, e, y.out) {
      forall r, o | CanYield(l, s, w, e, r, o) ensures YieldsOrCircles(y.out, r, o) {
        StillCircles(x.out, y.out, r, o);
      }
    }
  }

  lemma LatchesOn(l: Limits, s: Scene, w: World, done: seq<Conflict>, c: Conflict, before: map<set<Robot>, Latch>, x: Sweep,
                  y: Sweep)
    requires Swept(l, s, w, done, before, x) && Met(l, s, w, c, x, y)
    ensures forall p :: p in y.seen ==> p in y.latches && y.latches[p].yielder !in s.pinned && Between(s, done + [c], p)
    ensures forall p :: p in y.latches && p !in y.seen ==> p in before && y.latches[p] == before[p]
    ensures forall p :: p in before && before[p].yielder !in s.pinned ==> p in y.latches && y.latches[p] == before[p]
    ensures forall e :: e in done + [c] && Lasts(s, e, before) ==> {e.a, e.b} in y.seen
  {
    hide Applies, Right, Gives, Chosen, Seen;
    forall p | p in y.seen ensures p in y.latches && y.latches[p].yielder !in s.pinned && Between(s, done + [c], p) {
      if p != {c.a, c.b} || !Applies(s, c) {
        var e :| e in done && Applies(s, e) && p == {e.a, e.b};
        assert e in done + [c];
      } else {
        assert c in done + [c];
      }
    }
  }

  lemma ChosenOn(l: Limits, s: Scene, w: World, done: seq<Conflict>, c: Conflict, before: map<set<Robot>, Latch>, x: Sweep,
               y: Sweep, p: set<Robot>)
    requires Swept(l, s, w, done, before, x) && Met(l, s, w, c, x, y) && p in y.seen && p in y.latches
    ensures (p in before && y.latches[p] == before[p]) || Chosen(l, s, w, done + [c], y.latches[p])
  {
    hide Applies, Right;
    if p in x.latches && y.latches[p] == x.latches[p] {
      if p in x.seen && Chosen(l, s, w, done, x.latches[p]) {
        var e :| e in done && Right(l, s, w, e, x.latches[p]);
        assert e in done + [c];
      }
    } else {
      assert c in done + [c];
    }
  }

  lemma SeenOn(l: Limits, s: Scene, w: World, done: seq<Conflict>, c: Conflict, before: map<set<Robot>, Latch>, x: Sweep, y: Sweep,
               r: Robot)
    requires Swept(l, s, w, done, before, x) && Met(l, s, w, c, x, y) && r in y.out
    ensures Seen(l, s, done + [c], y, r, y.out[r])
  {
    hide Applies;
    if r in x.out && y.out[r] == x.out[r] {
      var e :| e in done && {e.a, e.b} in x.seen && Gives(l, s, e, x.latches, r, x.out[r]);
      assert e in done + [c];
      assert {e.a, e.b} in y.seen && Gives(l, s, e, y.latches, r, y.out[r]);
    } else {
      assert c in done + [c];
    }
  }

  lemma EndSweep(l: Limits, s: Scene, w: World, conflicts: seq<Conflict>, before: map<set<Robot>, Latch>, x: Sweep)
    requires Swept(l, s, w, conflicts, before, x)
    ensures var kept := map p | p in x.latches && p in x.seen :: x.latches[p];
            && (forall r :: r in x.out ==> Justified(l, s, conflicts, kept, r, x.out[r]))
            && (forall c :: c in conflicts && Lasts(s, c, before) ==>
                  {c.a, c.b} in kept && kept[{c.a, c.b}] == before[{c.a, c.b}])
            && (forall p :: p in kept ==> Between(s, conflicts, p))
            && (forall p :: p in kept ==> (p in before && kept[p] == before[p]) || Chosen(l, s, w, conflicts, kept[p]))
            && AllMet(l, s, w, conflicts, kept, x.out)
  {
    hide Applies, YieldsOrCircles, NobodyCan;
    var kept := map p | p in x.latches && p in x.seen :: x.latches[p];
    forall r | r in x.out ensures Justified(l, s, conflicts, kept, r, x.out[r]) {
      var c :| c in conflicts && {c.a, c.b} in x.seen && Gives(l, s, c, x.latches, r, x.out[r]);
      assert Gives(l, s, c, kept, r, x.out[r]);
    }
  }
}
