/** One cycle of the traffic manager from giving way to opening incidents, with nothing taken for granted. */
module TrafficCycle {
  import opened Crossing
  import opened Deadlock
  import opened Graphs
  import opened IncidentCycles
  import opened IncidentManaging
  import opened Incidents
  import opened Ladder
  import opened Openings
  import opened Options
  import opened Sorting
  import opened TrafficManaging
  import C = CycleConfirming
  import SccInvariant
  import W = WaitFor

  /**
   What is seen in one cycle.  conflicts: predicted meetings; tokens: blockers of the robots waiting for
   tokens; moving, pinned, inFront: for giving way; still, slow, ahead: for robots behind bodies; parked:
   idle robots; held: robots that have stood long; stalled: robots without progress; near: for grouping them.
   */
  datatype Picture = Picture(t: real, w: World, sight: int -> Sight, conflicts: seq<Conflict>, tokens: map<Robot, set<Robot>>,
                             moving: set<Robot>, pinned: set<Robot>, inFront: set<(Robot, Robot)>, still: set<Robot>,
                             slow: set<Robot>, ahead: map<Robot, set<Robot>>, parked: set<Robot>, held: set<Robot>,
                             stalled: set<Robot>, near: (Robot, Robot) -> bool) {
    /** Predictions and bodies are those of robots in view. */
    predicate Valid() {
      && (forall c :: c in conflicts ==> c.a in w.views && c.b in w.views)
      && (forall u :: u in ahead ==> ahead[u] <= w.views.Keys)
    }

    function ActiveRobots(): set<Robot> {
      set r | r in w.views && w.views[r].active
    }

    /** Robots that will not make way by themselves. */
    function Fixed(): set<Robot> {
      set r | r in w.views && (r in parked || !w.views[r].mobile)
    }
  }

  ghost predicate InView(w: World, m: W.Edges) {
    forall u, v :: W.HasEdge(m, u, v) ==> v in w.views
  }

  /** Only robots in view are waited for. */
  lemma WaitedInView(p: Picture, s: Standing, l: Limits, scene: Scene, latches: map<set<Robot>, Latch>, m: W.Edges)
    requires p.Valid() && s.views == p.w.views.Keys && s.ahead == p.ahead
    requires forall r :: r in s.crossing ==> Justified(l, scene, p.conflicts, latches, r, s.crossing[r])
    requires forall q :: q in latches ==> q == {latches[q].yielder, latches[q].other}
    requires forall u, v :: W.HasEdge(m, u, v) <==> ShouldWait(s, u, v)
    ensures InView(p.w, m)
  {
    hide Applies;
    forall u, v | W.HasEdge(m, u, v) ensures v in p.w.views {
      if u in s.crossing && s.crossing[u] == v {
        var c :| c in p.conflicts && Gives(l, scene, c, latches, u, v);
        assert v in {c.a, c.b};
      }
    }
  }

  /** Every member of a class of two or more is waited for. */
  lemma ClassInView(w: World, m: W.Edges, g: Graph, c: seq<Robot>)
    requires InView(w, m) && (forall u, v :: Edge(g, u, v) <==> W.HasEdge(m, u, v))
    requires SccInvariant.IsClass(g, c) && |c| >= 2
    ensures Members(c) != {} && Members(c) <= w.views.Keys
  {
    hide Mutual;
    assert c[0] in c;
    forall v | v in c ensures v in w.views {
      var u := if c[0] == v then c[1] else c[0];
      assert u in c && u != v;
      assert Mutual(g, u, v);
      EndsInEdge(g, u, v);
      var x :| Edge(g, x, v);
      assert W.HasEdge(m, x, v);
    }
  }

  lemma EndsInEdge(g: Graph, u: Robot, v: Robot)
    requires Mutual(g, u, v) && u != v
    ensures exists x :: Edge(g, x, v)
  {
    var p :| WalkFromTo(g, p, u, v);
    assert Edge(g, p[|p| - 2], p[|p| - 1]);
  }

  /** The candidates among the components: free robots only, not cooling down. */
  function Eligibles(d: Desk, t: real, comps: seq<seq<Robot>>, busy: set<Robot>): (s: seq<set<Robot>>)
    ensures forall x :: x in s <==> exists k :: 0 <= k < |comps| && x == Members(comps[k]) && x !! busy && !d.InCooldown(x, t)
  {
    if comps == [] then []
    else
      var rest, x := Eligibles(d, t, comps[..|comps| - 1], busy), Members(comps[|comps| - 1]);
      if x !! busy && !d.InCooldown(x, t) then rest + [x] else rest
  }

  lemma {:induction false} EligiblesApart(d: Desk, t: real, comps: seq<seq<Robot>>, busy: set<Robot>)
    requires SccInvariant.Disjoint(comps)
    ensures PairwiseApart(Eligibles(d, t, comps, busy))
  {
    if comps != [] {
      var n := |comps| - 1;
      EligiblesApart(d, t, comps[..n], busy);
      var rest := Eligibles(d, t, comps[..n], busy);
      forall i | 0 <= i < |rest| ensures rest[i] !! Members(comps[n]) {
        assert rest[i] in rest;
        var k :| 0 <= k < n && rest[i] == Members(comps[k]);
        MembersApart(comps, k, n);
      }
    }
  }

  lemma MembersApart(comps: seq<seq<Robot>>, k: nat, n: nat)
    requires SccInvariant.Disjoint(comps) && k < n < |comps|
    ensures Members(comps[k]) !! Members(comps[n])
  {
    forall v | v in Members(comps[k]) ensures v !in Members(comps[n]) {
      assert v in comps[k];
    }
  }

  /** Those of a list that are also confirmed, in the order of the list. */
  function Chosen(sets: seq<set<Robot>>, confirmed: set<set<Robot>>): (s: seq<set<Robot>>)
    ensures forall x :: x in s <==> x in sets && x in confirmed
  {
    if sets == [] then []
    else Chosen(sets[..|sets| - 1], confirmed) + if sets[|sets| - 1] in confirmed then [sets[|sets| - 1]] else []
  }

  lemma {:induction false} ChosenApart(sets: seq<set<Robot>>, confirmed: set<set<Robot>>)
    requires PairwiseApart(sets)
    ensures PairwiseApart(Chosen(sets, confirmed))
  {
    if sets != [] {
      var n := |sets| - 1;
      ChosenApart(sets[..n], confirmed);
      var rest := Chosen(sets[..n], confirmed);
      forall i | 0 <= i < |rest| ensures sets[n] in confirmed ==> rest[i] !! sets[n] {
        assert rest[i] in rest;
        var k :| 0 <= k < n && sets[k] == rest[i];
      }
    }
  }

  /** The robots in r's way that will not make way by themselves. */
  ghost predicate InTheWay(p: Picture, m: W.Edges, r: Robot, b: Robot) {
    W.HasEdge(m, r, b) && b in p.w.views && (b in p.parked || !p.w.views[b].mobile)
  }

  /** h names a robot with work that has stood long, and all robots in its way that will not make way: some. */
  ghost predicate HeldRight(p: Picture, m: W.Edges, h: Held) {
    && h.r in p.ActiveRobots() * p.held && h.r in p.w.views && h.behind != {} && h.behind <= p.w.views.Keys
    && forall b :: b in h.behind <==> InTheWay(p, m, h.r, b)
  }

  /** Such robots, in ascending order. */
  ghost predicate ListsHeldUp(p: Picture, m: W.Edges, held: seq<Held>) {
    && (forall k :: 0 <= k < |held| ==> HeldRight(p, m, held[k]))
    && (forall j, k :: 0 <= j < k < |held| ==> held[j].r < held[k].r)
  }

  /** The list so far: made of the first n robots, with everybody among them that has somebody in the way. */
  ghost predicate HeldSoFar(p: Picture, m: W.Edges, robots: seq<Robot>, n: int, held: seq<Held>)
    requires 0 <= n <= |robots|
  {
    && (forall j :: 0 <= j < |held| ==> held[j].r in robots[..n])
    && (forall r, b :: r in robots[..n] && InTheWay(p, m, r, b) ==> exists j :: 0 <= j < |held| && held[j].r == r)
  }

  lemma OneHeld(p: Picture, m: W.Edges, robots: seq<Robot>, n: nat, held: seq<Held>, behind: set<Robot>)
    requires StrictlySorted(robots) && n < |robots| && robots[n] in p.ActiveRobots() * p.held
    requires HeldSoFar(p, m, robots, n, held) && ListsHeldUp(p, m, held)
    requires (forall b :: b in behind <==> InTheWay(p, m, robots[n], b)) && behind <= p.w.views.Keys
    ensures var more := if behind != {} then held + [Held(robots[n], behind)] else held;
            HeldSoFar(p, m, robots, n + 1, more) && ListsHeldUp(p, m, more)
  {
    hide InTheWay, HeldRight;
    var more := if behind != {} then held + [Held(robots[n], behind)] else held;
    assert robots[..n + 1] == robots[..n] + [robots[n]];
    if behind != {} {
      NewHeld(p, m, Held(robots[n], behind));
    }
    forall r, b | r in robots[..n + 1] && InTheWay(p, m, r, b) ensures exists j :: 0 <= j < |more| && more[j].r == r {
      if r in robots[..n] {
        var j :| 0 <= j < |held| && held[j].r == r;
        assert more[j].r == r;
      } else {
        assert b in behind && more[|held|].r == r;
      }
    }
    forall j | 0 <= j < |held| ensures held[j].r < robots[n] {
      var i :| 0 <= i < n && robots[i] == held[j].r;
    }
  }

  lemma NewHeld(p: Picture, m: W.Edges, h: Held)
    requires h.r in p.ActiveRobots() * p.held && h.behind != {} && h.behind <= p.w.views.Keys
    requires forall b :: b in h.behind <==> InTheWay(p, m, h.r, b)
    ensures HeldRight(p, m, h)
  {
  }

  /** The robots with work that have stood long behind robots that will not make way. */
  method HeldUp(p: Picture, g: W.WaitForGraph) returns (held: seq<Held>)
    requires g.Valid() && InView(p.w, g.succ)
    ensures ListsHeldUp(p, g.succ, held)
    ensures forall r, b :: r in p.ActiveRobots() * p.held && InTheWay(p, g.succ, r, b) ==>
              exists k :: 0 <= k < |held| && held[k].r == r
  {
    hide ListsHeldUp, InTheWay, HeldSoFar;
    var robots := Sorted(p.ActiveRobots() * p.held);
    held := [];
    NoneHeld(p, g.succ, robots);
    for k := 0 to |robots|
      invariant HeldSoFar(p, g.succ, robots, k, held) && ListsHeldUp(p, g.succ, held)
    {
      var r := robots[k];
      assert r in robots;
      var behind := if r in g.succ then set b | b in g.succ[r] && b in p.Fixed() else {};
      BehindIs(p, g.succ, r, behind);
      OneHeld(p, g.succ, robots, k, held, behind);
      if behind != {} {
        held := held + [Held(r, behind)];
      }
    }
    AllHeld(p, g.succ, robots, held);
  }

  lemma NoneHeld(p: Picture, m: W.Edges, robots: seq<Robot>)
    ensures HeldSoFar(p, m, robots, 0, []) && ListsHeldUp(p, m, [])
  {
  }

  lemma AllHeld(p: Picture, m: W.Edges, robots: seq<Robot>, held: seq<Held>)
    requires HeldSoFar(p, m, robots, |robots|, held) && forall r :: r in p.ActiveRobots() * p.held ==> r in robots
    ensures forall r, b :: r in p.ActiveRobots() * p.held && InTheWay(p, m, r, b) ==>
              exists k :: 0 <= k < |held| && held[k].r == r
  {
    hide InTheWay;
    assert robots[..|robots|] == robots;
  }

  lemma BehindIs(p: Picture, m: W.Edges, r: Robot, behind: set<Robot>)
    requires behind == if r in m then set b | b in m[r] && b in p.Fixed() else {}
    ensures (forall b :: b in behind <==> InTheWay(p, m, r, b)) && behind <= p.w.views.Keys
  {
  }

  /** Robots that an incident holds at a place to give way. */
  function Yielding(commands: map<Robot, Command>): set<Robot> {
    set r | r in commands && commands[r].Hold?
  }

  /** r is the victim of an incident and gives way at a place. */
  ghost predicate GivesWay(d: Desk, r: Robot) {
    exists i :: i in d.active && d.active[i].strategy == Yield && d.active[i].victims != [] && d.active[i].Victim() == r
  }

  lemma YieldingGives(c: Settings, d: Desk, commands: map<Robot, Command>)
    requires Incidents.Valid(c, d) && Incidents.Disjoint(d) && commands == Incidents.Commands(d, d.nextId)
    ensures forall r :: r in Yielding(commands) <==> GivesWay(d, r)
  {
    hide Position, Ladder.InOrder, Incidents.Commands, Incidents.Disjoint;
    forall r | r in Yielding(commands) ensures GivesWay(d, r) {
      CommandsComeFrom(d, d.nextId, r);
    }
    forall r | GivesWay(d, r) ensures r in Yielding(commands) {
      var i :| i in d.active && d.active[i].strategy == Yield && d.active[i].victims != [] && d.active[i].Victim() == r;
      NoCommandLost(c, d, d.nextId, i);
      assert Open(d.active[i]);
    }
  }

  /** What is used of a picture, with who gives way for incidents d, and to whom. */
  ghost predicate Stands(p: Picture, d: Desk, s: Standing) {
    && s.views == p.w.views.Keys && s.tokens == p.tokens && s.active == p.ActiveRobots()
    && s.still == p.still && s.slow == p.slow && s.ahead == p.ahead
    && forall r :: r in s.yielding <==> GivesWay(d, r)
  }

  /** What counts for giving way at crossings: nobody bound by an incident or waiting for a token takes part. */
  ghost function SceneOf(p: Picture, d: Desk): Scene {
    Scene(p.t, p.moving, d.Busy() + p.tokens.Keys, p.pinned, p.inFront)
  }

  /** Steps the open incidents, lets robots give way at crossings, and collects who waits for whom. */
  method Waits(keeper: CrossingKeeper, m: IncidentManager, l: Limits, p: Picture)
    returns (g: W.WaitForGraph, events: seq<Event>, ghost s: Standing)
    requires keeper.Valid() && TrafficManaging.InOrder(m) && p.Valid()
    modifies keeper, m
    ensures keeper.Valid() && TrafficManaging.InOrder(m) && m.log == old(m.log) + events && m.nextId == old(m.nextId)
    ensures AllGone(m.cfg, old(m.Now()), p.w, p.t, p.sight, m.Now(), events) && Incidents.Valid(m.cfg, m.Now())
    ensures RightOfWay(l, SceneOf(p, m.Now()), p.w, p.conflicts, old(keeper.latches), keeper.latches, s.crossing)
    ensures Stands(p, m.Now(), s)
    ensures fresh(g) && g.Valid() && InView(p.w, g.succ) && forall u, v :: W.HasEdge(g.succ, u, v) <==> ShouldWait(s, u, v)
    ensures Acyclic(W.Only(g.succ, Some(W.Reason.Crossing)))
    ensures forall cycle :: Closes(g.succ, cycle) ==> MixedReasons(g.succ, cycle)
  {
    hide Incidents.Disjoint, Acyclic, Chain, ShouldWait, Justified, MixedReasons, Closes,
      Incidents.CasesGoOn, Lasts, Between, Crossing.Chosen, InView, Incidents.StepAll, CommandOf, Incidents.Commands, AllGone,
      AllMet, Incidents.Valid, Told, Yielding, GivesWay;
    events := m.Step(p.t, p.w, p.sight);
    var commands := m.Commands();
    var yielding := Yielding(commands);
    YieldingGives(m.cfg, m.Now(), commands);
    YieldersBusy(m.cfg, m.Now(), yielding);
    var scene := Scene(p.t, p.moving, m.Busy() + yielding + p.tokens.Keys, p.pinned, p.inFront);
    assert scene == SceneOf(p, m.Now());
    ghost var before := keeper.latches;
    var crossing := keeper.CrossingHolds(l, scene, p.w, p.conflicts);
    s := Standing(p.w.views.Keys, p.tokens, crossing, yielding, p.ActiveRobots(), p.still, p.slow, p.ahead);
    var standing := Standing(p.w.views.Keys, p.tokens, crossing, yielding, p.ActiveRobots(), p.still, p.slow, p.ahead);
    g := BuildWaitFor(standing);
    WaitedInView(p, s, l, scene, keeper.latches, g.succ);
  }

  lemma YieldersBusy(c: Settings, d: Desk, yielding: set<Robot>)
    requires Incidents.Valid(c, d) && forall r :: r in yielding <==> GivesWay(d, r)
    ensures yielding <= d.Busy()
  {
    hide Ladder.InOrder;
    forall r | r in yielding ensures r in d.Busy() {
      var i :| i in d.active && d.active[i].strategy == Yield && d.active[i].victims != [] && d.active[i].Victim() == r;
      assert Open(d.active[i]);
      assert r in d.active[i].victims;
    }
  }

  /** The deadlocks confirmed in this cycle: classes of robots that wait for each other, free and not cooling down. */
  method Confirm(confirmer: C.CycleConfirmer, m: IncidentManager, g: W.WaitForGraph, p: Picture)
    returns (deadlocks: seq<set<Robot>>)
    requires confirmer.Valid() && g.Valid() && InView(p.w, g.succ)
    modifies confirmer
    ensures confirmer.Valid() && PairwiseApart(deadlocks)
    ensures exists candidates ::
              && confirmer.cycles == old(confirmer.cycles) + [C.Cycle(p.t, candidates)]
              && forall x :: x in candidates <==> FreeDeadlock(g.Adjacency(), m.Now(), p.t, x)
    ensures forall x :: x in deadlocks <==>
              && FreeDeadlock(g.Adjacency(), m.Now(), p.t, x)
              && C.ConfirmedNow(old(confirmer.cycles), confirmer.cycles[|old(confirmer.cycles)|], x, confirmer.wait)
    ensures forall x :: x in deadlocks ==> x != {} && x <= p.w.views.Keys && x !! m.Busy()
  {
    hide C.ConfirmedNow, Acyclic, SccInvariant.IsClass, SccInvariant.Disjoint, Mutual, Eligibles, Chosen, InView,
      C.CycleConfirmer.Valid, FreeDeadlock,
      PairwiseApart, IsDeadlock, SccInvariant.InSome;
    var comps := g.DeadlockComponents();
    var busy := m.Busy();
    var sets := Eligibles(m.Now(), p.t, comps, busy);
    EligiblesApart(m.Now(), p.t, comps, busy);
    EligiblesRight(p.w, g.succ, g.Adjacency(), m.Now(), p.t, comps);
    var candidates := set x | x in sets;
    var confirmed := confirmer.Update(p.t, candidates);
    ChosenApart(sets, confirmed);
    deadlocks := Chosen(sets, confirmed);
  }

  /** The robots are in deadlock, none of them is bound, and they do not cool down. */
  ghost predicate FreeDeadlock(g: Graph, d: Desk, t: real, x: set<Robot>) {
    IsDeadlock(g, x) && x !! d.Busy() && !d.InCooldown(x, t)
  }

  /** The eligible components are exactly the eligible deadlocks, of robots in view. */
  lemma EligiblesRight(w: World, e: W.Edges, g: Graph, d: Desk, t: real, comps: seq<seq<Robot>>)
    requires InView(w, e) && (forall u, v :: Edge(g, u, v) <==> W.HasEdge(e, u, v))
    requires forall c :: c in comps ==> SccInvariant.IsClass(g, c) && |c| >= 2
    requires forall u, v :: u != v && Mutual(g, u, v) ==> SccInvariant.InSome(comps, u)
    ensures forall x :: x in Eligibles(d, t, comps, d.Busy()) <==> FreeDeadlock(g, d, t, x)
    ensures forall x :: FreeDeadlock(g, d, t, x) ==> x != {} && x <= w.views.Keys
  {
    hide SccInvariant.IsClass, InView, Eligibles, SccInvariant.InSome, Desk.InCooldown, Desk.Busy;
    forall x | x in Eligibles(d, t, comps, d.Busy()) ensures FreeDeadlock(g, d, t, x) {
      var k :| 0 <= k < |comps| && x == Members(comps[k]) && x !! d.Busy() && !d.InCooldown(x, t);
      assert comps[k] in comps;
    }
    forall x | FreeDeadlock(g, d, t, x) ensures x in Eligibles(d, t, comps, d.Busy()) && x != {} && x <= w.views.Keys {
      var c :| SccInvariant.IsClass(g, c) && |c| >= 2 && x == Members(c);
      ClassInView(w, e, g, c);
      var k := ClassFound(g, comps, c);
    }
  }

  /** Every class of two or more is one of the components. */
  lemma ClassFound(g: Graph, comps: seq<seq<Robot>>, c: seq<Robot>) returns (k: nat)
    requires forall x :: x in comps ==> SccInvariant.IsClass(g, x)
    requires forall u, v :: u != v && Mutual(g, u, v) ==> SccInvariant.InSome(comps, u)
    requires SccInvariant.IsClass(g, c) && |c| >= 2
    ensures k < |comps| && Members(comps[k]) == Members(c)
  {
    hide Mutual;
    var u, v := c[0], c[1];
    assert u in c && v in c && u != v && Mutual(g, u, v);
    k :| 0 <= k < |comps| && u in comps[k];
    assert comps[k] in comps;
    forall x ensures x in comps[k] <==> x in c {
      assert x in comps[k] <==> Mutual(g, u, x);
      assert x in c <==> Mutual(g, u, x);
    }
  }

  /**
   One cycle: open incidents are stepped, robots give way at crossings, waits are collected, and
   incidents are opened for deadlocks that are confirmed, for robots held up and for groups that stall.
   Whatever is seen, no robot is bound twice afterwards, every circle of waits contains a wait
   for a token or behind a body, and exactly the eligible deadlocks that are ripe get an incident.
   mid: the table between the steps and the openings.
   */
  method Cycle(keeper: CrossingKeeper, confirmer: C.CycleConfirmer, m: IncidentManager, l: Limits, p: Picture)
    returns (g: W.WaitForGraph, deadlocks: seq<set<Robot>>, events: seq<Event>,
             ghost s: Standing, ghost mid: Desk, ghost held: seq<Held>, ghost run: Run)
    requires keeper.Valid() && confirmer.Valid() && TrafficManaging.InOrder(m) && p.Valid()
    modifies keeper, confirmer, m
    ensures keeper.Valid() && confirmer.Valid() && TrafficManaging.InOrder(m) && m.log == old(m.log) + events
    ensures fresh(g) && g.Valid() && forall u, v :: W.HasEdge(g.succ, u, v) <==> ShouldWait(s, u, v)
    ensures Acyclic(W.Only(g.succ, Some(W.Reason.Crossing)))
    ensures forall cycle :: Closes(g.succ, cycle) ==> MixedReasons(g.succ, cycle)
    ensures Stands(p, mid, s)
    ensures RightOfWay(l, SceneOf(p, mid), p.w, p.conflicts, old(keeper.latches), keeper.latches, s.crossing)
    ensures mid.nextId == old(m.nextId) && (exists first, second ::
              && events == first + second && AllGone(m.cfg, old(m.Now()), p.w, p.t, p.sight, mid, first)
              && OpenedFor(m.cfg, p.w, p.t, deadlocks, held, p.stalled * p.w.views.Keys, p.near, run, mid, m.Now(), second))
    ensures ListsHeldUp(p, g.succ, held)
    ensures forall r, b :: r in p.ActiveRobots() * p.held && InTheWay(p, g.succ, r, b) ==>
              exists k :: 0 <= k < |held| && held[k].r == r
    ensures exists candidates ::
              && confirmer.cycles == old(confirmer.cycles) + [C.Cycle(p.t, candidates)]
              && forall x :: x in candidates <==> FreeDeadlock(g.Adjacency(), mid, p.t, x)
    ensures PairwiseApart(deadlocks) && forall x :: x in deadlocks <==>
              && FreeDeadlock(g.Adjacency(), mid, p.t, x)
              && C.ConfirmedNow(old(confirmer.cycles), confirmer.cycles[|old(confirmer.cycles)|], x, confirmer.wait)
    ensures forall k :: 0 <= k < |deadlocks| ==> CaseOpened(m.Now(), p.t, deadlocks[k], old(m.nextId) + k, events)
  {
    hide C.ConfirmedNow, Acyclic, Closes, MixedReasons, InView, C.CycleConfirmer.Valid, PairwiseApart, IsDeadlock,
      TrafficManaging.InOrder, AllGone, OpenedFor, RightOfWay, Stands, ShouldWait, FreeDeadlock, InTheWay, CaseOpened,
      CrossingKeeper.Valid, W.WaitForGraph.Valid, W.Only, Picture.Fixed, W.HasEdge, Incidents.Valid, ListsHeldUp;
    var first;
    g, first, s := Waits(keeper, m, l, p);
    mid := m.Now();
    deadlocks := Confirm(confirmer, m, g, p);
    var blocked := HeldUp(p, g);
    held := blocked;
    DeadlocksFit(deadlocks, p.w, m);
    HeldFit(p, g.succ, held);
    var second;
    second, run := OpenIncidents(m, p.t, p.w, deadlocks, blocked, p.stalled * p.w.views.Keys, p.near);
    Associate(old(m.log), first, second);
    events := first + second;
    DeadlocksOpened(m.cfg, p, deadlocks, held, run, mid, m.Now(), first, second);
  }

  lemma HeldFit(p: Picture, m: W.Edges, held: seq<Held>)
    requires ListsHeldUp(p, m, held)
    ensures forall k :: 0 <= k < |held| ==> held[k].r in p.w.views && held[k].behind <= p.w.views.Keys
  {
  }

  lemma DeadlocksFit(deadlocks: seq<set<Robot>>, w: World, m: IncidentManager)
    requires forall x :: x in deadlocks ==> x != {} && x <= w.views.Keys && x !! m.Busy()
    ensures forall k :: 0 <= k < |deadlocks| ==> deadlocks[k] != {} && deadlocks[k] <= w.views.Keys && deadlocks[k] !! m.Busy()
  {
    forall k | 0 <= k < |deadlocks|
      ensures deadlocks[k] != {} && deadlocks[k] <= w.views.Keys && deadlocks[k] !! m.Busy()
    {
      assert deadlocks[k] in deadlocks;
    }
  }

  /** Every confirmed deadlock has its incident open or its end reported. */
  lemma DeadlocksOpened(c: Settings, p: Picture, deadlocks: seq<set<Robot>>, held: seq<Held>, run: Run, d: Desk, e: Desk,
                        first: seq<Event>, second: seq<Event>)
    requires OpenedFor(c, p.w, p.t, deadlocks, held, p.stalled * p.w.views.Keys, p.near, run, d, e, second)
    requires Incidents.Valid(c, d) && forall k :: 0 <= k < |deadlocks| ==> deadlocks[k] != {}
    ensures forall k :: 0 <= k < |deadlocks| ==> CaseOpened(e, p.t, deadlocks[k], d.nextId + k, first + second)
  {
    hide Open, Stalls, Blockade, OpensInTurn;
    forall k | 0 <= k < |deadlocks| ensures CaseOpened(e, p.t, deadlocks[k], d.nextId + k, first + second) {
      forall j | 0 <= j <= k ensures run.plan[j] == deadlocks[j] {
        assert run.plan[..|deadlocks|][j] == run.plan[j];
      }
      OpenedInTurn(c, p.w, p.t, run, d, e, second, k);
      NumberedInTurn(c, p.w, p.t, run, d, e, second, k);
      CaseStays(e, e, p.t, deadlocks[k], d.nextId + k, second, first + second);
    }
  }

  /** The robots wait for each other, and are all that do so with any of them. */
  ghost predicate IsDeadlock(g: Graph, s: set<Robot>) {
    exists c :: SccInvariant.IsClass(g, c) && |c| >= 2 && s == Members(c)
  }
}
