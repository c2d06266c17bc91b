/** One cycle of the traffic manager: the wait-for graph, and the incidents opened from it. */
module TrafficManaging {
  import opened Crossing
  import opened Deadlock
  import opened Graphs
  import opened IncidentCycles
  import opened IncidentManaging
  import opened Incidents
  import opened Ladder
  import opened Openings
  import opened Options
  import opened Sorting
  import SccInvariant
  import W = WaitFor

  // ---------------------------------------------------------------- the wait-for graph

  /** u waits for v for the given reason. */
  ghost predicate Waits(m: W.Edges, u: Robot, v: Robot, reason: W.Reason) {
    W.HasEdge(m, u, v) && m[u][v] == reason
  }

  /** Every crossing edge of m is in the chain. */
  ghost predicate CrossingIn(m: W.Edges, out: Yields) {
    forall u, v :: Waits(m, u, v, W.Reason.Crossing) ==> u in out && out[u] == v
  }

  lemma AddOther(m: W.Edges, out: Yields, u: Robot, v: Robot, reason: W.Reason)
    requires CrossingIn(m, out) && (reason == W.Reason.Crossing ==> u in out && out[u] == v)
    ensures CrossingIn(W.WithEdge(m, u, v, reason), out)
  {
    var n := W.WithEdge(m, u, v, reason);
    forall x, y | Waits(n, x, y, W.Reason.Crossing) ensures x in out && out[x] == y {
      W.WithEdgeMeaning(m, u, v, reason, x, y);
      if W.HasEdge(m, x, y) {
        assert Waits(m, x, y, W.Reason.Crossing);
      }
    }
  }

  lemma NoWayBack(g: Graph, p: seq<Robot>, u: Robot, v: Robot)
    requires Acyclic(g) && WalkFromTo(g, p, v, u)
    ensures !Edge(g, u, v)
  {
  }

  /** A walk along crossing edges only is a walk along the chain of who gives way. */
  lemma CrossingAcyclic(m: W.Edges, out: Yields)
    requires CrossingIn(m, out) && Acyclic(Chain(out))
    ensures Acyclic(W.Only(m, Some(W.Reason.Crossing)))
  {
    var g := W.Only(m, Some(W.Reason.Crossing));
    forall u, v | Edge(g, u, v) ensures !Reach(g, v, u) {
      assert Waits(m, u, v, W.Reason.Crossing);
      if Reach(g, v, u) {
        var p :| WalkFromTo(g, p, v, u);
        forall i | 0 <= i < |p| - 1 ensures Edge(Chain(out), p[i], p[i + 1]) {
          assert Edge(g, p[i], p[i + 1]);
          assert Waits(m, p[i], p[i + 1], W.Reason.Crossing);
        }
        NoWayBack(Chain(out), p, u, v);
        assert false;
      }
    }
  }

  ghost predicate Closes(m: W.Edges, cycle: seq<Robot>) {
    Walk(W.Only(m, None), cycle) && W.HasEdge(m, cycle[|cycle| - 1], cycle[0])
  }

  /** Not all waits of the cycle are for giving way. */
  ghost predicate MixedReasons(m: W.Edges, cycle: seq<Robot>)
  {
    cycle != [] &&
    (!Waits(m, cycle[|cycle| - 1], cycle[0], W.Reason.Crossing) ||
     exists i :: 0 <= i < |cycle| - 1 && !Waits(m, cycle[i], cycle[i + 1], W.Reason.Crossing))
  }

  /** Every cycle of waits contains a wait for a token or behind a body. */
  lemma CycleHasOther(m: W.Edges, out: Yields, cycle: seq<Robot>)
    requires CrossingIn(m, out) && Acyclic(Chain(out)) && Closes(m, cycle)
    ensures MixedReasons(m, cycle)
  {
    var g := W.Only(m, Some(W.Reason.Crossing));
    CrossingAcyclic(m, out);
    if Waits(m, cycle[|cycle| - 1], cycle[0], W.Reason.Crossing) &&
       forall i :: 0 <= i < |cycle| - 1 ==> Waits(m, cycle[i], cycle[i + 1], W.Reason.Crossing)
    {
      forall i | 0 <= i < |cycle| - 1 ensures Edge(g, cycle[i], cycle[i + 1]) {
        assert Waits(m, cycle[i], cycle[i + 1], W.Reason.Crossing);
      }
      NoWayBack(g, cycle, cycle[|cycle| - 1], cycle[0]);
      assert false;
    }
  }

  /** Who waits for whom: blockers of a token, the robot given way to, or a standing body ahead. */
  ghost predicate ShouldWait(s: Standing, u: Robot, v: Robot) {
    u != v && (TokenWait(s, u, v) || (u in s.crossing && s.crossing[u] == v) || BlockWait(s, u, v))
  }

  ghost predicate TokenWait(s: Standing, u: Robot, v: Robot) {
    u in s.tokens && v in s.tokens[u] && v in s.views
  }

  /** u has stood for long although nothing else holds it, and v stands ahead of it and is not giving way. */
  ghost predicate BlockWait(s: Standing, u: Robot, v: Robot) {
    && u in s.views && u in s.active && u !in s.yielding && u !in s.tokens && u !in s.crossing && u in s.still
    && u in s.ahead && v in s.ahead[u] && v in s.slow && v !in s.yielding
  }

  /**
   What one cycle knows.  tokens: blockers of the robots waiting for tokens; crossing: who gives way
   to whom; yielding: robots that give way for an incident; active: robots with work; still: robots that
   have not moved for long enough; slow: robots that stand; ahead: the bodies on a robot's way.
   */
  datatype Standing = Standing(views: set<Robot>, tokens: map<Robot, set<Robot>>, crossing: Yields, yielding: set<Robot>,
                               active: set<Robot>, still: set<Robot>, slow: set<Robot>, ahead: map<Robot, set<Robot>>) {
    /** Nothing but bodies can keep u from driving, and it does not move. */
    predicate Queues(u: Robot) {
      u in active && u !in yielding && u !in tokens && u !in crossing && u in still && u in ahead
    }
  }

  method AddNodes(g: W.WaitForGraph, nodes: seq<Robot>)
    requires g.Valid()
    modifies g
    ensures g.Valid() && forall u, v :: W.HasEdge(g.succ, u, v) <==> W.HasEdge(old(g.succ), u, v)
    ensures forall r :: r in old(g.succ) || r in nodes ==> r in g.succ
    ensures forall u, v, x :: Waits(g.succ, u, v, x) <==> Waits(old(g.succ), u, v, x)
  {
    for k := 0 to |nodes|
      invariant g.Valid() && forall u, v :: W.HasEdge(g.succ, u, v) <==> W.HasEdge(old(g.succ), u, v)
      invariant forall r :: r in old(g.succ) || r in nodes[..k] ==> r in g.succ
      invariant forall u, v, x :: Waits(g.succ, u, v, x) <==> Waits(old(g.succ), u, v, x)
    {
      g.AddNode(nodes[k]);
    }
  }

  /** Adds the edges from u to each of the targets. */
  method AddEdges(g: W.WaitForGraph, u: Robot, targets: seq<Robot>, reason: W.Reason, ghost out: Yields)
    requires g.Valid() && CrossingIn(g.succ, out)
    requires reason == W.Reason.Crossing ==> forall v :: v in targets ==> u in out && out[u] == v
    modifies g
    ensures g.Valid() && CrossingIn(g.succ, out)
    ensures forall x, y :: W.HasEdge(g.succ, x, y) <==> W.HasEdge(old(g.succ), x, y) || (x == u && y in targets && u != y)
    ensures forall r :: r in old(g.succ) ==> r in g.succ
  {
    for k := 0 to |targets|
      invariant g.Valid() && CrossingIn(g.succ, out)
      invariant forall x, y :: W.HasEdge(g.succ, x, y) <==>
                  W.HasEdge(old(g.succ), x, y) || (x == u && y in targets[..k] && u != y)
      invariant forall r :: r in old(g.succ) ==> r in g.succ
    {
      ghost var before := g.succ;
      assert targets[k] in targets;
      AddOther(before, out, u, targets[k], reason);
      g.Add(u, targets[k], reason);
      forall x, y
        ensures W.HasEdge(g.succ, x, y) <==> W.HasEdge(before, x, y) || (x == u && y == targets[k] && u != y)
      {
        W.WithEdgeMeaning(before, u, targets[k], reason, x, y);
      }
      KeepsNodes(before, u, targets[k], reason);
    }
  }

  lemma KeepsNodes(m: W.Edges, u: Robot, v: Robot, reason: W.Reason)
    ensures forall r :: r in m ==> r in W.WithEdge(m, u, v, reason)
  {
  }

  ghost predicate Listed(waits: map<Robot, set<Robot>>, u: Robot, v: Robot) {
    u in waits && v in waits[u] && u != v
  }

  method AddWaits(g: W.WaitForGraph, waits: map<Robot, set<Robot>>, reason: W.Reason, ghost out: Yields)
    requires g.Valid() && CrossingIn(g.succ, out)
    requires reason == W.Reason.Crossing ==> forall u, v :: Listed(waits, u, v) ==> u in out && out[u] == v
    modifies g
    ensures g.Valid() && CrossingIn(g.succ, out)
    ensures forall x, y :: W.HasEdge(g.succ, x, y) <==> W.HasEdge(old(g.succ), x, y) || Listed(waits, x, y)
    ensures forall r :: r in old(g.succ) ==> r in g.succ
  {
    hide W.WaitForGraph.Valid, CrossingIn, W.HasEdge, Edges, Listed;
    ghost var start := g.succ;
    var order := Sorted(waits.Keys);
    NoneAdded(start, waits);
    assert order[..0] == [];
    for k := 0 to |order|
      invariant g.Valid() && CrossingIn(g.succ, out) && Edges(start, waits, order[..k], g.succ)
    {
      var u := order[k];
      assert u in order;
      var targets := Sorted(waits[u] - {u});
      ListedFrom(waits, u);
      ghost var before := g.succ;
      AddEdges(g, u, targets, reason, out);
      OneAdded(start, waits, order[..k], u, before, g.succ);
      assert order[..k] + [u] == order[..k + 1];
    }
    assert order[..|order|] == order;
    AllAdded(start, waits, order, g.succ);
  }

  /** The edges so far: those of before, and the waits of the robots done. */
  ghost predicate Edges(before: W.Edges, waits: map<Robot, set<Robot>>, done: seq<Robot>, now: W.Edges) {
    && (forall x, y :: W.HasEdge(now, x, y) <==> W.HasEdge(before, x, y) || (Listed(waits, x, y) && x in done))
    && (forall r :: r in before ==> r in now)
  }

  lemma NoneAdded(m: W.Edges, waits: map<Robot, set<Robot>>)
    ensures Edges(m, waits, [], m)
  {
    hide W.HasEdge, Listed;
  }

  lemma ListedFrom(waits: map<Robot, set<Robot>>, u: Robot)
    requires u in waits
    ensures forall v :: v in waits[u] - {u} <==> Listed(waits, u, v)
  {
  }

  lemma OneAdded(start: W.Edges, waits: map<Robot, set<Robot>>, done: seq<Robot>, u: Robot, before: W.Edges, now: W.Edges)
    requires Edges(start, waits, done, before) && u in waits
    requires forall x, y :: W.HasEdge(now, x, y) <==> W.HasEdge(before, x, y) || (x == u && y in waits[u] - {u} && u != y)
    requires forall r :: r in before ==> r in now
    ensures Edges(start, waits, done + [u], now)
  {
    hide W.HasEdge;
    ListedFrom(waits, u);
    hide Listed;
  }

  lemma AllAdded(start: W.Edges, waits: map<Robot, set<Robot>>, done: seq<Robot>, now: W.Edges)
    requires Edges(start, waits, done, now) && forall u :: u in waits ==> u in done
    ensures forall x, y :: W.HasEdge(now, x, y) <==> W.HasEdge(start, x, y) || Listed(waits, x, y)
    ensures forall r :: r in start ==> r in now
  {
    hide W.HasEdge;
    forall x, y | Listed(waits, x, y) ensures x in done {
    }
  }

  /**
   The wait-for graph of a cycle: exactly the robots that should wait, for exactly those they
   should wait for.  If nobody gives way in a circle, every cycle in it contains another reason.
   */
  method BuildWaitFor(s: Standing) returns (g: W.WaitForGraph)
    ensures fresh(g) && g.Valid()
    ensures forall u, v :: W.HasEdge(g.succ, u, v) <==> ShouldWait(s, u, v)
    ensures forall r :: r in s.views ==> r in g.succ
    ensures Acyclic(Chain(s.crossing)) ==> Acyclic(W.Only(g.succ, Some(W.Reason.Crossing)))
    ensures Acyclic(Chain(s.crossing)) ==> forall cycle :: Closes(g.succ, cycle) ==> MixedReasons(g.succ, cycle)
  {
    hide ShouldWait, TokenWaits, CrossingWaits, BlockWaits, CrossingIn, Chain, Acyclic, MixedReasons, Closes;
    g := new W.WaitForGraph();
    NoCrossing(g.succ, s.crossing);
    AddNodes(g, Sorted(s.views));
    SameReasons(map[], g.succ, s.crossing);
    AddWaits(g, TokenWaits(s), W.Reason.Token, s.crossing);
    CrossingListed(s);
    AddWaits(g, CrossingWaits(s), W.Reason.Crossing, s.crossing);
    AddWaits(g, BlockWaits(s), W.Reason.Block, s.crossing);
    forall u, v ensures W.HasEdge(g.succ, u, v) <==> ShouldWait(s, u, v) {
      ShouldWaitListed(s, u, v);
    }
    if Acyclic(Chain(s.crossing)) {
      CrossingAcyclic(g.succ, s.crossing);
      forall cycle | Closes(g.succ, cycle) ensures MixedReasons(g.succ, cycle) {
        CycleHasOther(g.succ, s.crossing, cycle);
      }
    }
  }

  function BlockWaits(s: Standing): map<Robot, set<Robot>> {
    map u | u in s.views && s.Queues(u) :: s.ahead[u] * s.slow - s.yielding
  }

  function TokenWaits(s: Standing): map<Robot, set<Robot>> {
    map u | u in s.tokens :: s.tokens[u] * s.views
  }

  function CrossingWaits(s: Standing): map<Robot, set<Robot>> {
    map u | u in s.crossing :: {s.crossing[u]}
  }

  lemma ShouldWaitListed(s: Standing, u: Robot, v: Robot)
    ensures ShouldWait(s, u, v) <==>
              Listed(TokenWaits(s), u, v) || Listed(CrossingWaits(s), u, v) || Listed(BlockWaits(s), u, v)
  {
  }

  lemma CrossingListed(s: Standing)
    ensures forall u, v :: Listed(CrossingWaits(s), u, v) ==> u in s.crossing && s.crossing[u] == v
  {
  }

  lemma NoCrossing(m: W.Edges, out: Yields)
    requires m == map[]
    ensures CrossingIn(m, out)
  {
  }

  lemma SameReasons(m: W.Edges, n: W.Edges, out: Yields)
    requires CrossingIn(m, out) && forall u, v, x :: Waits(n, u, v, x) <==> Waits(m, u, v, x)
    ensures CrossingIn(n, out)
  {
  }

  // ---------------------------------------------------------------- opening incidents

  ghost predicate PairwiseApart(sets: seq<set<Robot>>) {
    forall i, j :: 0 <= i < j < |sets| ==> sets[i] !! sets[j]
  }

  /** What keeps commands from getting lost. */
  ghost predicate InOrder(m: IncidentManager)
    reads m
  {
    m.Valid() && Disjoint(m.Now())
  }

  /** Opens an incident for each of the sets; they are apart from each other and from the open incidents. */
  method OpenAll(m: IncidentManager, t: real, sets: seq<set<Robot>>, w: World) returns (events: seq<Event>, ghost run: Run)
    requires InOrder(m) && PairwiseApart(sets)
    requires forall k :: 0 <= k < |sets| ==> sets[k] != {} && sets[k] <= w.views.Keys && sets[k] !! m.Busy()
    modifies m
    ensures InOrder(m) && m.log == old(m.log) + events
    ensures OpensInTurn(m.cfg, w, t, run, old(m.Now()), m.Now(), events) && run.plan == sets
  {
    hide OpenOne, Disjoint, IncidentManager.Valid, Opens, OpensInTurn;
    events, run := [], NothingOpened(m.Now());
    Begun(m.cfg, w, t, m.Now());
    for k := 0 to |sets|
      invariant InOrder(m) && m.log == old(m.log) + events
      invariant forall j :: k <= j < |sets| ==> sets[j] !! m.Busy()
      invariant OpensInTurn(m.cfg, w, t, run, old(m.Now()), m.Now(), events) && run.plan == sets[..k]
    {
      assert Known(w, sets[k]) == sets[k];
      ghost var before := m.Now();
      var more := m.Open(t, sets[k], w);
      OpenedOneMore(m.cfg, w, t, run, old(m.Now()), before, events, sets[k], m.Now(), more);
      run := Longer(run, sets[k], m.Now(), more);
      events := events + more;
      forall j | k < j < |sets| ensures sets[j] !! m.Busy() {
        assert sets[k] !! sets[j];
      }
    }
  }

  /** What the stall watch knows: who drives but is held up by which parked or immobile robots. */
  datatype Held = Held(r: Robot, behind: set<Robot>)

  /** Whom an incident is opened for, if h.r and somebody in its way are free and the set does not cool down. */
  ghost predicate Blockade(d: Desk, t: real, h: Held, members: set<Robot>) {
    var free := h.behind - d.Busy();
    if h.r in d.Busy() || free == {} || d.InCooldown({h.r} + free, t) then members == {}
    else members == {h.r} + free
  }

  /** Opens an incident for every free robot that is held up by free robots that will not move. */
  method OpenBlocked(m: IncidentManager, t: real, held: seq<Held>, w: World) returns (events: seq<Event>, ghost run: Run)
    requires InOrder(m)
    requires forall k :: 0 <= k < |held| ==> held[k].r in w.views && held[k].behind <= w.views.Keys
    modifies m
    ensures InOrder(m) && m.log == old(m.log) + events
    ensures OpensInTurn(m.cfg, w, t, run, old(m.Now()), m.Now(), events) && |run.plan| == |held|
    ensures forall k :: 0 <= k < |held| ==> Blockade(run.desks[k], t, held[k], run.plan[k])
  {
    hide OpenOne, Disjoint, IncidentManager.Valid, Opens, OpensInTurn, Blockade, Desk.InCooldown;
    events, run := [], NothingOpened(m.Now());
    Begun(m.cfg, w, t, m.Now());
    for k := 0 to |held|
      invariant InOrder(m) && m.log == old(m.log) + events
      invariant OpensInTurn(m.cfg, w, t, run, old(m.Now()), m.Now(), events)
      invariant |run.plan| == k && |run.desks| == k + 1 && run.desks[k] == m.Now()
      invariant forall j :: 0 <= j < k ==> Blockade(run.desks[j], t, held[j], run.plan[j])
    {
      var busy := m.Busy();
      var blockers := held[k].behind - busy;
      var members := {held[k].r} + blockers;
      ghost var before := m.Now();
      if held[k].r !in busy && blockers != {} && !m.Now().InCooldown(members, t) {
        assert Known(w, members) == members;
        var more := m.Open(t, members, w);
        OpenedOneMore(m.cfg, w, t, run, old(m.Now()), before, events, members, m.Now(), more);
        run := Longer(run, members, m.Now(), more);
        events := events + more;
        assert Blockade(before, t, held[k], members) by { BlockadeIs(before, t, held[k]); }
      } else {
        OpenedOneMore(m.cfg, w, t, run, old(m.Now()), before, events, {}, m.Now(), []);
        run := Longer(run, {}, m.Now(), []);
        assert events + [] == events;
        assert Blockade(before, t, held[k], {}) by { BlockadeIs(before, t, held[k]); }
      }
    }
  }

  lemma BlockadeIs(d: Desk, t: real, h: Held)
    ensures var free := h.behind - d.Busy();
            if h.r in d.Busy() || free == {} || d.InCooldown({h.r} + free, t) then Blockade(d, t, h, {})
            else Blockade(d, t, h, {h.r} + free)
  {
  }

  ghost predicate Grouped(groups: seq<seq<Robot>>, robots: seq<Robot>) {
    && (forall g :: 0 <= g < |groups| ==> groups[g] != [])
    && (forall g, r :: 0 <= g < |groups| && r in groups[g] ==> r in robots)
    && (forall r :: r in robots ==> exists g :: 0 <= g < |groups| && r in groups[g])
    && (forall g, h, r :: 0 <= g < h < |groups| && r in groups[g] ==> r !in groups[h])
  }

  ghost predicate NearEarlier(group: seq<Robot>, k: int, near: (Robot, Robot) -> bool) {
    exists j :: 0 <= j < k < |group| && near(group[k], group[j])
  }

  ghost predicate FarFrom(group: seq<Robot>, later: seq<Robot>, near: (Robot, Robot) -> bool) {
    forall x, y :: x in group && y in later && x < y ==> !near(y, x)
  }

  /** Gathered from a list: a robot is near somebody before it in its group, and near nobody before it in an earlier one. */
  ghost predicate Gathered(groups: seq<seq<Robot>>, near: (Robot, Robot) -> bool) {
    && (forall g, k :: 0 <= g < |groups| && 0 < k < |groups[g]| ==> NearEarlier(groups[g], k, near))
    && (forall g, h :: 0 <= g < h < |groups| ==> FarFrom(groups[g], groups[h], near))
  }

  /** Puts a robot into the first group with a robot near it, or into a new one. */
  method Join(groups: seq<seq<Robot>>, robots: seq<Robot>, r: Robot, near: (Robot, Robot) -> bool)
    returns (joined: seq<seq<Robot>>)
    requires Grouped(groups, robots) && Gathered(groups, near) && forall x :: x in robots ==> x < r
    ensures Grouped(joined, robots + [r]) && Gathered(joined, near)
  {
    hide Grouped, Gathered;
    var g := 0;
    while g < |groups|
      invariant 0 <= g <= |groups|
      invariant forall h, o :: 0 <= h < g && o in groups[h] ==> !near(r, o)
    {
      if exists o :: o in groups[g] && near(r, o) {
        joined := groups[g := groups[g] + [r]];
        JoinedOne(groups, robots, r, g);
        GatheredOne(groups, robots, r, g, near);
        return;
      }
      g := g + 1;
    }
    joined := groups + [[r]];
    JoinedNew(groups, robots, r);
    GatheredNew(groups, robots, r, near);
  }

  lemma GatheredOne(groups: seq<seq<Robot>>, robots: seq<Robot>, r: Robot, g: nat, near: (Robot, Robot) -> bool)
    requires Grouped(groups, robots) && Gathered(groups, near) && g < |groups| && forall x :: x in robots ==> x < r
    requires (exists o :: o in groups[g] && near(r, o)) && forall h, o :: 0 <= h < g && o in groups[h] ==> !near(r, o)
    ensures Gathered(groups[g := groups[g] + [r]], near)
  {
    var joined := groups[g := groups[g] + [r]];
    forall h, k | 0 <= h < |joined| && 0 < k < |joined[h]| ensures NearEarlier(joined[h], k, near) {
      if h == g {
        NearAfter(groups[g], r, k, near);
      }
    }
    forall e, h | 0 <= e < h < |joined| ensures FarFrom(joined[e], joined[h], near) {
      assert FarFrom(groups[e], groups[h], near);
      assert forall y :: y in groups[h] ==> y in robots;
    }
  }

  lemma NearAfter(group: seq<Robot>, r: Robot, k: nat, near: (Robot, Robot) -> bool)
    requires 0 < k <= |group| && exists o :: o in group && near(r, o)
    requires k < |group| ==> NearEarlier(group, k, near)
    ensures NearEarlier(group + [r], k, near)
  {
    var longer := group + [r];
    if k == |group| {
      var o :| o in group && near(r, o);
      var j :| 0 <= j < |group| && group[j] == o;
      assert longer[j] == o && longer[k] == r;
    } else {
      var j :| 0 <= j < k < |group| && near(group[k], group[j]);
      assert longer[j] == group[j] && longer[k] == group[k];
    }
  }

  lemma GatheredNew(groups: seq<seq<Robot>>, robots: seq<Robot>, r: Robot, near: (Robot, Robot) -> bool)
    requires Grouped(groups, robots) && Gathered(groups, near) && forall x :: x in robots ==> x < r
    requires forall h, o :: 0 <= h < |groups| && o in groups[h] ==> !near(r, o)
    ensures Gathered(groups + [[r]], near)
  {
    var joined := groups + [[r]];
    forall h, k | 0 <= h < |joined| && 0 < k < |joined[h]| ensures NearEarlier(joined[h], k, near) {
      assert joined[h] == groups[h];
    }
    forall e, h | 0 <= e < h < |joined| ensures FarFrom(joined[e], joined[h], near) {
      if h < |groups| {
        assert FarFrom(groups[e], groups[h], near);
      }
    }
  }

  lemma JoinedOne(groups: seq<seq<Robot>>, robots: seq<Robot>, r: Robot, g: nat)
    requires Grouped(groups, robots) && r !in robots && g < |groups|
    ensures Grouped(groups[g := groups[g] + [r]], robots + [r])
  {
    var joined := groups[g := groups[g] + [r]];
    forall x | x in robots + [r] ensures exists h :: 0 <= h < |joined| && x in joined[h] {
      if x == r {
        assert x in joined[g];
      } else {
        var h :| 0 <= h < |groups| && x in groups[h];
        assert x in joined[h];
      }
    }
  }

  lemma JoinedNew(groups: seq<seq<Robot>>, robots: seq<Robot>, r: Robot)
    requires Grouped(groups, robots) && r !in robots
    ensures Grouped(groups + [[r]], robots + [r])
  {
    var joined := groups + [[r]];
    forall x | x in robots + [r] ensures exists h :: 0 <= h < |joined| && x in joined[h] {
      if x == r {
        assert x in joined[|groups|];
      } else {
        var h :| 0 <= h < |groups| && x in groups[h];
        assert x in joined[h];
      }
    }
  }

  /** Gathers the robots, in ascending order, into groups of robots near each other. */
  method Gather(robots: seq<Robot>, near: (Robot, Robot) -> bool) returns (groups: seq<seq<Robot>>)
    requires StrictlySorted(robots)
    ensures Grouped(groups, robots) && Gathered(groups, near)
  {
    groups := [];
    for k := 0 to |robots|
      invariant Grouped(groups, robots[..k]) && Gathered(groups, near)
    {
      assert forall x :: x in robots[..k] ==> x < robots[k];
      groups := Join(groups, robots[..k], robots[k], near);
      assert robots[..k] + [robots[k]] == robots[..k + 1];
    }
    assert robots[..|robots|] == robots;
  }

  /** An incident is wanted for every group of two or more that does not cool down. */
  ghost predicate WorthIt(d: Desk, t: real, group: seq<Robot>) {
    |group| >= 2 && !d.InCooldown(Members(group), t)
  }

  /** The groups of at least two robots that do not cool down. */
  method Eligible(m: IncidentManager, t: real, groups: seq<seq<Robot>>, robots: seq<Robot>) returns (sets: seq<set<Robot>>)
    requires Grouped(groups, robots)
    ensures PairwiseApart(sets)
    ensures forall k :: 0 <= k < |sets| ==> sets[k] != {} && sets[k] <= Members(robots)
    ensures forall k :: 0 <= k < |sets| ==> From(m.Now(), t, groups, |groups|, sets[k])
    ensures forall g :: 0 <= g < |groups| && WorthIt(m.Now(), t, groups[g]) ==> Members(groups[g]) in sets
  {
    hide Desk.InCooldown;
    sets := [];
    for g := 0 to |groups|
      invariant PairwiseApart(sets)
      invariant forall k :: 0 <= k < |sets| ==> sets[k] != {} && sets[k] <= Members(robots)
      invariant forall k :: 0 <= k < |sets| ==> From(m.Now(), t, groups, g, sets[k])
      invariant forall h :: 0 <= h < g && WorthIt(m.Now(), t, groups[h]) ==> Members(groups[h]) in sets
    {
      var members := Members(groups[g]);
      assert groups[g][0] in members;
      forall r | r in members ensures r in Members(robots) {
        assert r in groups[g];
      }
      if |groups[g]| >= 2 && !m.Now().InCooldown(members, t) {
        forall k | 0 <= k < |sets| ensures sets[k] !! members {
          assert From(m.Now(), t, groups, g, sets[k]);
          var h :| 0 <= h < g <= |groups| && WorthIt(m.Now(), t, groups[h]) && sets[k] == Members(groups[h]);
          GroupsApart(groups, robots, h, g);
        }
        sets := sets + [members];
      }
    }
  }

  lemma GroupsApart(groups: seq<seq<Robot>>, robots: seq<Robot>, g: int, h: int)
    requires Grouped(groups, robots) && 0 <= g < h < |groups|
    ensures Members(groups[g]) !! Members(groups[h])
  {
    forall r | r in Members(groups[g]) ensures r !in Members(groups[h]) {
      assert r in groups[g];
    }
  }

  ghost predicate From(d: Desk, t: real, groups: seq<seq<Robot>>, n: int, s: set<Robot>) {
    exists h :: 0 <= h < n <= |groups| && WorthIt(d, t, groups[h]) && s == Members(groups[h])
  }

  /** The sets are those of the groups, gathered from the free robots of stalled, that are worth an incident. */
  ghost predicate Stalls(d: Desk, t: real, stalled: set<Robot>, near: (Robot, Robot) -> bool, sets: seq<set<Robot>>) {
    exists groups ::
      && Grouped(groups, Sorted(stalled - d.Busy())) && Gathered(groups, near)
      && forall s :: s in sets <==> From(d, t, groups, |groups|, s)
  }

  /**
   The incidents of one cycle: one for every confirmed deadlock, then one for every free robot held up
   by robots that will not make way, then one for every group worth it among those that stall.
   */
  ghost predicate OpenedFor(c: Settings, w: World, t: real, confirmed: seq<set<Robot>>, held: seq<Held>, stalled: set<Robot>,
                            near: (Robot, Robot) -> bool, run: Run, d: Desk, e: Desk, events: seq<Event>)
  {
    var n := |confirmed| + |held|;
    && OpensInTurn(c, w, t, run, d, e, events) && |run.plan| >= n
    && run.plan[..|confirmed|] == confirmed
    && (forall k :: 0 <= k < |held| ==> Blockade(run.desks[|confirmed| + k], t, held[k], run.plan[|confirmed| + k]))
    && Stalls(run.desks[n], t, stalled, near, run.plan[n..])
  }

  /**
   All openings of one cycle: confirmed deadlocks, robots held up by parked ones, and groups that
   stall near each other.  Afterwards no robot is bound twice, so every victim gets its command.
   */
  method OpenIncidents(m: IncidentManager, t: real, w: World, confirmed: seq<set<Robot>>, held: seq<Held>,
                       stalled: set<Robot>, near: (Robot, Robot) -> bool) returns (events: seq<Event>, ghost run: Run)
    requires InOrder(m) && PairwiseApart(confirmed)
    requires forall k :: 0 <= k < |confirmed| ==>
               confirmed[k] != {} && confirmed[k] <= w.views.Keys && confirmed[k] !! m.Busy()
    requires forall k :: 0 <= k < |held| ==> held[k].r in w.views && held[k].behind <= w.views.Keys
    requires stalled <= w.views.Keys
    modifies m
    ensures InOrder(m) && m.log == old(m.log) + events
    ensures OpenedFor(m.cfg, w, t, confirmed, held, stalled, near, run, old(m.Now()), m.Now(), events)
  {
    hide Disjoint, IncidentManager.Valid, Grouped, Gathered, OpensInTurn, Blockade, Stalls, PairwiseApart, OpenedFor, From, WorthIt;
    var first, run1 := OpenAll(m, t, confirmed, w);
    ghost var d1 := m.Now();
    var second, run2 := OpenBlocked(m, t, held, w);
    ghost var d2 := m.Now();
    var free := Sorted(stalled - m.Busy());
    var groups := Gather(free, near);
    var sets := Eligible(m, t, groups, free);
    StallsBy(d2, t, stalled, near, groups, sets);
    FreeMembers(free, stalled, m.Busy());
    var third, run3 := OpenAll(m, t, sets, w);
    events := first + second + third;
    run := Joined(Joined(run1, run2), run3);
    ThreeRuns(m.cfg, w, t, confirmed, held, stalled, near, run1, run2, run3, old(m.Now()), d1, d2, m.Now(), first, second, third);
  }

  lemma FreeMembers(free: seq<Robot>, stalled: set<Robot>, busy: set<Robot>)
    requires free == Sorted(stalled - busy)
    ensures Members(free) == stalled - busy
  {
  }

  lemma StallsBy(d: Desk, t: real, stalled: set<Robot>, near: (Robot, Robot) -> bool, groups: seq<seq<Robot>>, sets: seq<set<Robot>>)
    requires Grouped(groups, Sorted(stalled - d.Busy())) && Gathered(groups, near)
    requires forall k :: 0 <= k < |sets| ==> From(d, t, groups, |groups|, sets[k])
    requires forall g :: 0 <= g < |groups| && WorthIt(d, t, groups[g]) ==> Members(groups[g]) in sets
    ensures Stalls(d, t, stalled, near, sets)
  {
    hide Grouped, Gathered, WorthIt;
    assert forall s :: s in sets <==> From(d, t, groups, |groups|, s);
  }

  lemma ThreeRuns(c: Settings, w: World, t: real, confirmed: seq<set<Robot>>, held: seq<Held>, stalled: set<Robot>,
                  near: (Robot, Robot) -> bool, a: Run, b: Run, z: Run, d: Desk, d1: Desk, d2: Desk, e: Desk,
                  first: seq<Event>, second: seq<Event>, third: seq<Event>)
    requires OpensInTurn(c, w, t, a, d, d1, first) && OpensInTurn(c, w, t, b, d1, d2, second)
    requires OpensInTurn(c, w, t, z, d2, e, third)
    requires a.plan == confirmed && |b.plan| == |held|
    requires forall k :: 0 <= k < |held| ==> Blockade(b.desks[k], t, held[k], b.plan[k])
    requires Stalls(d2, t, stalled, near, z.plan)
    ensures OpenedFor(c, w, t, confirmed, held, stalled, near, Joined(Joined(a, b), z), d, e, first + second + third)
  {
    hide OpensOrNot, Blockade, Stalls, Flat;
    RunsJoin(c, w, t, a, b, d, d1, d2, first, second);
    RunsJoin(c, w, t, Joined(a, b), z, d, d2, e, first + second, third);
    var run := Joined(Joined(a, b), z);
    var n := |confirmed| + |held|;
    assert run.plan[n..] == z.plan;
    forall k | 0 <= k < |held| ensures Blockade(run.desks[|confirmed| + k], t, held[k], run.plan[|confirmed| + k]) {
      assert run.desks[|confirmed| + k] == b.desks[k];
    }
  }
}
