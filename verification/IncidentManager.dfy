/** The incident manager, and the places where the traffic manager opens incidents. */
module IncidentManaging {
  import opened IncidentCycles
  import opened Incidents
  import opened Ladder
  import opened Options
  import opened Sorting

  class IncidentManager {
    const cfg: Settings
    var active: map<int, Incident>
    var nextId: int
    var tries: map<Robot, int>
    var anchor: map<Robot, real>
    var cooldown: map<set<Robot>, Option<real>>
    var stuck: map<set<Robot>, set<Robot>>
    /** All events so far. */
    ghost var log: seq<Event>

    function Now(): Desk
      reads this
    {
      Desk(active, nextId, tries, anchor, cooldown, stuck)
    }

    /** The table is in order and the events so far tell exactly its incidents' stories. */
    ghost predicate Valid()
      reads this
    {
      Incidents.Valid(cfg, Now()) && Told(Now(), log)
    }

    constructor (cfg: Settings)
      ensures this.cfg == cfg && Now() == EMPTY && log == [] && Valid() && Disjoint(Now())
    {
      this.cfg := cfg;
      active, nextId, tries, anchor, cooldown, stuck, log := map[], 1, map[], map[], map[], map[], [];
    }

    function Busy(): set<Robot>
      reads this
      ensures Busy() == Now().Busy()
    {
      set i, r | i in active && r in active[i].robots :: r
    }

    // -------------------------------------------------------------- closing

    method ResetRobot(r: Robot)
      modifies this`tries, this`anchor
      ensures Now() == Without(old(Now()), {r})
    {
      tries := tries - {r};
      anchor := anchor - {r};
    }

    method ResetRobots(robots: set<Robot>)
      modifies this`tries, this`anchor
      ensures Now() == Without(old(Now()), robots)
    {
      var todo := robots;
      while todo != {}
        invariant todo <= robots
        invariant tries == old(tries) - (robots - todo) && anchor == old(anchor) - (robots - todo)
      {
        ghost var some := Pick(todo);
        var r :| r in todo;
        ResetRobot(r);
        todo := todo - {r};
      }
    }

    /** Files what a step of the ladder has made of an incident. */
    method Finish(t: real, r: Rung)
      modifies this`active, this`tries, this`anchor, this`cooldown, this`stuck
      ensures Now() == Settle(cfg, old(Now()), t, r)
    {
      var robots := Members(r.inc.robots);
      match r.end {
        case Going => active := active[r.inc.id := r.inc];
        case Solved => active := active - {r.inc.id};
        case GivenUp =>
          active := active - {r.inc.id};
          cooldown := cooldown[robots := Some(t + cfg.cooldown)];
          if r.inc.immobile != {} {
            cooldown := cooldown[robots := None];
            stuck := stuck[robots := r.inc.immobile];
          }
          ResetRobots(robots);
      }
    }

    // -------------------------------------------------------------- opening

    /** Opens an incident for a confirmed deadlock; members of unknown robots are dropped. */
    method Open(t: real, robots: set<Robot>, w: World) returns (events: seq<Event>)
      requires Valid() && Known(w, robots) != {}
      modifies this
      ensures (Now(), events) == OpenOne(cfg, old(Now()), w, t, robots)
      ensures Opens(cfg, old(Now()), w, t, Known(w, robots), Now(), events)
      ensures Valid() && log == old(log) + events
      ensures Now().Busy() <= old(Now().Busy()) + robots
      ensures Disjoint(Now()) <==> old(Disjoint(Now())) && (old(nextId) in active ==> Known(w, robots) !! old(Now().Busy()))
    {
      hide VictimsOf, Tried, Anchored, StartYield, Settle, Incidents.Valid, Told, Disjoint, Opens;
      OpenKeeps(cfg, Now(), w, t, robots, log);
      NextIsFree(cfg, Now());
      OpenOneOpens(cfg, Now(), w, t, robots);
      var before := Now();
      var members := Sorted(Known(w, robots));
      var victims := VictimsOf(w, members);
      var inc := NewIncident(Now(), w, t, members);
      nextId := nextId + 1;
      tries, anchor := Tried(tries, Known(w, robots)), Anchored(w, anchor, Known(w, robots));
      assert Now() == Counted(before, w, Known(w, robots));
      var first := FirstRung(cfg, Now(), w, t, inc, victims != []);
      Finish(t, first);
      events := [inc.Tell(Deadlock)] + first.events;
      log := log + events;
    }

    // -------------------------------------------------------------- one cycle

    method ObserveProgress(w: World)
      modifies this`tries, this`anchor
      ensures Now() == Observed(cfg, old(Now()), w)
    {
      var done := set r | r in anchor && Progressed(cfg, w, anchor, r);
      ResetRobots(done);
    }

    method Loosen(w: World)
      modifies this`stuck, this`cooldown
      ensures Now() == Loosened(old(Now()), w)
    {
      var loose := set s | s in stuck && Loose(w, stuck[s]);
      stuck, cooldown := stuck - loose, cooldown - loose;
    }

    method StepIncident(i: int, t: real, w: World, sight: int -> Sight) returns (events: seq<Event>)
      requires Incidents.Valid(cfg, Now())
      modifies this`active, this`tries, this`anchor, this`cooldown, this`stuck
      ensures (Now(), events) == StepAt(cfg, old(Now()), w, t, sight, i)
    {
      hide Incidents.Valid, Ladder.StepOne, Settle;
      events := [];
      if i in active {
        OpenIsOnLadder(cfg, Now(), i);
        var r := Ladder.StepOne(cfg, w, t, Now().Reserved(i), sight(i), active[i]);
        Finish(t, r);
        events := r.events;
      }
    }

    /** Steps every open incident once, in the order of their ids. */
    method Step(t: real, w: World, sight: int -> Sight) returns (events: seq<Event>)
      requires Valid()
      modifies this
      ensures (Now(), events) == StepAll(cfg, old(Now()), w, t, sight)
      ensures Valid() && log == old(log) + events
      ensures old(Disjoint(Now())) ==> Disjoint(Now())
      ensures CasesGoOn(cfg, t, old(Now()), Now(), nextId)
      ensures AllGone(cfg, old(Now()), w, t, sight, Now(), events) && nextId == old(nextId)
    {
      hide Observed, Loosened, Incidents.Valid, Told, Disjoint, StepAt, CasesGoOn, AllGone;
      StepAllKeeps(cfg, Now(), w, t, sight, log);
      StepAllGone(cfg, Now(), w, t, sight);
      ReadyValid(cfg, Now(), w);
      ObserveProgress(w);
      Loosen(w);
      ghost var ready := Now();
      events := [];
      var n, i := nextId, 0;
      while i < n
        invariant 0 <= i <= n == nextId == ready.nextId && log == old(log)
        invariant Incidents.Valid(cfg, Now())
        invariant (Now(), events) == Stepped(cfg, ready, w, t, sight, i)
      {
        var more := StepIncident(i, t, w, sight);
        events := events + more;
        i := i + 1;
      }
      log := log + events;
    }

    /** The commands for the victims. */
    method Commands() returns (out: map<Robot, Command>)
      requires Valid()
      ensures out == Incidents.Commands(Now(), nextId)
      ensures Disjoint(Now()) ==> forall i :: i in active ==>
                active[i].victims != [] && active[i].Victim() in out &&
                CommandOf(active[i]) == Some(out[active[i].Victim()])
    {
      hide Told, Disjoint;
      out := map[];
      var i := 0;
      while i < nextId
        invariant 0 <= i <= nextId && out == Incidents.Commands(Now(), i)
      {
        if i in active && active[i].victims != [] && CommandOf(active[i]).Some? {
          out := out[active[i].Victim() := CommandOf(active[i]).value];
        }
        i := i + 1;
      }
      if Disjoint(Now()) {
        forall i | i in active
          ensures active[i].victims != [] && active[i].Victim() in out &&
                  CommandOf(active[i]) == Some(out[active[i].Victim()])
        {
          NoCommandLost(cfg, Now(), nextId, i);
        }
      }
    }
  }

  lemma ReadyValid(c: Settings, d: Desk, w: World)
    requires Incidents.Valid(c, d)
    ensures Incidents.Valid(c, Loosened(Observed(c, d, w), w)) && Loosened(Observed(c, d, w), w).nextId == d.nextId
    ensures d.nextId >= 1
  {
    hide Ladder.Open, Progressed;
  }

  lemma NextIsFree(c: Settings, d: Desk)
    requires Incidents.Valid(c, d)
    ensures d.nextId !in d.active
  {
    hide Ladder.Open;
  }

  lemma OpenIsOnLadder(c: Settings, d: Desk, i: int)
    requires Incidents.Valid(c, d) && i in d.active
    ensures d.active[i].index < |d.active[i].victims|
  {
    hide InOrder;
  }
}
