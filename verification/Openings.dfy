/** Incidents opened one after the other: what is reported and what is open afterwards. */
module Openings {
  import opened IncidentCycles
  import opened Incidents
  import opened Ladder
  import opened LadderChoices
  import opened Options
  import opened Sorting

  /** plan: the robots each step opens an incident for, none if empty; desks: the table before each step and at the end. */
  datatype Run = Run(plan: seq<set<Robot>>, desks: seq<Desk>, events: seq<seq<Event>>)

  function Flat(events: seq<seq<Event>>): seq<Event> {
    if events == [] then [] else Flat(events[..|events| - 1]) + events[|events| - 1]
  }

  ghost predicate OpensOrNot(c: Settings, w: World, t: real, d: Desk, members: set<Robot>, e: Desk, events: seq<Event>) {
    if members == {} then e == d && events == [] else Opens(c, d, w, t, members, e, events)
  }

  /** From d the run opens its incidents in turn, which leads to e and reports the events. */
  ghost predicate OpensInTurn(c: Settings, w: World, t: real, r: Run, d: Desk, e: Desk, events: seq<Event>) {
    && |r.desks| == |r.plan| + 1 && |r.events| == |r.plan| && r.desks[0] == d && r.desks[|r.plan|] == e
    && events == Flat(r.events)
    && forall k :: 0 <= k < |r.plan| ==> OpensOrNot(c, w, t, r.desks[k], r.plan[k], r.desks[k + 1], r.events[k])
  }

  function NothingOpened(d: Desk): Run {
    Run([], [d], [])
  }

  function Longer(r: Run, members: set<Robot>, e: Desk, events: seq<Event>): Run {
    Run(r.plan + [members], r.desks + [e], r.events + [events])
  }

  lemma Begun(c: Settings, w: World, t: real, d: Desk)
    ensures OpensInTurn(c, w, t, NothingOpened(d), d, d, [])
  {
  }

  lemma OpenedOneMore(c: Settings, w: World, t: real, r: Run, d: Desk, e: Desk, events: seq<Event>, members: set<Robot>, f: Desk,
                more: seq<Event>)
    requires OpensInTurn(c, w, t, r, d, e, events) && OpensOrNot(c, w, t, e, members, f, more)
    ensures OpensInTurn(c, w, t, Longer(r, members, f, more), d, f, events + more)
  {
    hide Opens, OpensOrNot;
    var x := Longer(r, members, f, more);
    assert x.events[..|x.events| - 1] == r.events;
    forall k | 0 <= k < |x.plan| ensures OpensOrNot(c, w, t, x.desks[k], x.plan[k], x.desks[k + 1], x.events[k]) {
      if k < |r.plan| {
        assert OpensOrNot(c, w, t, r.desks[k], r.plan[k], r.desks[k + 1], r.events[k]);
      }
    }
  }

  /** b after a; the first table of b is the last one of a. */
  function Joined(a: Run, b: Run): Run {
    Run(a.plan + b.plan, a.desks + (if b.desks == [] then [] else b.desks[1..]), a.events + b.events)
  }

  lemma {:induction false} FlatJoin(a: seq<seq<Event>>, b: seq<seq<Event>>)
    ensures Flat(a + b) == Flat(a) + Flat(b)
  {
    if b == [] {
      assert a + b == a;
    } else {
      var n := |b| - 1;
      assert (a + b)[..|a + b| - 1] == a + b[..n];
      FlatJoin(a, b[..n]);
    }
  }

  lemma RunsJoin(c: Settings, w: World, t: real, a: Run, b: Run, d: Desk, e: Desk, f: Desk, first: seq<Event>, second: seq<Event>)
    requires OpensInTurn(c, w, t, a, d, e, first) && OpensInTurn(c, w, t, b, e, f, second)
    ensures OpensInTurn(c, w, t, Joined(a, b), d, f, first + second)
  {
    hide Opens, OpensOrNot;
    var x := Joined(a, b);
    FlatJoin(a.events, b.events);
    forall k | 0 <= k < |x.plan| ensures OpensOrNot(c, w, t, x.desks[k], x.plan[k], x.desks[k + 1], x.events[k]) {
      if k < |a.plan| {
        assert OpensOrNot(c, w, t, a.desks[k], a.plan[k], a.desks[k + 1], a.events[k]);
      } else {
        var j := k - |a.plan|;
        assert OpensOrNot(c, w, t, b.desks[j], b.plan[j], b.desks[j + 1], b.events[j]);
      }
    }
  }

  // ---------------------------------------------------------------- what a run leaves behind

  /** The deadlock of the robots is reported under the id, and its incident is open or its end is reported. */
  ghost predicate CaseOpened(d: Desk, t: real, members: set<Robot>, id: int, events: seq<Event>) {
    && (exists v :: Event(Deadlock, id, v) in events)
    && if id in d.active then Members(d.active[id].robots) == members && d.active[id].detectedAt == t
       else exists reason, v :: Event(Unresolved(reason), id, v) in events
  }

  lemma OpensCase(c: Settings, w: World, t: real, d: Desk, members: set<Robot>, e: Desk, events: seq<Event>)
    requires Opens(c, d, w, t, members, e, events) && d.nextId !in d.active
    ensures CaseOpened(e, t, members, d.nextId, events)
  {
    hide TriesAfter, CanYield, CanDetour, NoneUseful, Yields, Detours, SomeMobile, TooOften;
    var inc, r :| && NewCase(d, w, t, members, inc) && Begins(c, d, w, t, members, inc, r)
                  && events == [inc.Tell(Deadlock)] + r.events
                  && (d.nextId in e.active <==> r.end == Going)
                  && (d.nextId in e.active ==> e.active[d.nextId] == r.inc)
                  && TriesAfter(d, members, e, r.end);
    assert events[0] == Event(Deadlock, d.nextId, inc.Victim());
    if r.end == GivenUp {
      assert events[1] == r.events[0] && r.events[0] in events;
    }
  }

  /** Ids are given in turn, and later steps leave the incidents of earlier ones alone. */
  lemma {:induction false} IdsInTurn(c: Settings, w: World, t: real, r: Run, d: Desk, e: Desk, events: seq<Event>, k: nat, n: nat)
    requires OpensInTurn(c, w, t, r, d, e, events) && k <= n <= |r.plan|
    requires forall i :: i in d.active ==> i < d.nextId
    ensures r.desks[n].nextId >= r.desks[k].nextId && forall i :: i in r.desks[n].active ==> i < r.desks[n].nextId
    ensures forall i :: i < r.desks[k].nextId ==>
              (i in r.desks[n].active <==> i in r.desks[k].active) &&
              (i in r.desks[k].active ==> r.desks[n].active[i] == r.desks[k].active[i])
    decreases n
  {
    hide NewCase, Begins, TriesAfter;
    if k < n {
      IdsInTurn(c, w, t, r, d, e, events, k, n - 1);
      assert OpensOrNot(c, w, t, r.desks[n - 1], r.plan[n - 1], r.desks[n], r.events[n - 1]);
    } else if n > 0 {
      IdsInTurn(c, w, t, r, d, e, events, n - 1, n - 1);
      assert OpensOrNot(c, w, t, r.desks[n - 1], r.plan[n - 1], r.desks[n], r.events[n - 1]);
    }
  }

  lemma {:induction false} InFlat(events: seq<seq<Event>>, k: nat)
    requires k < |events|
    ensures forall x :: x in events[k] ==> x in Flat(events)
  {
    var n := |events| - 1;
    if k < n {
      InFlat(events[..n], k);
    }
  }

  /** Every incident of the run is open in the end, or its end has been reported. */
  lemma OpenedInTurn(c: Settings, w: World, t: real, r: Run, d: Desk, e: Desk, events: seq<Event>, k: nat)
    requires OpensInTurn(c, w, t, r, d, e, events) && k < |r.plan| && r.plan[k] != {}
    requires forall i :: i in d.active ==> i < d.nextId
    ensures CaseOpened(e, t, r.plan[k], r.desks[k].nextId, events)
  {
    hide NewCase, Begins, TriesAfter, OpensOrNot;
    OpensAt(c, w, t, r, d, e, events, k);
    IdsInTurn(c, w, t, r, d, e, events, 0, k);
    IdsInTurn(c, w, t, r, d, e, events, k + 1, |r.plan|);
    OpensCase(c, w, t, r.desks[k], r.plan[k], r.desks[k + 1], r.events[k]);
    InFlat(r.events, k);
    CaseStays(r.desks[k + 1], e, t, r.plan[k], r.desks[k].nextId, r.events[k], events);
  }

  lemma OpensAt(c: Settings, w: World, t: real, r: Run, d: Desk, e: Desk, events: seq<Event>, k: nat)
    requires OpensInTurn(c, w, t, r, d, e, events) && k < |r.plan| && r.plan[k] != {}
    ensures Opens(c, r.desks[k], w, t, r.plan[k], r.desks[k + 1], r.events[k]) && r.desks[k + 1].nextId == r.desks[k].nextId + 1
  {
    hide NewCase, Begins, TriesAfter;
    assert OpensOrNot(c, w, t, r.desks[k], r.plan[k], r.desks[k + 1], r.events[k]);
  }

  lemma CaseStays(d: Desk, e: Desk, t: real, members: set<Robot>, id: int, events: seq<Event>, all: seq<Event>)
    requires CaseOpened(d, t, members, id, events) && forall x :: x in events ==> x in all
    requires (id in e.active <==> id in d.active) && (id in d.active ==> e.active[id] == d.active[id])
    ensures CaseOpened(e, t, members, id, all)
  {
    var v :| Event(Deadlock, id, v) in events;
    assert Event(Deadlock, id, v) in all;
    if id !in d.active {
      var reason, v :| Event(Unresolved(reason), id, v) in events;
      assert Event(Unresolved(reason), id, v) in all;
    }
  }

  /** A run that always opens numbers its incidents without gaps. */
  lemma {:induction false} NumberedInTurn(c: Settings, w: World, t: real, r: Run, d: Desk, e: Desk, events: seq<Event>, k: nat)
    requires OpensInTurn(c, w, t, r, d, e, events) && k <= |r.plan| && forall j :: 0 <= j < k ==> r.plan[j] != {}
    ensures r.desks[k].nextId == d.nextId + k
  {
    if k > 0 {
      NumberedInTurn(c, w, t, r, d, e, events, k - 1);
      OpensAt(c, w, t, r, d, e, events, k - 1);
    }
  }
}
