/** What one cycle makes of each open incident, told by what is seen of it. */
module IncidentCycles {
  import opened Incidents
  import opened Ladder
  import opened LadderChoices
  import opened Options
  import opened Sorting

  function EventsOf(events: seq<Event>, id: int): seq<Event> {
    if events == [] then []
    else
      var before := EventsOf(events[..|events| - 1], id);
      if events[|events| - 1].id == id then before + [events[|events| - 1]] else before
  }

  lemma {:induction false} EventsJoin(a: seq<Event>, b: seq<Event>, id: int)
    ensures EventsOf(a + b, id) == EventsOf(a, id) + EventsOf(b, id)
  {
    if b == [] {
      assert a + b == a;
    } else {
      var n := |b| - 1;
      assert (a + b)[..|a + b| - 1] == a + b[..n];
      EventsJoin(a, b[..n], id);
    }
  }

  lemma {:induction false} EventsAll(events: seq<Event>, id: int, i: int)
    requires forall e :: e in events ==> e.id == id
    ensures EventsOf(events, i) == if i == id then events else []
  {
    if events != [] {
      EventsAll(events[..|events| - 1], id, i);
      assert events == events[..|events| - 1] + [events[|events| - 1]];
    }
  }

  /** The places of the other incidents when number i is stepped: those before it have been stepped already. */
  ghost function OtherPlaces(d: Desk, e: Desk, i: int): set<Pocket> {
    (set j | j in e.active && j < i && e.active[j].pocket.Some? :: e.active[j].pocket.value) +
    (set j | j in d.active && j > i && d.active[j].pocket.Some? :: d.active[j].pocket.value)
  }

  /** Incident i of d has gone through its cycle: e and the events say what became of it. */
  ghost predicate Gone(c: Settings, d: Desk, w: World, t: real, sight: Sight, i: int, e: Desk, events: seq<Event>)
    requires i in d.active
  {
    d.active[i].index < |d.active[i].victims| &&
    exists r ::
      && Stepwise(c, w, t, OtherPlaces(d, e, i), sight, d.active[i], r) && EventsOf(events, i) == r.events
      && (i in e.active <==> r.end == Going) && (i in e.active ==> e.active[i] == r.inc)
  }

  /** The incidents with ids below n have gone through the cycle, the others have not yet. */
  ghost predicate GoneBelow(c: Settings, d: Desk, w: World, t: real, sight: int -> Sight, n: int, e: Desk, events: seq<Event>) {
    && e.active.Keys <= d.active.Keys
    && (forall i :: i in d.active && i < n ==> Gone(c, d, w, t, sight(i), i, e, events))
    && (forall i :: i in d.active && i >= n ==> i in e.active && e.active[i] == d.active[i] && EventsOf(events, i) == [])
  }

  lemma OneGone(c: Settings, d: Desk, w: World, t: real, sight: int -> Sight, n: int, b: Desk, events: seq<Event>)
    requires Incidents.Valid(c, b) && GoneBelow(c, d, w, t, sight, n, b, events)
    ensures var (e, more) := StepAt(c, b, w, t, sight, n);
            GoneBelow(c, d, w, t, sight, n + 1, e, events + more)
  {
    hide Gone, Stepwise, StepOne, Open, Sound;
    var (e, more) := StepAt(c, b, w, t, sight, n);
    if n in b.active {
      var inc := d.active[n];
      OneSettled(c, d, w, t, sight, n, b);
      forall i | i in d.active ensures i != n ==> EventsOf(events + more, i) == EventsOf(events, i) {
        EventsJoin(events, more, i);
        EventsAll(more, n, i);
      }
      GoneNow(c, d, w, t, sight, n, b, events, e, more);
      forall i | i in d.active && i < n ensures Gone(c, d, w, t, sight(i), i, e, events + more) {
        GoneStays(c, d, w, t, sight(i), i, b, events, e, events + more, n);
      }
    } else {
      assert events + more == events;
    }
  }

  /** Stepping n changes the table at n only. */
  lemma OneSettled(c: Settings, d: Desk, w: World, t: real, sight: int -> Sight, n: int, b: Desk)
    requires Incidents.Valid(c, b) && n in b.active
    ensures var (e, more) := StepAt(c, b, w, t, sight, n);
            && e.active.Keys <= b.active.Keys && (forall x :: x in more ==> x.id == n)
            && (forall i :: i in b.active && i != n ==> i in e.active && e.active[i] == b.active[i])
  {
    hide StepOne, InOrder, TellAll;
    StepOneSound(c, w, t, b.Reserved(n), sight(n), b.active[n]);
  }

  lemma GoneNow(c: Settings, d: Desk, w: World, t: real, sight: int -> Sight, n: int, b: Desk, events: seq<Event>, e: Desk,
                more: seq<Event>)
    requires Incidents.Valid(c, b) && GoneBelow(c, d, w, t, sight, n, b, events) && n in b.active
    requires (e, more) == StepAt(c, b, w, t, sight, n)
    ensures Gone(c, d, w, t, sight(n), n, e, events + more)
  {
    hide StepOne, InOrder, TellAll, Stepwise, Gone;
    OneSettled(c, d, w, t, sight, n, b);
    PlacesThen(c, d, w, t, sight, n, b, events, e);
    var r := StepOne(c, w, t, b.Reserved(n), sight(n), b.active[n]);
    StepOneChooses(c, w, t, b.Reserved(n), sight(n), b.active[n]);
    StepOneSound(c, w, t, b.Reserved(n), sight(n), b.active[n]);
    EventsJoin(events, more, n);
    EventsAll(more, n, n);
    assert EventsOf(events + more, n) == r.events;
    SettledAs(c, b, t, n, r);
    GoneBy(c, d, w, t, sight(n), n, e, events + more, r);
  }

  lemma SettledAs(c: Settings, b: Desk, t: real, n: int, r: Rung)
    requires r.inc.id == n
    ensures n in Settle(c, b, t, r).active <==> r.end == Going
    ensures r.end == Going ==> Settle(c, b, t, r).active[n] == r.inc
  {
  }

  lemma GoneBy(c: Settings, d: Desk, w: World, t: real, sight: Sight, i: int, e: Desk, events: seq<Event>, r: Rung)
    requires i in d.active && d.active[i].index < |d.active[i].victims|
    requires Stepwise(c, w, t, OtherPlaces(d, e, i), sight, d.active[i], r) && EventsOf(events, i) == r.events
    requires (i in e.active <==> r.end == Going) && (i in e.active ==> e.active[i] == r.inc)
    ensures Gone(c, d, w, t, sight, i, e, events)
  {
    hide Stepwise;
  }

  lemma PlacesThen(c: Settings, d: Desk, w: World, t: real, sight: int -> Sight, n: int, b: Desk, events: seq<Event>, e: Desk)
    requires GoneBelow(c, d, w, t, sight, n, b, events) && n in b.active && e.active.Keys <= b.active.Keys
    requires forall i :: i in b.active && i != n ==> i in e.active && e.active[i] == b.active[i]
    ensures b.Reserved(n) == OtherPlaces(d, e, n)
  {
    hide Gone;
    forall p ensures p in b.Reserved(n) <==> p in OtherPlaces(d, e, n) {
      if p in b.Reserved(n) {
        var i :| i in b.active && i != n && b.active[i].pocket == Some(p);
        assert i < n ==> i in e.active && e.active[i] == b.active[i];
        assert i > n ==> i in d.active && d.active[i] == b.active[i];
      }
    }
  }

  lemma GoneStays(c: Settings, d: Desk, w: World, t: real, sight: Sight, i: int, b: Desk, events: seq<Event>, e: Desk,
                  all: seq<Event>, n: int)
    requires i in d.active && i < n && Gone(c, d, w, t, sight, i, b, events)
    requires forall j :: j in b.active && j != n ==> j in e.active && e.active[j] == b.active[j]
    requires e.active.Keys <= b.active.Keys && EventsOf(all, i) == EventsOf(events, i)
    ensures Gone(c, d, w, t, sight, i, e, all)
  {
    hide Stepwise;
    SamePlaces(d, b, e, i, n);
    var r :| && Stepwise(c, w, t, OtherPlaces(d, b, i), sight, d.active[i], r) && EventsOf(events, i) == r.events
             && (i in b.active <==> r.end == Going) && (i in b.active ==> b.active[i] == r.inc);
    GoneBy(c, d, w, t, sight, i, e, all, r);
  }

  lemma SamePlaces(d: Desk, b: Desk, e: Desk, i: int, n: int)
    requires i < n && e.active.Keys <= b.active.Keys
    requires forall j :: j in b.active && j != n ==> j in e.active && e.active[j] == b.active[j]
    ensures OtherPlaces(d, e, i) == OtherPlaces(d, b, i)
  {
    forall p ensures p in OtherPlaces(d, e, i) <==> p in OtherPlaces(d, b, i) {
    }
  }

  lemma {:induction false} SteppedGone(c: Settings, d: Desk, w: World, t: real, sight: int -> Sight, n: nat)
    requires Incidents.Valid(c, d)
    ensures var (e, events) := Stepped(c, d, w, t, sight, n);
            GoneBelow(c, d, w, t, sight, n, e, events)
  {
    hide GoneBelow, StepAt, Incidents.Valid;
    if n == 0 {
      NoneGone(c, d, w, t, sight);
    } else {
      SteppedGone(c, d, w, t, sight, n - 1);
      var (b, events) := Stepped(c, d, w, t, sight, n - 1);
      OneGone(c, d, w, t, sight, n - 1, b, events);
    }
  }

  lemma NoneGone(c: Settings, d: Desk, w: World, t: real, sight: int -> Sight)
    requires Incidents.Valid(c, d)
    ensures GoneBelow(c, d, w, t, sight, 0, d, [])
  {
    hide Open;
  }

  /** Every open incident goes through the cycle once, as what is seen of it says. */
  ghost predicate AllGone(c: Settings, d: Desk, w: World, t: real, sight: int -> Sight, e: Desk, events: seq<Event>) {
    e.active.Keys <= d.active.Keys && forall i :: i in d.active ==> Gone(c, d, w, t, sight(i), i, e, events)
  }

  lemma StepAllGone(c: Settings, d: Desk, w: World, t: real, sight: int -> Sight)
    requires Incidents.Valid(c, d)
    ensures var (e, events) := StepAll(c, d, w, t, sight);
            AllGone(c, d, w, t, sight, e, events)
  {
    hide Open, Gone, Progressed, Loose, Stepped;
    var ready := Loosened(Observed(c, d, w), w);
    SteppedGone(c, ready, w, t, sight, ready.nextId);
    var (e, events) := Stepped(c, ready, w, t, sight, ready.nextId);
    forall i | i in d.active ensures Gone(c, d, w, t, sight(i), i, e, events) {
      GoneSame(c, ready, d, w, t, sight(i), i, e, events);
    }
  }

  lemma GoneSame(c: Settings, ready: Desk, d: Desk, w: World, t: real, sight: Sight, i: int, e: Desk, events: seq<Event>)
    requires ready.active == d.active && i in d.active && Gone(c, ready, w, t, sight, i, e, events)
    ensures Gone(c, d, w, t, sight, i, e, events)
  {
    hide Stepwise;
    assert OtherPlaces(ready, e, i) == OtherPlaces(d, e, i);
    var r :| && Stepwise(c, w, t, OtherPlaces(ready, e, i), sight, ready.active[i], r) && EventsOf(events, i) == r.events
             && (i in e.active <==> r.end == Going) && (i in e.active ==> e.active[i] == r.inc);
    GoneBy(c, d, w, t, sight, i, e, events, r);
  }

  /** An incident is reported resolved in a cycle exactly if it is over by what is seen, and too old exactly if it is. */
  lemma ResolvedExactly(c: Settings, d: Desk, w: World, t: real, sight: int -> Sight, e: Desk, events: seq<Event>, i: int)
    requires AllGone(c, d, w, t, sight, e, events) && i in d.active && d.active[i].victims != []
    ensures (exists x :: x in EventsOf(events, i) && x.kind == Resolved) <==> Over(c, w, t, sight(i), d.active[i])
    ensures (exists x :: x in EventsOf(events, i) && x.kind == Unresolved(DeadlockMax)) <==> TooOld(c, t, d.active[i])
    ensures Over(c, w, t, sight(i), d.active[i]) || TooOld(c, t, d.active[i]) ==> i !in e.active
  {
    hide Stepwise, Over, TooOld;
    var inc := d.active[i];
    var r :| && Stepwise(c, w, t, OtherPlaces(d, e, i), sight(i), inc, r) && EventsOf(events, i) == r.events
             && (i in e.active <==> r.end == Going) && (i in e.active ==> e.active[i] == r.inc);
    StepwiseTells(c, w, t, OtherPlaces(d, e, i), sight(i), inc, r);
  }

  // ---------------------------------------------------------------- opening

  /** a gives way before b does: lower priority, then later deadline (none is the latest), then larger id. */
  ghost predicate LessImportant(w: World, a: Robot, b: Robot) {
    a in w.views && b in w.views &&
    var x, y := w.views[a], w.views[b];
    || x.priority < y.priority
    || (x.priority == y.priority && y.deadline.Some? && (x.deadline == None || x.deadline.value > y.deadline.value))
    || (x.priority == y.priority && x.deadline == y.deadline && a > b)
  }

  /** A new case of the given robots; those that can move are its victims, the least important first. */
  ghost predicate NewCase(d: Desk, w: World, t: real, members: set<Robot>, inc: Incident) {
    && inc.id == d.nextId && inc.detectedAt == t && Members(inc.robots) == members && inc.victims != [] && inc.index == 0
    && inc.attempts == [] && inc.strategy == Undecided && inc.path == None && !inc.replanned
    && inc.immobile == (set r | r in members && !w.Mobile(r))
    && (SomeMobile(w, members) ==>
          && (forall r :: r in inc.victims <==> r in members && w.Mobile(r))
          && (forall i, j :: 0 <= i < j < |inc.victims| ==> LessImportant(w, inc.victims[i], inc.victims[j])))
  }

  ghost predicate SomeMobile(w: World, members: set<Robot>) {
    exists r :: r in members && w.Mobile(r)
  }

  /** This try is one too many for one of the robots. */
  ghost predicate TooOften(c: Settings, d: Desk, members: set<Robot>) {
    exists r :: r in members && TriesOf(d, r) + 1 > c.maxAttempts
  }

  function TriesOf(d: Desk, r: Robot): int {
    if r in d.tries then d.tries[r] else 0
  }

  /** Without a movable robot, or after too many tries, the case is given up at once; else the ladder chooses. */
  ghost predicate Begins(c: Settings, d: Desk, w: World, t: real, members: set<Robot>, inc: Incident, r: Rung)
    requires inc.victims != []
  {
    if !SomeMobile(w, members) then r == Rung(inc, [inc.Tell(Unresolved(NoMobileVictim))], GivenUp)
    else if TooOften(c, d, members) then r == Rung(inc, [inc.Tell(Unresolved(TooManyAttempts))], GivenUp)
    else
      && Chooses(c, w, t, d.Reserved(d.nextId), inc, 0, Before([], false, NoPocket), r)
      && r.inc == inc.(strategy := r.inc.strategy, stepStarted := r.inc.stepStarted, pocket := r.inc.pocket,
                       mask := r.inc.mask, attempts := r.inc.attempts, index := r.inc.index, path := r.inc.path,
                       replanned := r.inc.replanned)
  }

  /** Opening reports the deadlock under the next id and leaves its incident open, or reports how it ended. */
  ghost predicate Opens(c: Settings, d: Desk, w: World, t: real, members: set<Robot>, e: Desk, events: seq<Event>) {
    && e.nextId == d.nextId + 1 && e.active.Keys <= d.active.Keys + {d.nextId}
    && (forall i :: i in d.active && i != d.nextId ==> i in e.active && e.active[i] == d.active[i])
    && exists inc, r ::
         && NewCase(d, w, t, members, inc) && Begins(c, d, w, t, members, inc, r)
         && events == [inc.Tell(Deadlock)] + r.events
         && (d.nextId in e.active <==> r.end == Going)
         && (d.nextId in e.active ==> e.active[d.nextId] == r.inc)
         && TriesAfter(d, members, e, r.end)
  }

  /** Each of the robots has one try more, or none after a failure. */
  ghost predicate TriesAfter(d: Desk, members: set<Robot>, e: Desk, end: End) {
    forall r :: TriesOf(e, r) == if r !in members then TriesOf(d, r) else if end == GivenUp then 0 else TriesOf(d, r) + 1
  }

  lemma FieldsOutrank(w: World, a: Robot, b: Robot)
    requires a in w.views && b in w.views
    ensures Outranks(w, b, a) <==> LessImportant(w, a, b)
  {
  }

  lemma SomeVictim(w: World, robots: seq<Robot>, k: set<Robot>)
    requires (forall x :: x in robots ==> x in w.views) && forall x :: x in robots <==> x in k
    ensures VictimsOf(w, robots) != [] <==> SomeMobile(w, k)
  {
    var q := VictimsOf(w, robots);
    if q != [] {
      var y := q[0];
      assert y in q && y in k;
    }
  }

  lemma CaseIsNew(c: Settings, d: Desk, w: World, t: real, robots: set<Robot>)
    requires Known(w, robots) != {}
    ensures var inc := NewIncident(d, w, t, Sorted(Known(w, robots)));
            NewCase(d, w, t, Known(w, robots), inc) && Climbing(inc, 0) && inc.attempts == [] && inc.victims != [] && inc.index == 0
    ensures VictimsOf(w, Sorted(Known(w, robots))) != [] <==> SomeMobile(w, Known(w, robots))
  {
    hide VictimsOf, Sorted, Outranks, LessImportant;
    var members := Sorted(Known(w, robots));
    var inc := NewIncident(d, w, t, members);
    NewShape(d, w, t, robots);
    assert Distinct(members);
    VictimsDescend(w, members);
    var q := VictimsOf(w, members);
    assert forall r :: r in members <==> r in Known(w, robots);
    forall i, j | 0 <= i < j < |q| ensures LessImportant(w, q[i], q[j]) {
      FieldsOutrank(w, q[i], q[j]);
    }
    SomeVictim(w, members, Known(w, robots));
  }

  lemma RungBegins(c: Settings, d: Desk, w: World, t: real, k: set<Robot>, counted: Desk, inc: Incident)
    requires NewCase(d, w, t, k, inc) && Climbing(inc, 0) && inc.attempts == []
    requires counted.active == d.active && counted.tries == Tried(d.tries, k)
    ensures Begins(c, d, w, t, k, inc, FirstRung(c, counted, w, t, inc, SomeMobile(w, k)))
  {
    hide StartYield, Chooses, InOrder, TellAll;
    var r := FirstRung(c, counted, w, t, inc, SomeMobile(w, k));
    StartYieldChooses(c, w, t, counted.Reserved(inc.id), inc, NoPocket);
    StartYieldSound(c, w, t, counted.Reserved(inc.id), inc);
    assert forall x :: x in inc.robots <==> x in Members(inc.robots);
    assert forall x :: x in k ==> counted.tries[x] == TriesOf(d, x) + 1;
    if TooOften(c, d, k) {
      var x :| x in k && TriesOf(d, x) + 1 > c.maxAttempts;
      assert x in inc.robots && x in counted.tries && counted.tries[x] > c.maxAttempts;
    }
  }

  lemma TriesSettled(c: Settings, d: Desk, k: set<Robot>, counted: Desk, t: real, r: Rung)
    requires counted.tries == Tried(d.tries, k) && Members(r.inc.robots) == k
    ensures TriesAfter(d, k, Settle(c, counted, t, r), r.end)
  {
  }

  /** Opening an incident for robots of which some are in view. */
  lemma OpenOneOpens(c: Settings, d: Desk, w: World, t: real, robots: set<Robot>)
    requires Known(w, robots) != {} && d.nextId !in d.active
    ensures var (e, events) := OpenOne(c, d, w, t, robots);
            Opens(c, d, w, t, Known(w, robots), e, events)
  {
    hide FirstRung, NewIncident, VictimsOf, NewCase, Begins, Tried, Anchored, TriesAfter, Sound, Climbing, Sorted;
    var k := Known(w, robots);
    assert forall x :: x in Sorted(k) ==> x in w.views;
    var inc := NewIncident(d, w, t, Sorted(k));
    CaseIsNew(c, d, w, t, robots);
    var counted := Counted(d, w, k);
    var r := FirstRung(c, counted, w, t, inc, SomeMobile(w, k));
    RungBegins(c, d, w, t, k, counted, inc);
    FirstRungIs(c, d, counted, w, t, k, inc);
    TriesSettled(c, d, k, counted, t, r);
    OpensBy(c, d, w, t, k, counted, inc, r);
  }

  lemma OpensBy(c: Settings, d: Desk, w: World, t: real, k: set<Robot>, counted: Desk, inc: Incident, r: Rung)
    requires NewCase(d, w, t, k, inc) && Begins(c, d, w, t, k, inc, r) && r.inc.id == inc.id == d.nextId && d.nextId !in d.active
    requires counted.active == d.active && counted.nextId == d.nextId + 1 && r.end != Solved
    requires TriesAfter(d, k, Settle(c, counted, t, r), r.end)
    ensures Opens(c, d, w, t, k, Settle(c, counted, t, r), [inc.Tell(Deadlock)] + r.events)
  {
    hide Begins, TriesAfter;
    SettledAs(c, counted, t, d.nextId, r);
  }

  lemma FirstRungIs(c: Settings, d: Desk, counted: Desk, w: World, t: real, k: set<Robot>, inc: Incident)
    requires NewCase(d, w, t, k, inc) && Climbing(inc, 0) && inc.attempts == []
    ensures var r := FirstRung(c, counted, w, t, inc, SomeMobile(w, k));
            && inc.id == d.nextId && Members(inc.robots) == k && r.inc.id == inc.id && r.inc.robots == inc.robots
            && r.end != Solved
  {
    hide StartYield, InOrder, TellAll;
    StartYieldChooses(c, w, t, counted.Reserved(inc.id), inc, NoPocket);
    FirstRungSound(c, counted, w, t, inc, SomeMobile(w, k));
  }

  // ---------------------------------------------------------------- tries

  /** The robot has come clearly nearer to its goal since its last incident. */
  ghost predicate CameNearer(c: Settings, d: Desk, w: World, r: Robot) {
    r in d.anchor && r in w.views && w.views[r].remaining.Some? && w.views[r].remaining.value < d.anchor[r] - c.progressReset
  }

  /** r is in an incident with an id below n that failed in this cycle. */
  ghost predicate FailedWith(c: Settings, d: Desk, w: World, t: real, sight: int -> Sight, n: int, e: Desk, r: Robot) {
    exists i :: i in d.active && i < n && FailedIn(c, d, w, t, sight, i, e) && r in d.active[i].robots
  }

  ghost predicate FailedIn(c: Settings, d: Desk, w: World, t: real, sight: int -> Sight, i: int, e: Desk)
    requires i in d.active
  {
    i !in e.active && d.active[i].victims != [] && !Over(c, w, t, sight(i), d.active[i])
  }

  /** Tries of robots in failed incidents are forgotten, all others stay. */
  ghost predicate TriesBelow(c: Settings, d: Desk, w: World, t: real, sight: int -> Sight, n: int, e: Desk) {
    forall r :: TriesOf(e, r) == if FailedWith(c, d, w, t, sight, n, e, r) then 0 else TriesOf(d, r)
  }

  /** Stepping incident i forgets the tries of its robots exactly if it fails. */
  ghost predicate TriesStep(c: Settings, w: World, t: real, sight: int -> Sight, i: int, b: Desk, e: Desk)
    requires i in b.active
  {
    && b.active[i].victims != []
    && forall r :: TriesOf(e, r) ==
         if i !in e.active && !Over(c, w, t, sight(i), b.active[i]) && r in b.active[i].robots then 0 else TriesOf(b, r)
  }

  lemma StepTries(c: Settings, b: Desk, w: World, t: real, sight: int -> Sight, i: int)
    requires Incidents.Valid(c, b) && i in b.active
    ensures TriesStep(c, w, t, sight, i, b, StepAt(c, b, w, t, sight, i).0)
  {
    hide StepOne, InOrder, TellAll, CanYield, CanDetour, NoneUseful, Yields, Detours;
    StepOneSound(c, w, t, b.Reserved(i), sight(i), b.active[i]);
    StepOneChooses(c, w, t, b.Reserved(i), sight(i), b.active[i]);
    SettledAs(c, b, t, i, StepOne(c, w, t, b.Reserved(i), sight(i), b.active[i]));
  }

  lemma TriesOn(c: Settings, d: Desk, w: World, t: real, sight: int -> Sight, n: int, b: Desk, e: Desk)
    requires TriesBelow(c, d, w, t, sight, n, b) && e.active.Keys <= b.active.Keys
    requires forall i :: i in b.active && i != n ==> i in e.active
    requires forall i :: i in d.active && i >= n ==> i in b.active && b.active[i] == d.active[i]
    requires n in b.active ==> n in d.active && TriesStep(c, w, t, sight, n, b, e)
    requires n !in b.active ==> e == b
    ensures TriesBelow(c, d, w, t, sight, n + 1, e)
  {
    hide Over, TriesOf;
    forall r
      ensures FailedWith(c, d, w, t, sight, n + 1, e, r) <==>
                FailedWith(c, d, w, t, sight, n, b, r) || (n in d.active && FailedIn(c, d, w, t, sight, n, e) && r in d.active[n].robots)
    {
      if i :| i in d.active && i < n && FailedIn(c, d, w, t, sight, i, b) && r in d.active[i].robots {
        assert FailedIn(c, d, w, t, sight, i, e);
      }
      if i :| i in d.active && i < n + 1 && FailedIn(c, d, w, t, sight, i, e) && r in d.active[i].robots && i != n {
        assert FailedIn(c, d, w, t, sight, i, b);
      }
    }
  }

  lemma {:induction false} SteppedTries(c: Settings, d: Desk, w: World, t: real, sight: int -> Sight, n: nat)
    requires Incidents.Valid(c, d)
    ensures TriesBelow(c, d, w, t, sight, n, Stepped(c, d, w, t, sight, n).0)
  {
    hide GoneBelow, TriesBelow, StepAt, Incidents.Valid;
    if n == 0 {
      NoTries(c, d, w, t, sight);
    } else {
      SteppedTries(c, d, w, t, sight, n - 1);
      SteppedGone(c, d, w, t, sight, n - 1);
      var (b, events) := Stepped(c, d, w, t, sight, n - 1);
      OneTried(c, d, w, t, sight, n - 1, b, events);
    }
  }

  lemma OneTried(c: Settings, d: Desk, w: World, t: real, sight: int -> Sight, n: nat, b: Desk, events: seq<Event>)
    requires Incidents.Valid(c, b) && GoneBelow(c, d, w, t, sight, n, b, events) && TriesBelow(c, d, w, t, sight, n, b)
    ensures TriesBelow(c, d, w, t, sight, n + 1, StepAt(c, b, w, t, sight, n).0)
  {
    hide Gone, TriesBelow, TriesStep, StepAt, Incidents.Valid, EventsOf;
    if n in b.active {
      StepTries(c, b, w, t, sight, n);
      OneSettled(c, d, w, t, sight, n, b);
    } else {
      NotStepped(c, b, w, t, sight, n);
    }
    TriesOn(c, d, w, t, sight, n, b, StepAt(c, b, w, t, sight, n).0);
  }

  lemma NotStepped(c: Settings, b: Desk, w: World, t: real, sight: int -> Sight, i: int)
    requires Incidents.Valid(c, b) && i !in b.active
    ensures StepAt(c, b, w, t, sight, i) == (b, [])
  {
  }

  lemma NoTries(c: Settings, d: Desk, w: World, t: real, sight: int -> Sight)
    requires Incidents.Valid(c, d)
    ensures TriesBelow(c, d, w, t, sight, 0, d)
  {
    hide Open, Over;
  }

  /** After a cycle the tries of a robot are forgotten exactly if it came nearer to its goal or its incident failed. */
  lemma TriesExactly(c: Settings, d: Desk, w: World, t: real, sight: int -> Sight, r: Robot)
    requires Incidents.Valid(c, d)
    ensures var e := StepAll(c, d, w, t, sight).0;
            TriesOf(e, r) == if CameNearer(c, d, w, r) || FailedWith(c, d, w, t, sight, d.nextId, e, r) then 0 else TriesOf(d, r)
  {
    hide Open, Over, Loose, Stepped;
    var ready := Loosened(Observed(c, d, w), w);
    SteppedTries(c, ready, w, t, sight, ready.nextId);
  }

  // ---------------------------------------------------------------- after a failure

  /** A failed set of robots is left alone for a while, and without end if one of them cannot move. */
  lemma CoolsDown(c: Settings, d: Desk, t: real, r: Rung, later: real)
    requires r.end == GivenUp
    ensures Settle(c, d, t, r).InCooldown(Members(r.inc.robots), later) <==> r.inc.immobile != {} || later < t + c.cooldown
    ensures r.inc.immobile != {} ==>
              Members(r.inc.robots) in Settle(c, d, t, r).stuck && Settle(c, d, t, r).stuck[Members(r.inc.robots)] == r.inc.immobile
  {
  }

  /** It is taken up again as soon as one that could not move can, or is gone. */
  lemma TakenUpAgain(d: Desk, w: World, robots: set<Robot>, t: real)
    requires robots in d.stuck
    ensures (exists r :: r in d.stuck[robots] && !(r in w.views && !w.Mobile(r))) ==> !Loosened(d, w).InCooldown(robots, t)
    ensures (forall r :: r in d.stuck[robots] ==> r in w.views && !w.Mobile(r)) ==>
              (Loosened(d, w).InCooldown(robots, t) <==> d.InCooldown(robots, t))
  {
  }
}
