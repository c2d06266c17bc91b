/** The table of open incidents: how they are opened, stepped and closed, and what every cycle keeps. */
module Incidents {
  import opened Ladder
  import opened Options
  import opened Sorting

  /**
   cooldown: until when a set of robots is not taken up again, None for without end;
   stuck: the robots that could not move when the incident of a set failed.
   */
  datatype Desk = Desk(active: map<int, Incident>, nextId: int, tries: map<Robot, int>, anchor: map<Robot, real>,
                       cooldown: map<set<Robot>, Option<real>>, stuck: map<set<Robot>, set<Robot>>) {
    /** The robots bound by open incidents. */
    ghost function Busy(): set<Robot> {
      set i, r | i in active && r in active[i].robots :: r
    }

    predicate InCooldown(robots: set<Robot>, t: real) {
      robots in cooldown && (cooldown[robots] == None || t < cooldown[robots].value)
    }

    /** The places where the other incidents let somebody give way. */
    function Reserved(id: int): set<Pocket> {
      set i | i in active && i != id && active[i].pocket.Some? :: active[i].pocket.value
    }
  }

  const EMPTY := Desk(map[], 1, map[], map[], map[], map[])

  // ---------------------------------------------------------------- closing

  function Without(d: Desk, robots: set<Robot>): Desk {
    d.(tries := d.tries - robots, anchor := d.anchor - robots)
  }

  /** Files the incident under its id, or closes it; a failed set of robots cools down. */
  function Settle(c: Settings, d: Desk, t: real, r: Rung): Desk {
    var set_ := Members(r.inc.robots);
    match r.end
    case Going => d.(active := d.active[r.inc.id := r.inc])
    case Solved => d.(active := d.active - {r.inc.id})
    case GivenUp =>
      Without(d.(active := d.active - {r.inc.id},
                 cooldown := d.cooldown[set_ := if r.inc.immobile == {} then Some(t + c.cooldown) else None],
                 stuck := if r.inc.immobile == {} then d.stuck else d.stuck[set_ := r.inc.immobile]), set_)
  }

  // ---------------------------------------------------------------- opening

  /** More important: higher priority, then earlier deadline, then smaller id. */
  predicate Outranks(w: World, a: Robot, b: Robot)
    requires a in w.views && b in w.views
  {
    var x, y := w.views[a], w.views[b];
    x.priority > y.priority ||
    (x.priority == y.priority &&
     (Earlier(x.deadline, y.deadline) || (x.deadline == y.deadline && a < b)))
  }

  predicate Earlier(a: Option<real>, b: Option<real>) {
    a.Some? && (b == None || a.value < b.value)
  }

  function InsertVictim(w: World, r: Robot, s: seq<Robot>): (q: seq<Robot>)
    requires r in w.views && forall x :: x in s ==> x in w.views
    ensures forall x :: x in q <==> x == r || x in s
  {
    if s == [] || Outranks(w, s[0], r) then [r] + s else [s[0]] + InsertVictim(w, r, s[1..])
  }

  /** The robots of the list that can move by themselves, the least important first. */
  function VictimsOf(w: World, robots: seq<Robot>): (q: seq<Robot>)
    requires forall x :: x in robots ==> x in w.views
    ensures forall x :: x in q <==> x in robots && w.Mobile(x)
  {
    if robots == [] then []
    else
      var rest := VictimsOf(w, robots[1..]);
      if w.Mobile(robots[0]) then InsertVictim(w, robots[0], rest) else rest
  }

  /** Counts a try for each of the robots. */
  function Tried(tries: map<Robot, int>, robots: set<Robot>): map<Robot, int> {
    map r | r in tries.Keys + robots :: (if r in tries then tries[r] else 0) + if r in robots then 1 else 0
  }

  function Anchored(w: World, anchor: map<Robot, real>, robots: set<Robot>): map<Robot, real> {
    anchor + map r | r in robots && r in w.views && w.views[r].remaining.Some? :: w.views[r].remaining.value
  }

  function Known(w: World, robots: set<Robot>): set<Robot> {
    set r | r in robots && r in w.views
  }

  function NewIncident(d: Desk, w: World, t: real, members: seq<Robot>): Incident
    requires forall x :: x in members ==> x in w.views
  {
    var victims := VictimsOf(w, members);
    Incident(d.nextId, members, t, if victims == [] then members else victims,
             set r | r in members && !w.Mobile(r), 0, Undecided, 0.0, None, None, [], None, false)
  }

  function Counted(d: Desk, w: World, robots: set<Robot>): Desk {
    d.(nextId := d.nextId + 1, tries := Tried(d.tries, robots), anchor := Anchored(w, d.anchor, robots))
  }

  /** The first rung of a new incident: no movable robot, too many tries, or the ladder. */
  function FirstRung(c: Settings, d: Desk, w: World, t: real, inc: Incident, movable: bool): (r: Rung)
    requires inc.victims != [] && inc.index == 0
  {
    if !movable then GiveUp(inc, NoMobileVictim)
    else if exists r :: r in inc.robots && r in d.tries && d.tries[r] > c.maxAttempts then GiveUp(inc, TooManyAttempts)
    else StartYield(c, w, t, d.Reserved(inc.id), inc)
  }

  function OpenOne(c: Settings, d: Desk, w: World, t: real, robots: set<Robot>): (Desk, seq<Event>)
    requires Known(w, robots) != {}
  {
    var members := Sorted(Known(w, robots));
    var inc := NewIncident(d, w, t, members);
    var counted := Counted(d, w, Known(w, robots));
    var first := FirstRung(c, counted, w, t, inc, VictimsOf(w, members) != []);
    (Settle(c, counted, t, first), [inc.Tell(Deadlock)] + first.events)
  }

  // ---------------------------------------------------------------- what is kept

  /** The open incidents are on their ladders, under their ids, and no robot has used up its tries. */
  ghost predicate Valid(c: Settings, d: Desk) {
    && d.nextId >= 1
    && (forall i :: i in d.active ==> 1 <= i < d.nextId && d.active[i].id == i && Open(d.active[i]))
    && (forall r :: r in d.tries ==> d.tries[r] <= c.maxAttempts)
  }

  /** Every incident is reported as a deadlock, then escalates any number of times, then ends once, exactly when it is closed. */
  ghost predicate Told(d: Desk, log: seq<Event>) {
    forall i: int :: TellAll(Unseen, i, log) == StoryOf(d, i)
  }

  ghost function StoryOf(d: Desk, i: int): Story {
    if i in d.active then Running else if 1 <= i < d.nextId then Ended else Unseen
  }

  /** No robot is bound by two open incidents. */
  ghost predicate Disjoint(d: Desk) {
    forall i, j, r :: i in d.active && j in d.active && r in d.active[i].robots && r in d.active[j].robots ==> i == j
  }

  lemma {:induction false} TellJoin(s: Story, id: int, a: seq<Event>, b: seq<Event>)
    ensures TellAll(s, id, a + b) == TellAll(TellAll(s, id, a), id, b)
    decreases a
  {
    if a == [] {
      assert a + b == b;
    } else {
      assert (a + b)[1..] == a[1..] + b;
      TellJoin(if a[0].id == id then Tell(s, a[0].kind) else s, id, a[1..], b);
    }
  }

  lemma {:induction false} TellOther(s: Story, id: int, events: seq<Event>)
    requires forall e :: e in events ==> e.id != id
    ensures TellAll(s, id, events) == s
    decreases events
  {
    if events != [] {
      TellOther(s, id, events[1..]);
    }
  }

  /** A sound rung of an open incident, settled: the story of every incident goes on as the table says. */
  lemma SettleTold(c: Settings, d: Desk, t: real, inc: Incident, r: Rung, log: seq<Event>)
    requires Sound(inc, r) && 1 <= inc.id < d.nextId
    requires forall i: int :: TellAll(Unseen, i, log) == if i == inc.id then Running else StoryOf(d, i)
    ensures Told(Settle(c, d, t, r), log + r.events)
  {
    hide Open, InOrder, TellAll;
    var e := Settle(c, d, t, r);
    forall i: int ensures TellAll(Unseen, i, log + r.events) == StoryOf(e, i) {
      TellJoin(Unseen, i, log, r.events);
      if i != inc.id {
        TellOther(TellAll(Unseen, i, log), i, r.events);
      }
    }
  }

  /** Apart from the one settled, the table keeps its incidents; a failure forgets the tries of its robots. */
  lemma SettleValid(c: Settings, d: Desk, t: real, inc: Incident, r: Rung)
    requires Sound(inc, r) && 1 <= inc.id < d.nextId
    requires forall i :: i in d.active && i != inc.id ==> 1 <= i < d.nextId && d.active[i].id == i && Open(d.active[i])
    requires forall x :: x in d.tries && (r.end != GivenUp || x !in inc.robots) ==> d.tries[x] <= c.maxAttempts
    ensures Valid(c, Settle(c, d, t, r))
  {
    hide Open, InOrder, TellAll;
  }

  lemma SettleDisjoint(c: Settings, d: Desk, t: real, inc: Incident, r: Rung)
    requires Sound(inc, r)
    requires Disjoint(d.(active := d.active - {inc.id}))
    requires r.end == Going ==> forall i, x :: i in d.active && i != inc.id && x in d.active[i].robots ==> x !in inc.robots
    ensures Disjoint(Settle(c, d, t, r))
  {
    hide Open, InOrder, TellAll;
    var e := Settle(c, d, t, r);
    var rest := d.(active := d.active - {inc.id});
    forall i, j, x | i in e.active && j in e.active && x in e.active[i].robots && x in e.active[j].robots
      ensures i == j
    {
      assert i != inc.id ==> i in rest.active && rest.active[i] == e.active[i];
      assert j != inc.id ==> j in rest.active && rest.active[j] == e.active[j];
    }
  }

  // ---------------------------------------------------------------- one cycle

  /** Robots that have come far enough since their last incident start to count afresh. */
  predicate Progressed(c: Settings, w: World, anchor: map<Robot, real>, r: Robot) {
    r in anchor && r in w.views && w.views[r].remaining.Some? &&
    w.views[r].remaining.value < anchor[r] - c.progressReset
  }

  function Observed(c: Settings, d: Desk, w: World): Desk {
    Without(d, set r | r in d.anchor && Progressed(c, w, d.anchor, r))
  }

  predicate Loose(w: World, immobile: set<Robot>) {
    exists r :: r in immobile && (r !in w.views || w.Mobile(r))
  }

  /** Sets of robots of which a stuck one can move again, or is gone, may be taken up again. */
  function Loosened(d: Desk, w: World): Desk {
    var loose := set s | s in d.stuck && Loose(w, d.stuck[s]);
    d.(stuck := d.stuck - loose, cooldown := d.cooldown - loose)
  }

  /** Steps the incident with the id, if it is open. */
  function StepAt(c: Settings, b: Desk, w: World, t: real, sight: int -> Sight, i: int): (r: (Desk, seq<Event>))
    requires Valid(c, b)
    ensures Valid(c, r.0) && r.0.nextId == b.nextId && r.0.active.Keys <= b.active.Keys
  {
    if i in b.active then
      var r := StepOne(c, w, t, b.Reserved(i), sight(i), b.active[i]);
      StepOneSound(c, w, t, b.Reserved(i), sight(i), b.active[i]);
      SettleValid(c, b, t, b.active[i], r);
      (Settle(c, b, t, r), r.events)
    else (b, [])
  }

  /** Steps the incidents with ids below n, in order. */
  function Stepped(c: Settings, d: Desk, w: World, t: real, sight: int -> Sight, n: nat): (r: (Desk, seq<Event>))
    requires Valid(c, d)
    ensures Valid(c, r.0) && r.0.nextId == d.nextId && r.0.active.Keys <= d.active.Keys
  {
    if n == 0 then (d, [])
    else
      var (b, events) := Stepped(c, d, w, t, sight, n - 1);
      var (e, more) := StepAt(c, b, w, t, sight, n - 1);
      (e, events + more)
  }

  function StepAll(c: Settings, d: Desk, w: World, t: real, sight: int -> Sight): (Desk, seq<Event>)
    requires Valid(c, d)
  {
    var ready := Loosened(Observed(c, d, w), w);
    Stepped(c, ready, w, t, sight, ready.nextId)
  }

  // ---------------------------------------------------------------- every cycle

  /** The same robots since the same time, possibly further up the ladder. */
  predicate SameCase(a: Incident, b: Incident) {
    a.robots == b.robots && a.detectedAt == b.detectedAt && a.victims == b.victims && a.index <= b.index
  }

  /** e holds cases of d only; those with ids below n are not older than the limit. */
  ghost predicate CasesGoOn(c: Settings, t: real, d: Desk, e: Desk, n: int) {
    && (forall i :: i in e.active ==> i in d.active && SameCase(d.active[i], e.active[i]))
    && (forall i :: i in e.active && i < n ==> t - e.active[i].detectedAt <= c.deadlockMax)
  }

  /** A cycle tells every story on, binds no robot twice, and ends what lasts too long. */
  lemma {:induction false} SteppedKeeps(c: Settings, d: Desk, w: World, t: real, sight: int -> Sight, n: nat, log: seq<Event>)
    requires Valid(c, d) && Told(d, log)
    ensures var (e, events) := Stepped(c, d, w, t, sight, n);
            Told(e, log + events) && (Disjoint(d) ==> Disjoint(e)) && CasesGoOn(c, t, d, e, n)
  {
    hide Valid, Told, Disjoint, StepAt, CasesGoOn;
    if n == 0 {
      assert log + [] == log;
      CasesSame(c, d, t);
    } else {
      SteppedKeeps(c, d, w, t, sight, n - 1, log);
      var (b, events) := Stepped(c, d, w, t, sight, n - 1);
      var (e, more) := StepAt(c, b, w, t, sight, n - 1);
      StepAtKeeps(c, b, w, t, sight, n - 1, log + events);
      assert (log + events) + more == log + (events + more);
      CasesFurther(c, t, d, b, e, n);
    }
  }

  lemma CasesSame(c: Settings, d: Desk, t: real)
    requires Valid(c, d)
    ensures CasesGoOn(c, t, d, d, 0)
  {
    hide Open;
  }

  lemma CasesFurther(c: Settings, t: real, d: Desk, b: Desk, e: Desk, n: nat)
    requires n > 0 && CasesGoOn(c, t, d, b, n - 1) && StepsAt(c, t, b, e, n - 1)
    ensures CasesGoOn(c, t, d, e, n)
  {
  }

  /** e differs from b at i only, where the case goes on within its time or is closed. */
  ghost predicate StepsAt(c: Settings, t: real, b: Desk, e: Desk, i: int) {
    && (forall j :: j in e.active ==> j in b.active && SameCase(b.active[j], e.active[j]))
    && (i in e.active ==> t - e.active[i].detectedAt <= c.deadlockMax)
    && (forall j :: j in e.active && j != i ==> e.active[j] == b.active[j])
  }

  lemma StepAtKeeps(c: Settings, b: Desk, w: World, t: real, sight: int -> Sight, i: int, log: seq<Event>)
    requires Valid(c, b) && Told(b, log)
    ensures var (e, events) := StepAt(c, b, w, t, sight, i);
            Told(e, log + events) && (Disjoint(b) ==> Disjoint(e)) && StepsAt(c, t, b, e, i)
  {
    hide StepOne, Told, Disjoint, TellAll, InOrder, Settle;
    if i in b.active {
      var inc := b.active[i];
      StepOneSound(c, w, t, b.Reserved(i), sight(i), inc);
      var r := StepOne(c, w, t, b.Reserved(i), sight(i), inc);
      ToldRunning(b, i, log);
      SettleTold(c, b, t, inc, r, log);
      SettleSteps(c, b, t, i, r);
      if Disjoint(b) {
        DisjointRest(b, i);
        SettleDisjoint(c, b, t, inc, r);
      }
    } else {
      assert log + [] == log;
    }
  }

  lemma SettleSteps(c: Settings, b: Desk, t: real, i: int, r: Rung)
    requires i in b.active && b.active[i].id == i && Sound(b.active[i], r)
    requires r.end == Going ==> t - b.active[i].detectedAt <= c.deadlockMax
    ensures StepsAt(c, t, b, Settle(c, b, t, r), i)
  {
    hide Open, InOrder, TellAll;
  }

  lemma ToldRunning(d: Desk, id: int, log: seq<Event>)
    requires Told(d, log) && id in d.active
    ensures forall i: int :: TellAll(Unseen, i, log) == if i == id then Running else StoryOf(d, i)
  {
    hide TellAll;
  }

  lemma DisjointRest(d: Desk, id: int)
    requires Disjoint(d) && id in d.active
    ensures Disjoint(d.(active := d.active - {id}))
    ensures forall i, x :: i in d.active && i != id && x in d.active[i].robots ==> x !in d.active[id].robots
  {
  }

  /** A cycle of the table, whatever the robots do. */
  lemma StepAllKeeps(c: Settings, d: Desk, w: World, t: real, sight: int -> Sight, log: seq<Event>)
    requires Valid(c, d) && Told(d, log)
    ensures var (e, events) := StepAll(c, d, w, t, sight);
            && Valid(c, e) && Told(e, log + events) && (Disjoint(d) ==> Disjoint(e))
            && CasesGoOn(c, t, d, e, d.nextId)
            && (forall i :: i in e.active ==> t - e.active[i].detectedAt <= c.deadlockMax)
  {
    hide Disjoint, Told, Stepped, Progressed, Loose;
    var ready := Loosened(Observed(c, d, w), w);
    ReadySame(c, d, ready, log);
    SteppedKeeps(c, ready, w, t, sight, ready.nextId, log);
    AllInTime(c, t, ready, Stepped(c, ready, w, t, sight, ready.nextId).0);
  }

  lemma AllInTime(c: Settings, t: real, d: Desk, e: Desk)
    requires CasesGoOn(c, t, d, e, d.nextId) && Valid(c, d)
    ensures forall i :: i in e.active ==> t - e.active[i].detectedAt <= c.deadlockMax
  {
    hide Open;
  }

  lemma ReadySame(c: Settings, d: Desk, ready: Desk, log: seq<Event>)
    requires Valid(c, d) && Told(d, log) && ready.active == d.active && ready.nextId == d.nextId
    requires forall r :: r in ready.tries ==> r in d.tries && ready.tries[r] == d.tries[r]
    ensures Valid(c, ready) && Told(ready, log) && (Disjoint(d) ==> Disjoint(ready))
  {
    hide Open, TellAll;
    assert forall i: int :: StoryOf(ready, i) == StoryOf(d, i);
  }

  // ---------------------------------------------------------------- every opening

  /** Each robot is less important than the ones after it. */
  ghost predicate Descending(w: World, s: seq<Robot>) {
    && (forall x :: x in s ==> x in w.views)
    && (forall i, j :: 0 <= i < j < |s| ==> Outranks(w, s[j], s[i]))
  }

  lemma OutranksTotal(w: World, a: Robot, b: Robot)
    requires a in w.views && b in w.views && a != b
    ensures Outranks(w, a, b) <==> !Outranks(w, b, a)
  {
  }

  lemma OutranksTrans(w: World, a: Robot, b: Robot, e: Robot)
    requires a in w.views && b in w.views && e in w.views && Outranks(w, a, b) && Outranks(w, b, e)
    ensures Outranks(w, a, e)
  {
  }

  lemma {:induction false} InsertDescending(w: World, r: Robot, s: seq<Robot>)
    requires r in w.views && Descending(w, s) && r !in s
    ensures Descending(w, InsertVictim(w, r, s))
  {
    hide Outranks;
    if s != [] {
      OutranksTotal(w, s[0], r);
      var q := InsertVictim(w, r, s);
      if Outranks(w, s[0], r) {
        forall j | 0 <= j < |s| ensures Outranks(w, s[j], r) {
          if j > 0 {
            OutranksTrans(w, s[j], s[0], r);
          }
        }
      } else {
        InsertDescending(w, r, s[1..]);
        var rest := InsertVictim(w, r, s[1..]);
        forall x | x in rest ensures Outranks(w, x, s[0]) {
          if x != r {
            var k :| 0 <= k < |s[1..]| && s[1..][k] == x;
          }
        }
      }
    }
  }

  /** The victims are tried from the least important robot to the most important one. */
  lemma {:induction false} VictimsDescend(w: World, robots: seq<Robot>)
    requires Distinct(robots) && forall x :: x in robots ==> x in w.views
    ensures Descending(w, VictimsOf(w, robots)) && Distinct(VictimsOf(w, robots))
  {
    if robots != [] {
      assert forall i :: 0 <= i < |robots[1..]| ==> robots[1..][i] == robots[i + 1];
      VictimsDescend(w, robots[1..]);
      var rest := VictimsOf(w, robots[1..]);
      if w.Mobile(robots[0]) {
        InsertDescending(w, robots[0], rest);
      }
    }
    DescendingDistinct(w, VictimsOf(w, robots));
  }

  lemma DescendingDistinct(w: World, s: seq<Robot>)
    requires Descending(w, s)
    ensures Distinct(s)
  {
    forall i, j | 0 <= i < j < |s| ensures s[i] != s[j] {
      assert Outranks(w, s[j], s[i]);
    }
  }

  lemma FirstRungSound(c: Settings, d: Desk, w: World, t: real, inc: Incident, movable: bool)
    requires Shape(inc) && inc.index == 0 && inc.attempts == []
    ensures var r := FirstRung(c, d, w, t, inc, movable);
            && Sound(inc, r)
            && (r.end != GivenUp ==> forall x :: x in inc.robots && x in d.tries ==> d.tries[x] <= c.maxAttempts)
  {
    hide StartYield, TellAll;
    GiveUpSound(inc, NoMobileVictim);
    GiveUpSound(inc, TooManyAttempts);
    StartYieldSound(c, w, t, d.Reserved(inc.id), inc);
  }

  lemma NewShape(d: Desk, w: World, t: real, robots: set<Robot>)
    requires Known(w, robots) != {}
    ensures Shape(NewIncident(d, w, t, Sorted(Known(w, robots))))
  {
    hide VictimsOf, Sorted;
    var members := Sorted(Known(w, robots));
    assert Distinct(members);
    VictimsDescend(w, members);
  }

  /**
   Opening an incident tells its story from the deadlock on.  No robot is bound twice exactly if
   none was before and the new robots are free, or the incident is closed at once.
   */
  lemma OpenKeeps(c: Settings, d: Desk, w: World, t: real, robots: set<Robot>, log: seq<Event>)
    requires Valid(c, d) && Told(d, log) && Known(w, robots) != {}
    ensures var (e, events) := OpenOne(c, d, w, t, robots);
            && Valid(c, e) && Told(e, log + events) && e.nextId == d.nextId + 1
            && e.Busy() <= d.Busy() + robots
            && (Disjoint(e) <==> Disjoint(d) && (d.nextId in e.active ==> Known(w, robots) !! d.Busy()))
  {
    hide FirstRung, TellAll, Told, Open, VictimsOf, Tried, Anchored, Settle, Disjoint, NewIncident, Counted, Desk.Busy, Shape,
      Sound, Sorted;
    var members := Sorted(Known(w, robots));
    var inc := NewIncident(d, w, t, members);
    var counted := Counted(d, w, Known(w, robots));
    NewShape(d, w, t, robots);
    NewIs(c, d, w, t, robots);
    var first := FirstRung(c, counted, w, t, inc, VictimsOf(w, members) != []);
    FirstRungSound(c, counted, w, t, inc, VictimsOf(w, members) != []);
    var told := log + [inc.Tell(Deadlock)];
    NewStory(d, counted, inc, log);
    SettleTold(c, counted, t, inc, first, told);
    Associate(log, [inc.Tell(Deadlock)], first.events);
    NewValid(c, d, w, t, robots, inc, first);
    SettledId(c, counted, t, first);
    OpenDisjoint(c, d, counted, t, inc, first);
  }

  lemma SettledId(c: Settings, d: Desk, t: real, r: Rung)
    ensures Settle(c, d, t, r).nextId == d.nextId
  {
  }

  /** What opening starts from. */
  lemma NewIs(c: Settings, d: Desk, w: World, t: real, robots: set<Robot>)
    requires Valid(c, d) && Known(w, robots) != {}
    ensures var inc := NewIncident(d, w, t, Sorted(Known(w, robots)));
            && inc.id == d.nextId >= 1 && inc.victims != [] && inc.index == 0 && inc.attempts == []
            && Members(inc.robots) == Known(w, robots) <= robots && d.nextId !in d.active
    ensures var e := Counted(d, w, Known(w, robots));
            e.active == d.active && e.nextId == d.nextId + 1 && e.tries == Tried(d.tries, Known(w, robots))
    ensures forall i :: i in d.active ==> i < d.nextId
  {
    hide Open, Tried, Anchored, VictimsOf;
    var inc := NewIncident(d, w, t, Sorted(Known(w, robots)));
    assert forall x :: x in inc.robots <==> x in Known(w, robots);
    assert Sorted(Known(w, robots)) != [];
  }

  lemma NewValid(c: Settings, d: Desk, w: World, t: real, robots: set<Robot>, inc: Incident, r: Rung)
    requires Valid(c, d) && Known(w, robots) != {} && inc == NewIncident(d, w, t, Sorted(Known(w, robots))) && Sound(inc, r)
    requires var tries := Tried(d.tries, Known(w, robots));
             r.end != GivenUp ==> forall x :: x in inc.robots && x in tries ==> tries[x] <= c.maxAttempts
    ensures Valid(c, Settle(c, Counted(d, w, Known(w, robots)), t, r))
  {
    hide Open, Tried, Anchored, VictimsOf, NewIncident, Known, Sorted, Settle, Sound;
    NewIs(c, d, w, t, robots);
    TriedBound(c, d, Known(w, robots));
    InMembers(inc.robots);
    SettleValid(c, Counted(d, w, Known(w, robots)), t, inc, r);
  }

  lemma InMembers(s: seq<Robot>)
    ensures forall x :: x in Members(s) <==> x in s
  {
  }

  lemma TriedBound(c: Settings, d: Desk, robots: set<Robot>)
    requires Valid(c, d)
    ensures forall r :: r in Tried(d.tries, robots) && r !in robots ==> Tried(d.tries, robots)[r] <= c.maxAttempts
  {
    hide Open;
  }

  lemma NewStory(d: Desk, counted: Desk, inc: Incident, log: seq<Event>)
    requires Told(d, log) && inc.id == d.nextId >= 1 && inc.victims != []
    requires forall i :: i in d.active ==> i < d.nextId
    requires counted.active == d.active && counted.nextId == d.nextId + 1
    ensures forall i: int ::
              TellAll(Unseen, i, log + [inc.Tell(Deadlock)]) == if i == inc.id then Running else StoryOf(counted, i)
  {
    var e := inc.Tell(Deadlock);
    forall i: int
      ensures TellAll(Unseen, i, log + [e]) == if i == inc.id then Running else StoryOf(counted, i)
    {
      TellJoin(Unseen, i, log, [e]);
      assert TellAll(Unseen, i, log) == StoryOf(d, i);
      OneTold(StoryOf(d, i), i, e);
    }
  }

  lemma OneTold(s: Story, i: int, e: Event)
    ensures TellAll(s, i, [e]) == if e.id == i then Tell(s, e.kind) else s
  {
  }

  lemma OpenDisjoint(c: Settings, d: Desk, counted: Desk, t: real, inc: Incident, r: Rung)
    requires Sound(inc, r) && counted.active == d.active && inc.id !in d.active
    ensures var e := Settle(c, counted, t, r);
            && e.Busy() <= d.Busy() + Members(inc.robots)
            && (Disjoint(e) <==> Disjoint(d) && (inc.id in e.active ==> Members(inc.robots) !! d.Busy()))
  {
    hide Disjoint, Sound;
    var e := Settle(c, counted, t, r);
    SettleAdds(c, d, counted, t, inc, r);
    hide Settle;
    if Disjoint(e) {
      FewerDisjoint(d, e);
      if inc.id in e.active {
        BoundIsBusy(d, e, inc);
      }
    }
    if Disjoint(d) && (inc.id in e.active ==> Members(inc.robots) !! d.Busy()) {
      FreeDisjoint(d, e, inc);
    }
  }

  /** A new incident, settled, adds at most itself. */
  lemma SettleAdds(c: Settings, d: Desk, counted: Desk, t: real, inc: Incident, r: Rung)
    requires Sound(inc, r) && counted.active == d.active && inc.id !in d.active
    ensures var e := Settle(c, counted, t, r);
            && (forall i :: i in d.active ==> i in e.active && e.active[i] == d.active[i])
            && e.active.Keys <= d.active.Keys + {inc.id}
            && (inc.id in e.active ==> e.active[inc.id].robots == inc.robots)
            && e.Busy() <= d.Busy() + Members(inc.robots)
  {
    hide Open, TellAll, InOrder;
  }

  lemma FewerDisjoint(d: Desk, e: Desk)
    requires Disjoint(e) && forall i :: i in d.active ==> i in e.active && e.active[i] == d.active[i]
    ensures Disjoint(d)
  {
  }

  lemma BoundIsBusy(d: Desk, e: Desk, inc: Incident)
    requires Disjoint(e) && inc.id !in d.active && inc.id in e.active && e.active[inc.id].robots == inc.robots
    requires forall i :: i in d.active ==> i in e.active && e.active[i] == d.active[i]
    ensures Members(inc.robots) !! d.Busy()
  {
  }

  lemma FreeDisjoint(d: Desk, e: Desk, inc: Incident)
    requires Disjoint(d) && inc.id !in d.active && e.active.Keys <= d.active.Keys + {inc.id}
    requires forall i :: i in d.active && i in e.active ==> e.active[i] == d.active[i]
    requires inc.id in e.active ==> e.active[inc.id].robots == inc.robots && Members(inc.robots) !! d.Busy()
    ensures Disjoint(e)
  {
    forall i, j, x | i in e.active && j in e.active && x in e.active[i].robots && x in e.active[j].robots
      ensures i == j
    {
      assert i in d.active ==> x in d.Busy();
      assert j in d.active ==> x in d.Busy();
    }
  }

  // ---------------------------------------------------------------- commands

  datatype Command = Hold(id: int, at: Pocket) | Avoid(id: int, mask: Mask)

  function CommandOf(inc: Incident): Option<Command> {
    if inc.strategy == Yield && inc.pocket.Some? then Some(Hold(inc.id, inc.pocket.value))
    else if inc.strategy == AltPath && inc.mask.Some? then Some(Avoid(inc.id, inc.mask.value))
    else None
  }

  /** The commands of the incidents with ids below n; a later one replaces an earlier one for the same robot. */
  function Commands(d: Desk, n: nat): map<Robot, Command> {
    if n == 0 then map[]
    else
      var before := Commands(d, n - 1);
      var i := n - 1;
      if i in d.active && d.active[i].victims != [] && CommandOf(d.active[i]).Some?
      then before[d.active[i].Victim() := CommandOf(d.active[i]).value]
      else before
  }

  lemma {:induction false} CommandsComeFrom(d: Desk, n: nat, v: Robot)
    requires v in Commands(d, n)
    ensures exists i :: 0 <= i < n && i in d.active && d.active[i].victims != [] && d.active[i].Victim() == v &&
                        CommandOf(d.active[i]) == Some(Commands(d, n)[v])
  {
    if n > 0 && v in Commands(d, n - 1) {
      CommandsComeFrom(d, n - 1, v);
    }
  }

  /** With every robot bound once, no incident's command is lost: its victim gets it. */
  lemma {:induction false} NoCommandLost(c: Settings, d: Desk, n: nat, i: int)
    requires Valid(c, d) && Disjoint(d) && 0 <= i < n && i in d.active
    ensures var inc := d.active[i];
            inc.Victim() in Commands(d, n) && CommandOf(inc) == Some(Commands(d, n)[inc.Victim()])
  {
    hide InOrder;
    assert Open(d.active[i]);
    if i < n - 1 {
      NoCommandLost(c, d, n - 1, i);
      assert n - 1 in d.active ==> Open(d.active[n - 1]);
      assert n - 1 in d.active ==> d.active[n - 1].Victim() in d.active[n - 1].robots;
      assert d.active[i].Victim() in d.active[i].robots;
    }
  }
}
