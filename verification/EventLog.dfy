/** What the dashboard shows, as a snapshot that events are replayed onto. */
module EventLog {
  import opened Options

  type Robot = int
  type Task = int

  /** Message contents the store only hands on. */
  type Text = int

  datatype World = World(x: real, y: real, width: real, height: real)

  /** Map data: its extent in cells, cell size and origin. */
  datatype MapMeta = MapMeta(width: int, height: int, resolution: real, x: real, y: real, stamp: Text)

  /** valid: whether the id can name a topic. */
  datatype Seen = Seen(robot: Robot, valid: bool)

  datatype Status = Status(robots: seq<Seen>, rest: Text)

  datatype TaskEvent = TaskEvent(task: Task, rest: Text)

  datatype Target = All | One(robot: Robot)

  datatype Event =
    | StatusEvent(status: Status)
    | AlertsEvent(alerts: seq<Text>)
    | TaskEventEvent(event: TaskEvent)
    | MapEvent(meta: MapMeta)
    | EstopEvent(estops: map<Target, bool>)
    | RequestEvent(request: Text)
    | Other(kind: Text)

  datatype Limits = Limits(maxAlerts: nat, maxTaskEvents: nat, maxTasks: nat)

  /** The part of the snapshot that events change. tasks: oldest update first. */
  datatype View = View(status: Option<Status>, alerts: seq<Text>, taskEvents: seq<TaskEvent>,
                       tasks: seq<(Task, TaskEvent)>, map_: Option<MapMeta>, world: World, estops: map<Target, bool>,
                       request: Option<Text>, robots: seq<Robot>, invalid: set<Robot>)

  /** The newest n entries. */
  function Newest<T>(s: seq<T>, n: nat): (r: seq<T>)
    ensures |r| <= n
  {
    if |s| > n then s[|s| - n..] else s
  }

  function Without(tasks: seq<(Task, TaskEvent)>, t: Task): seq<(Task, TaskEvent)> {
    if tasks == [] then []
    else (if tasks[0].0 == t then [] else [tasks[0]]) + Without(tasks[1..], t)
  }

  /** The task gets its new event and moves to the newest end. */
  function Touch(tasks: seq<(Task, TaskEvent)>, e: TaskEvent): seq<(Task, TaskEvent)> {
    Without(tasks, e.task) + [(e.task, e)]
  }

  function WorldOf(meta: MapMeta, before: World): World {
    if meta.width > 0 && meta.height > 0 && meta.resolution > 0.0
    then World(meta.x, meta.y, meta.width as real * meta.resolution, meta.height as real * meta.resolution)
    else before
  }

  function NewRobots(seen: seq<Seen>, robots: seq<Robot>): seq<Robot> {
    if seen == [] then robots
    else
      NewRobots(seen[1..], if seen[0].valid && seen[0].robot !in robots then robots + [seen[0].robot] else robots)
  }

  function NewInvalid(seen: seq<Seen>): set<Robot> {
    set k | 0 <= k < |seen| && !seen[k].valid :: seen[k].robot
  }

  /** What one event does to the view of whoever receives it. */
  function Replay(l: Limits, v: View, e: Event): View {
    match e
    case StatusEvent(s) =>
      v.(status := Some(s), robots := NewRobots(s.robots, v.robots), invalid := v.invalid + NewInvalid(s.robots))
    case AlertsEvent(a) => v.(alerts := Newest(v.alerts + a, l.maxAlerts))
    case TaskEventEvent(t) =>
      v.(taskEvents := Newest(v.taskEvents + [t], l.maxTaskEvents), tasks := Newest(Touch(v.tasks, t), l.maxTasks))
    case MapEvent(m) => v.(map_ := Some(m), world := WorldOf(m, v.world))
    case EstopEvent(m) => v.(estops := m)
    case RequestEvent(r) => v.(request := Some(r))
    case Other(_) => v
  }

  function ReplayAll(l: Limits, v: View, events: seq<Event>): View {
    if events == [] then v else Replay(l, ReplayAll(l, v, events[..|events| - 1]), events[|events| - 1])
  }

  /** Replaying in two parts is replaying at once. */
  lemma {:induction false} ReplayJoin(l: Limits, v: View, a: seq<Event>, b: seq<Event>)
    ensures ReplayAll(l, ReplayAll(l, v, a), b) == ReplayAll(l, v, a + b)
  {
    if b == [] {
      assert a + b == a;
    } else {
      var n := |b| - 1;
      ReplayJoin(l, v, a, b[..n]);
      assert (a + b)[..|a + b| - 1] == a + b[..n];
    }
  }

  /** The events numbered S + 1 to T, replayed onto the view after S events, give the view after T. */
  lemma SnapshotPlusEvents(l: Limits, v: View, log: seq<Event>, s: nat, t: nat)
    requires s <= t <= |log|
    ensures ReplayAll(l, ReplayAll(l, v, log[..s]), log[s..t]) == ReplayAll(l, v, log[..t])
  {
    ReplayJoin(l, v, log[..s], log[s..t]);
    assert log[..s] + log[s..t] == log[..t];
  }

  // ---------------------------------------------------------------- bounded histories are the newest part of the full ones

  lemma NewestAppend<T>(a: seq<T>, b: seq<T>, n: nat)
    ensures Newest(Newest(a, n) + b, n) == Newest(a + b, n)
  {
    if |a| > n {
      var c := a[|a| - n..] + b;
      assert c == (a + b)[|a| - n..];
      assert c[|b|..] == (a + b)[|a| + |b| - n..];
    }
  }

  lemma {:induction false} WithoutJoin(a: seq<(Task, TaskEvent)>, b: seq<(Task, TaskEvent)>, t: Task)
    ensures Without(a + b, t) == Without(a, t) + Without(b, t)
  {
    if a == [] {
      assert a + b == b;
    } else {
      assert (a + b)[1..] == a[1..] + b;
      WithoutJoin(a[1..], b, t);
    }
  }

  /** Every task at most once. */
  ghost predicate OnceEach(tasks: seq<(Task, TaskEvent)>) {
    forall i, j :: 0 <= i < j < |tasks| ==> tasks[i].0 != tasks[j].0
  }

  lemma {:induction false} WithoutMembers(tasks: seq<(Task, TaskEvent)>, t: Task)
    ensures forall x :: x in Without(tasks, t) <==> x in tasks && x.0 != t
  {
    if tasks != [] {
      WithoutMembers(tasks[1..], t);
      assert tasks == [tasks[0]] + tasks[1..];
    }
  }

  lemma {:induction false} WithoutNobody(tasks: seq<(Task, TaskEvent)>, t: Task)
    requires forall i :: 0 <= i < |tasks| ==> tasks[i].0 != t
    ensures Without(tasks, t) == tasks
  {
    if tasks != [] {
      WithoutNobody(tasks[1..], t);
      assert tasks == [tasks[0]] + tasks[1..];
    }
  }

  lemma {:induction false} WithoutOnce(tasks: seq<(Task, TaskEvent)>, t: Task)
    requires OnceEach(tasks)
    ensures OnceEach(Without(tasks, t)) && |tasks| - 1 <= |Without(tasks, t)| <= |tasks|
  {
    if tasks != [] {
      var first, rest := tasks[0], tasks[1..];
      assert forall i :: 0 <= i < |rest| ==> rest[i].0 != first.0;
      WithoutOnce(rest, t);
      WithoutMembers(rest, t);
      if first.0 == t {
        WithoutNobody(rest, t);
      } else {
        OnceMore(first, Without(rest, t), rest);
      }
    }
  }

  lemma OnceMore(x: (Task, TaskEvent), tasks: seq<(Task, TaskEvent)>, others: seq<(Task, TaskEvent)>)
    requires OnceEach(tasks) && (forall y :: y in tasks ==> y in others)
    requires forall i :: 0 <= i < |others| ==> others[i].0 != x.0
    ensures OnceEach([x] + tasks)
  {
    forall i | 0 <= i < |tasks| ensures tasks[i].0 != x.0 {
      assert tasks[i] in tasks && tasks[i] in others;
    }
  }

  lemma WithoutMeaning(tasks: seq<(Task, TaskEvent)>, t: Task)
    requires OnceEach(tasks)
    ensures OnceEach(Without(tasks, t)) && |tasks| - 1 <= |Without(tasks, t)| <= |tasks|
    ensures forall x :: x in Without(tasks, t) <==> x in tasks && x.0 != t
    ensures (forall x :: x in tasks ==> x.0 != t) ==> Without(tasks, t) == tasks
  {
    hide Without, OnceEach;
    WithoutOnce(tasks, t);
    WithoutMembers(tasks, t);
    if forall x :: x in tasks ==> x.0 != t {
      assert forall i :: 0 <= i < |tasks| ==> tasks[i] in tasks;
      WithoutNobody(tasks, t);
    }
  }

  lemma TouchOnce(tasks: seq<(Task, TaskEvent)>, e: TaskEvent)
    requires OnceEach(tasks)
    ensures OnceEach(Touch(tasks, e))
  {
    WithoutMeaning(tasks, e.task);
    var w := Without(tasks, e.task);
    forall i | 0 <= i < |w| ensures w[i].0 != e.task {
      assert w[i] in w;
    }
  }

  lemma NewestIsSuffix<T>(s: seq<T>, n: nat)
    ensures |Newest(s, n)| <= |s| && Newest(s, n) == s[|s| - |Newest(s, n)|..]
  {
  }

  /** Forgetting the oldest tasks first changes nothing in what the newest are. */
  lemma TouchNewest(tasks: seq<(Task, TaskEvent)>, e: TaskEvent, n: nat)
    requires OnceEach(tasks)
    ensures Newest(Touch(Newest(tasks, n), e), n) == Newest(Touch(tasks, e), n)
  {
    if |tasks| > n {
      hide Without;
      var k := |tasks| - n;
      var first, kept := tasks[..k], tasks[k..];
      assert tasks == first + kept;
      WithoutJoin(first, kept, e.task);
      assert OnceEach(kept);
      WithoutMeaning(kept, e.task);
      var a, b := Without(first, e.task), Without(kept, e.task);
      assert (a + b) + [(e.task, e)] == a + (b + [(e.task, e)]);
      NewestOfEnd(a, b + [(e.task, e)], n);
    }
  }

  lemma NewestOfEnd<T>(a: seq<T>, b: seq<T>, n: nat)
    requires |b| >= n
    ensures Newest(a + b, n) == Newest(b, n)
  {
  }

  /** All tasks of the events, in the order of their last update. */
  function Recent(events: seq<Event>): seq<(Task, TaskEvent)> {
    if events == [] then []
    else
      var before, e := Recent(events[..|events| - 1]), events[|events| - 1];
      if e.TaskEventEvent? then Touch(before, e.event) else before
  }

  function AllAlerts(events: seq<Event>): seq<Text> {
    if events == [] then []
    else
      var before, e := AllAlerts(events[..|events| - 1]), events[|events| - 1];
      if e.AlertsEvent? then before + e.alerts else before
  }

  function AllTaskEvents(events: seq<Event>): seq<TaskEvent> {
    if events == [] then []
    else
      var before, e := AllTaskEvents(events[..|events| - 1]), events[|events| - 1];
      if e.TaskEventEvent? then before + [e.event] else before
  }

  /**
   The bounded histories are exactly the newest entries of the full ones, and the task table holds
   the most recently updated tasks, each with its last event.
   */
  lemma {:induction false} HistoriesAreNewest(l: Limits, v: View, events: seq<Event>)
    requires v.alerts == [] && v.taskEvents == [] && v.tasks == []
    ensures var r := ReplayAll(l, v, events);
            && r.alerts == Newest(AllAlerts(events), l.maxAlerts)
            && r.taskEvents == Newest(AllTaskEvents(events), l.maxTaskEvents)
            && r.tasks == Newest(Recent(events), l.maxTasks) && OnceEach(Recent(events))
  {
    if events != [] {
      var before, e := events[..|events| - 1], events[|events| - 1];
      HistoriesAreNewest(l, v, before);
      match e
      case AlertsEvent(a) => NewestAppend(AllAlerts(before), a, l.maxAlerts);
      case TaskEventEvent(t) =>
        NewestAppend(AllTaskEvents(before), [t], l.maxTaskEvents);
        TouchNewest(Recent(before), t, l.maxTasks);
        TouchOnce(Recent(before), t);
      case _ =>
    }
  }

  // ---------------------------------------------------------------- what is shown is the last that was said

  /** What is shown as one value. */
  datatype Field = StatusShown | MapShown | WorldShown | EstopsShown | RequestShown

  /** The event says something of the field; a map says nothing of the world unless it has a size. */
  ghost predicate Says(f: Field, e: Event) {
    match f
    case StatusShown => e.StatusEvent?
    case MapShown => e.MapEvent?
    case WorldShown => e.MapEvent? && e.meta.width > 0 && e.meta.height > 0 && e.meta.resolution > 0.0
    case EstopsShown => e.EstopEvent?
    case RequestShown => e.RequestEvent?
  }

  /** The view shows in the field what the event says. */
  ghost predicate Shows(f: Field, v: View, e: Event)
    requires Says(f, e)
  {
    match f
    case StatusShown => v.status == Some(e.status)
    case MapShown => v.map_ == Some(e.meta)
    case WorldShown =>
      && v.world.x == e.meta.x && v.world.width == e.meta.width as real * e.meta.resolution
      && v.world.y == e.meta.y && v.world.height == e.meta.height as real * e.meta.resolution
    case EstopsShown => v.estops == e.estops
    case RequestShown => v.request == Some(e.request)
  }

  ghost predicate SameField(f: Field, v: View, r: View) {
    match f
    case StatusShown => r.status == v.status
    case MapShown => r.map_ == v.map_
    case WorldShown => r.world == v.world
    case EstopsShown => r.estops == v.estops
    case RequestShown => r.request == v.request
  }

  /** Event k is the last to say something of the field. */
  ghost predicate LastToSay(f: Field, events: seq<Event>, k: nat) {
    k < |events| && Says(f, events[k]) && forall j :: k < j < |events| ==> !Says(f, events[j])
  }

  /** Every field shows what the last event about it said, and what it showed before if there was none. */
  lemma {:induction false} LastIsShown(l: Limits, v: View, events: seq<Event>, f: Field)
    ensures var r := ReplayAll(l, v, events);
            && ((forall j :: 0 <= j < |events| ==> !Says(f, events[j])) ==> SameField(f, v, r))
            && forall k: nat :: LastToSay(f, events, k) ==> Shows(f, r, events[k])
  {
    hide Says, Shows, SameField, Replay;
    if events == [] {
      NothingSaid(f, v);
    } else {
      var n := |events| - 1;
      LastIsShown(l, v, events[..n], f);
      var x := ReplayAll(l, v, events[..n]);
      OneShown(l, x, events[n], f);
      forall k: nat | LastToSay(f, events, k) ensures Shows(f, ReplayAll(l, v, events), events[k]) {
        if k < n {
          assert LastToSay(f, events[..n], k);
          ShownStill(f, x, ReplayAll(l, v, events), events[k]);
        }
      }
      if forall j :: 0 <= j < |events| ==> !Says(f, events[j]) {
        SameStill(f, v, x, ReplayAll(l, v, events));
      }
    }
  }

  lemma NothingSaid(f: Field, v: View)
    ensures SameField(f, v, v)
  {
  }

  lemma OneShown(l: Limits, v: View, e: Event, f: Field)
    ensures if Says(f, e) then Shows(f, Replay(l, v, e), e) else SameField(f, v, Replay(l, v, e))
  {
  }

  lemma ShownStill(f: Field, x: View, r: View, e: Event)
    requires Says(f, e) && Shows(f, x, e) && SameField(f, x, r)
    ensures Shows(f, r, e)
  {
  }

  lemma SameStill(f: Field, v: View, x: View, r: View)
    requires SameField(f, v, x) && SameField(f, x, r)
    ensures SameField(f, v, r)
  {
  }

  // ---------------------------------------------------------------- the robots seen

  /** The robots of all status events, in the order they were reported. */
  ghost function AllSeen(events: seq<Event>): seq<Seen> {
    if events == [] then []
    else
      var before, e := AllSeen(events[..|events| - 1]), events[|events| - 1];
      if e.StatusEvent? then before + e.status.robots else before
  }

  /** x is reported with a usable id among the first n. */
  ghost predicate Reported(seen: seq<Seen>, n: nat, x: Robot) {
    exists k :: 0 <= k < n && k < |seen| && seen[k].valid && seen[k].robot == x
  }

  /** known and then the robots reported, each once, in the order of the first report. */
  ghost predicate InOrderSeen(known: seq<Robot>, seen: seq<Seen>, robots: seq<Robot>) {
    && known <= robots
    && (forall x :: x in robots <==> x in known || Reported(seen, |seen|, x))
    && (forall i, j :: |known| <= i < j < |robots| ==> ReportedFirst(seen, robots[i], robots[j]))
    && (forall i, j :: 0 <= i < j < |robots| && j >= |known| ==> robots[i] != robots[j])
  }

  /** x was reported when y had not been yet. */
  ghost predicate ReportedFirst(seen: seq<Seen>, x: Robot, y: Robot) {
    exists n: nat :: n <= |seen| && Reported(seen, n, x) && !Reported(seen, n, y)
  }

  lemma ReportedOn(seen: seq<Seen>, last: Seen, n: nat, x: Robot)
    ensures n <= |seen| ==> (Reported(seen + [last], n, x) <==> Reported(seen, n, x))
    ensures Reported(seen + [last], |seen| + 1, x) <==> Reported(seen, |seen|, x) || (last.valid && last.robot == x)
  {
    var all := seen + [last];
    assert forall k :: 0 <= k < |seen| ==> all[k] == seen[k];
    assert all[|seen|] == last;
  }

  lemma OneMoreSeen(known: seq<Robot>, seen: seq<Seen>, robots: seq<Robot>, last: Seen)
    requires InOrderSeen(known, seen, robots)
    ensures InOrderSeen(known, seen + [last], if last.valid && last.robot !in robots then robots + [last.robot] else robots)
  {
    hide Reported;
    var more := if last.valid && last.robot !in robots then robots + [last.robot] else robots;
    forall x ensures Reported(seen + [last], |seen + [last]|, x) <==> Reported(seen, |seen|, x) || (last.valid && last.robot == x) {
      ReportedOn(seen, last, |seen|, x);
    }
    forall i, j | |known| <= i < j < |more| ensures ReportedFirst(seen + [last], more[i], more[j]) {
      if j < |robots| {
        var n: nat :| n <= |seen| && Reported(seen, n, robots[i]) && !Reported(seen, n, robots[j]);
        ReportedOn(seen, last, n, robots[i]);
        ReportedOn(seen, last, n, robots[j]);
      } else {
        var x := robots[i];
        assert x in robots;
        ReportedOn(seen, last, |seen|, x);
        ReportedOn(seen, last, |seen|, more[j]);
        NewOfList(known, seen, robots, i);
      }
    }
  }

  lemma NewOfList(known: seq<Robot>, seen: seq<Seen>, robots: seq<Robot>, i: nat)
    requires InOrderSeen(known, seen, robots) && |known| <= i < |robots|
    ensures Reported(seen, |seen|, robots[i])
  {
    hide Reported, ReportedFirst;
    var x := robots[i];
    assert x in robots;
    forall k | 0 <= k < |known| ensures known[k] != x {
      assert robots[k] == known[k];
    }
  }

  lemma {:induction false} NewRobotsSeen(known: seq<Robot>, before: seq<Seen>, robots: seq<Robot>, seen: seq<Seen>)
    requires InOrderSeen(known, before, robots)
    ensures InOrderSeen(known, before + seen, NewRobots(seen, robots))
    decreases seen
  {
    hide InOrderSeen;
    if seen == [] {
      assert before + seen == before;
    } else {
      OneMoreSeen(known, before, robots, seen[0]);
      NewRobotsSeen(known, before + [seen[0]], if seen[0].valid && seen[0].robot !in robots then robots + [seen[0].robot] else robots,
                    seen[1..]);
      assert (before + [seen[0]]) + seen[1..] == before + seen;
    }
  }

  lemma NobodySeen(known: seq<Robot>)
    ensures InOrderSeen(known, [], known)
  {
  }

  /** The robots listed are those known before and all reported with a usable id since, in the order of their first report. */
  lemma {:induction false} RobotsInOrder(l: Limits, v: View, events: seq<Event>)
    ensures InOrderSeen(v.robots, AllSeen(events), ReplayAll(l, v, events).robots)
    ensures forall x :: x in ReplayAll(l, v, events).invalid <==>
              x in v.invalid || exists k :: 0 <= k < |AllSeen(events)| && !AllSeen(events)[k].valid && AllSeen(events)[k].robot == x
  {
    hide InOrderSeen;
    if events == [] {
      NobodySeen(v.robots);
    } else {
      var n := |events| - 1;
      RobotsInOrder(l, v, events[..n]);
      var x := ReplayAll(l, v, events[..n]);
      if events[n].StatusEvent? {
        NewRobotsSeen(v.robots, AllSeen(events[..n]), x.robots, events[n].status.robots);
        InvalidSeen(AllSeen(events[..n]), events[n].status.robots, v.invalid, x.invalid);
      }
    }
  }

  lemma InvalidSeen(before: seq<Seen>, seen: seq<Seen>, start: set<Robot>, invalid: set<Robot>)
    requires forall x :: x in invalid <==> x in start || exists k :: 0 <= k < |before| && !before[k].valid && before[k].robot == x
    ensures forall x :: x in invalid + NewInvalid(seen) <==>
              x in start || exists k :: 0 <= k < |before + seen| && !(before + seen)[k].valid && (before + seen)[k].robot == x
  {
    var all := before + seen;
    forall x ensures x in invalid + NewInvalid(seen) <==> x in start || exists k :: 0 <= k < |all| && !all[k].valid && all[k].robot == x {
      if x in NewInvalid(seen) {
        var k :| 0 <= k < |seen| && !seen[k].valid && seen[k].robot == x;
        assert all[|before| + k] == seen[k];
      }
      if k :| 0 <= k < |before| && !before[k].valid && before[k].robot == x {
        assert all[k] == before[k];
      }
      if k :| 0 <= k < |all| && !all[k].valid && all[k].robot == x {
        assert k < |before| ==> before[k] == all[k];
        assert k >= |before| ==> seen[k - |before|] == all[k];
      }
    }
  }
}
