/** The dashboard's state store: every change is one numbered event, and every subscriber reads events without gaps it cannot see. */
module StateStoring {
  import opened EventLog
  import opened Options
  import Sorting

  /** An event with its number. */
  type Item = (Event, int)

  /**
   A subscriber.  queue: what it has not read yet; since: the number of its snapshot; got: what it
   has read; lost: how many events overflow took from it.
   */
  datatype Feed = Feed(queue: seq<Item>, since: nat, got: seq<Item>, lost: nat)

  function Numbered(log: seq<Event>): (s: seq<Item>)
    ensures |s| == |log| && forall i :: 0 <= i < |log| ==> s[i] == (log[i], i + 1)
  {
    seq(|log|, i requires 0 <= i < |log| => (log[i], i + 1))
  }

  /** The items are events of the log under their numbers, in increasing order, after `from` and up to `upTo`. */
  ghost predicate Read(log: seq<Event>, got: seq<Item>, from: nat, upTo: int) {
    && (forall i :: 0 <= i < |got| ==> from < got[i].1 <= upTo && got[i].1 <= |log| && got[i].0 == log[got[i].1 - 1])
    && (forall i, j :: 0 <= i < j < |got| ==> got[i].1 < got[j].1)
  }

  /** The queue is a block of events ending at the newest; read, lost and waiting ones are all since the snapshot. */
  ghost predicate FeedOk(log: seq<Event>, f: Feed, dropped: nat, size: nat) {
    && |f.queue| <= |log| && f.queue == Numbered(log)[|log| - |f.queue|..]
    && f.since + |f.got| + f.lost + |f.queue| == |log|
    && Read(log, f.got, f.since, |log| - |f.queue|)
    && f.lost <= dropped && (size > 0 ==> |f.queue| <= size)
  }

  predicate Full(f: Feed, size: nat) {
    size > 0 && |f.queue| >= size
  }

  /** The reader takes its first k waiting events, or all. */
  function TakeFrom(f: Feed, k: nat): Feed {
    var n := if k <= |f.queue| then k else |f.queue|;
    f.(got := f.got + f.queue[..n], queue := f.queue[n..])
  }

  /** Drops the oldest waiting event, if there is one. */
  function DropOldest(f: Feed): Feed {
    if f.queue == [] then f else f.(queue := f.queue[1..], lost := f.lost + 1)
  }

  /** A full queue loses its oldest event, unless its reader takes `raced` of them first. */
  function Push(f: Feed, item: Item, size: nat, raced: nat): Feed {
    var g := if Full(f, size) then DropOldest(TakeFrom(f, raced)) else f;
    g.(queue := g.queue + [item])
  }

  lemma TakeOk(log: seq<Event>, f: Feed, dropped: nat, size: nat, k: nat)
    requires FeedOk(log, f, dropped, size)
    ensures FeedOk(log, TakeFrom(f, k), dropped, size)
  {
    hide Read;
    var n := if k <= |f.queue| then k else |f.queue|;
    var at := |log| - |f.queue|;
    assert f.queue[..n] == Numbered(log)[at..at + n];
    assert f.queue[n..] == Numbered(log)[at + n..];
    ReadOn(log, f.got, f.since, at, n);
  }

  /** Reading the next n events. */
  lemma ReadOn(log: seq<Event>, got: seq<Item>, from: nat, at: nat, n: nat)
    requires Read(log, got, from, at) && from <= at && at + n <= |log|
    ensures Read(log, got + Numbered(log)[at..at + n], from, at + n)
  {
  }

  lemma DropOk(log: seq<Event>, f: Feed, dropped: nat, size: nat)
    requires FeedOk(log, f, dropped, size)
    ensures FeedOk(log, DropOldest(f), dropped + 1, size)
    ensures !Full(DropOldest(f), size)
  {
  }

  lemma AppendOk(log: seq<Event>, f: Feed, dropped: nat, size: nat, e: Event)
    requires FeedOk(log, f, dropped, size) && !Full(f, size)
    ensures FeedOk(log + [e], f.(queue := f.queue + [(e, |log| + 1)]), dropped, size)
  {
    var l := log + [e];
    var q := f.queue + [(e, |log| + 1)];
    assert forall i :: 0 <= i < |log| ==> Numbered(l)[i] == Numbered(log)[i];
    assert q == Numbered(l)[|l| - |q|..];
    assert forall i :: 0 <= i < |f.got| ==> l[f.got[i].1 - 1] == log[f.got[i].1 - 1];
  }

  lemma PushOk(log: seq<Event>, f: Feed, dropped: nat, size: nat, e: Event, raced: nat)
    requires FeedOk(log, f, dropped, size)
    ensures FeedOk(log + [e], Push(f, (e, |log| + 1), size, raced), if Full(f, size) then dropped + 1 else dropped, size)
  {
    hide FeedOk;
    if Full(f, size) {
      var g := TakeFrom(f, raced);
      TakeOk(log, f, dropped, size, raced);
      DropOk(log, g, dropped, size);
      AppendOk(log, DropOldest(g), dropped + 1, size, e);
    } else {
      AppendOk(log, f, dropped, size, e);
    }
  }

  /** An event is lost exactly if the queue was full and its reader had not emptied it meanwhile; the new one always waits. */
  lemma LostExactly(f: Feed, item: Item, size: nat, raced: nat)
    ensures var g := Push(f, item, size, raced);
            && g.lost == f.lost + (if 0 < size <= |f.queue| && raced < |f.queue| then 1 else 0)
            && g.queue != [] && g.queue[|g.queue| - 1] == item
            && |g.got| == |f.got| + (if 0 < size <= |f.queue| then if raced < |f.queue| then raced else |f.queue| else 0)
  {
  }

  lemma MoreDropped(log: seq<Event>, f: Feed, dropped: nat, more: nat, size: nat)
    requires FeedOk(log, f, dropped, size) && dropped <= more
    ensures FeedOk(log, f, more, size)
  {
  }

  // ---------------------------------------------------------------- what a reader can tell

  /** A reader that lost nothing has read the events since its snapshot one by one. */
  lemma NothingLost(log: seq<Event>, f: Feed, dropped: nat, size: nat)
    requires FeedOk(log, f, dropped, size) && f.lost == 0
    ensures forall i :: 0 <= i < |f.got| ==> f.got[i] == Numbered(log)[f.since + i]
  {
    Climb(log, f.got, f.since, |log| - |f.queue|);
  }

  lemma {:induction false} Climb(log: seq<Event>, got: seq<Item>, from: nat, upTo: int)
    requires Read(log, got, from, upTo)
    ensures forall i :: 0 <= i < |got| ==> from + 1 + i <= got[i].1 <= upTo - (|got| - 1 - i)
  {
    if got != [] {
      var n := |got| - 1;
      assert Read(log, got[..n], from, got[n].1 - 1) by {
        assert forall i :: 0 <= i < n ==> got[i].1 < got[n].1;
      }
      Climb(log, got[..n], from, got[n].1 - 1);
      assert n > 0 ==> from + n <= got[..n][n - 1].1;
    }
  }

  /** A gap in the numbers it reads shows a reader that events were lost, and only that does. */
  lemma GapsShowLosses(log: seq<Event>, f: Feed, dropped: nat, size: nat)
    requires FeedOk(log, f, dropped, size) && f.queue == [] && f.got != []
    requires f.got[|f.got| - 1].1 == |log|
    ensures f.lost > 0 <==> Gap(f.since, f.got)
    ensures f.lost > 0 ==> dropped > 0
  {
    if f.lost == 0 {
      NothingLost(log, f, dropped, size);
    } else if !Gap(f.since, f.got) {
      NoGapCounts(f.since, f.got, |f.got|);
      assert false;
    }
  }

  ghost predicate Gap(since: nat, got: seq<Item>) {
    (got != [] && got[0].1 != since + 1) || exists i :: 0 < i < |got| && GapAt(got, i)
  }

  predicate GapAt(got: seq<Item>, i: int)
    requires 0 < i < |got|
  {
    got[i].1 != got[i - 1].1 + 1
  }

  lemma {:induction false} NoGapCounts(since: nat, got: seq<Item>, n: nat)
    requires !Gap(since, got) && 0 < n <= |got|
    ensures got[n - 1].1 == since + n
  {
    if n > 1 {
      NoGapCounts(since, got, n - 1);
      assert !GapAt(got, n - 1);
    }
  }

  /** What a reader that lost nothing shows: its snapshot with what it has read replayed onto it. */
  lemma ReaderAgrees(l: Limits, start: View, log: seq<Event>, f: Feed, dropped: nat, size: nat)
    requires FeedOk(log, f, dropped, size) && f.lost == 0
    ensures f.since + |f.got| <= |log|
    ensures ReplayAll(l, ReplayAll(l, start, log[..f.since]), EventsOf(f.got)) ==
              ReplayAll(l, start, log[..f.since + |f.got|])
  {
    hide ReplayAll, Read;
    NothingLost(log, f, dropped, size);
    SameEvents(log, f.got, f.since);
    SnapshotPlusEvents(l, start, log, f.since, f.since + |f.got|);
  }

  lemma SameEvents(log: seq<Event>, got: seq<Item>, from: nat)
    requires from + |got| <= |log| && forall i :: 0 <= i < |got| ==> got[i] == Numbered(log)[from + i]
    ensures EventsOf(got) == log[from..from + |got|]
  {
  }

  function EventsOf(items: seq<Item>): seq<Event> {
    seq(|items|, i requires 0 <= i < |items| => items[i].0)
  }

  // ---------------------------------------------------------------- the store

  class StateStore {
    const limits: Limits
    const queueSize: nat
    var status: Option<Status>
    var alerts: seq<Text>
    var taskEvents: seq<TaskEvent>
    var tasks: seq<(Task, TaskEvent)>
    var map_: Option<MapMeta>
    var world: World
    var estops: map<Target, bool>
    var request: Option<Text>
    var robots: seq<Robot>
    var invalid: set<Robot>
    var number: int
    var dropped: nat
    var feeds: map<int, Feed>
    /** The view at the start and all events since. */
    ghost var start: View
    ghost var log: seq<Event>

    function Shown(): View
      reads this
    {
      View(status, alerts, taskEvents, tasks, map_, world, estops, request, robots, invalid)
    }

    ghost predicate FeedsOk()
      reads this`feeds, this`log, this`dropped
    {
      forall id :: id in feeds ==> FeedOk(log, feeds[id], dropped, queueSize)
    }

    /** The store shows what its events say, and every subscriber is served from the same events. */
    ghost predicate Valid()
      reads this
    {
      number == |log| && Shown() == ReplayAll(limits, start, log) && FeedsOk()
    }

    constructor (limits: Limits, queueSize: nat, world: World)
      ensures this.limits == limits && this.queueSize == queueSize && Valid() && feeds == map[] && log == []
      ensures Shown() == View(None, [], [], [], None, world, map[All := false], None, [], {})
    {
      this.limits, this.queueSize := limits, queueSize;
      status, alerts, taskEvents, tasks, map_, this.world := None, [], [], [], None, world;
      estops, request, robots, invalid := map[All := false], None, [], {};
      number, dropped, feeds, log := 0, 0, map[], [];
      start := View(None, [], [], [], None, world, map[All := false], None, [], {});
    }

    /**
     Numbers an event and hands it to every subscriber without ever waiting.  raced: how much a
     reader takes between finding its queue full and making room.
     */
    method Publish(e: Event, raced: int -> nat)
      requires number == |log| && FeedsOk()
      modifies this`number, this`feeds, this`dropped, this`log
      ensures log == old(log) + [e] && number == |log| && FeedsOk()
      ensures feeds.Keys == old(feeds.Keys) && dropped >= old(dropped)
      ensures forall id :: id in feeds ==> feeds[id] == Push(old(feeds)[id], (e, number), queueSize, raced(id))
    {
      hide FeedOk, Push, Full, Served;
      StartServing(log, e, feeds, dropped, queueSize, raced);
      number := number + 1;
      var item := (e, number);
      ghost var before, events, count := feeds, log, dropped;
      var todo := feeds.Keys;
      while todo != {}
        invariant todo <= feeds.Keys == before.Keys && dropped >= count && log == events
        invariant number == |events| + 1
        invariant Served(events, e, before, feeds, todo, dropped, queueSize, raced)
      {
        ghost var some := Sorting.Pick(todo);
        var id :| id in todo;
        ServeNext(events, e, before, feeds, todo, id, dropped, queueSize, raced);
        if Full(feeds[id], queueSize) {
          dropped := dropped + 1;
        }
        feeds := feeds[id := Push(feeds[id], item, queueSize, raced(id))];
        todo := todo - {id};
      }
      AllServed(events, e, before, feeds, dropped, queueSize, raced);
      log := log + [e];
    }

    /** Publishes what the store has just been changed by. */
    method Announce(e: Event, raced: int -> nat)
      requires number == |log| && FeedsOk() && Shown() == Replay(limits, ReplayAll(limits, start, log), e)
      modifies this`number, this`feeds, this`dropped, this`log
      ensures Valid() && log == old(log) + [e]
    {
      hide FeedsOk, ReplayAll, Replay, Push;
      Publish(e, raced);
      LastEvent(limits, start, old(log), e);
    }

    method UpdateStatus(s: Status, raced: int -> nat)
      requires Valid()
      modifies this
      ensures Valid() && log == old(log) + [StatusEvent(s)] && start == old(start)
    {
      hide FeedOk, Push, FeedsOk, ReplayAll, Newest, Touch, NewRobots, NewInvalid;
      status := Some(s);
      robots, invalid := NewRobots(s.robots, robots), invalid + NewInvalid(s.robots);
      Announce(StatusEvent(s), raced);
    }

    method AddAlerts(a: seq<Text>, raced: int -> nat)
      requires Valid()
      modifies this
      ensures Valid() && start == old(start) && log == if a == [] then old(log) else old(log) + [AlertsEvent(a)]
    {
      hide FeedOk, Push, FeedsOk, ReplayAll, Newest, Touch, NewRobots, NewInvalid;
      if a != [] {
        alerts := Newest(alerts + a, limits.maxAlerts);
        Announce(AlertsEvent(a), raced);
      }
    }

    method AddTaskEvent(e: TaskEvent, raced: int -> nat)
      requires Valid()
      modifies this
      ensures Valid() && start == old(start) && log == old(log) + [TaskEventEvent(e)]
    {
      hide FeedOk, Push, FeedsOk, ReplayAll, Newest, Touch, NewRobots, NewInvalid;
      taskEvents := Newest(taskEvents + [e], limits.maxTaskEvents);
      tasks := Touch(tasks, e);
      ForgetOldTasks();
      Announce(TaskEventEvent(e), raced);
    }

    method ForgetOldTasks()
      modifies this`tasks
      ensures tasks == Newest(old(tasks), limits.maxTasks)
    {
      while |tasks| > limits.maxTasks
        invariant Newest(tasks, limits.maxTasks) == Newest(old(tasks), limits.maxTasks)
      {
        tasks := tasks[1..];
      }
    }

    method UpdateMap(m: MapMeta, raced: int -> nat)
      requires Valid()
      modifies this
      ensures Valid() && start == old(start) && log == old(log) + [MapEvent(m)]
    {
      hide FeedOk, Push, FeedsOk, ReplayAll, Newest, Touch, NewRobots, NewInvalid;
      map_ := Some(m);
      if m.width > 0 && m.height > 0 && m.resolution > 0.0 {
        world := World(m.x, m.y, m.width as real * m.resolution, m.height as real * m.resolution);
      }
      Announce(MapEvent(m), raced);
    }

    /**
     Activating stops the target; releasing shows it free unless it is still latched; releasing all
     shows everything free but the latched robots.  The event carries the whole table.
     */
    method SetEstop(target: Target, active: bool, latched: set<Robot>, raced: int -> nat)
      requires Valid()
      modifies this
      ensures Valid() && start == old(start) && log == old(log) + [EstopEvent(estops)]
      ensures estops == EstopTable(old(estops), target, active, latched)
    {
      hide FeedOk, Push, FeedsOk, ReplayAll, Newest, Touch, NewRobots, NewInvalid;
      if active {
        estops := estops[target := true];
      } else if target == All {
        estops := (map k | k in estops :: false) + map r | r in latched :: One(r) := true;
      } else {
        estops := estops[target := target.robot in latched];
      }
      Announce(EstopEvent(estops), raced);
    }

    method RecordTaskRequest(r: Text, raced: int -> nat)
      requires Valid()
      modifies this
      ensures Valid() && start == old(start) && log == old(log) + [RequestEvent(r)]
    {
      hide FeedOk, Push, FeedsOk, ReplayAll, Newest, Touch, NewRobots, NewInvalid;
      request := Some(r);
      Announce(RequestEvent(r), raced);
    }

    method Broadcast(kind: Text, raced: int -> nat)
      requires Valid()
      modifies this
      ensures Valid() && start == old(start) && log == old(log) + [Other(kind)] && Shown() == old(Shown())
    {
      hide FeedOk, Push, FeedsOk, ReplayAll, Newest, Touch, NewRobots, NewInvalid;
      Announce(Other(kind), raced);
    }

    /** A new subscriber with the snapshot it starts from: it will get exactly the events after it. */
    method SubscribeWithSnapshot(id: int) returns (view: View, at: int)
      requires Valid() && id !in feeds
      modifies this`feeds
      ensures Valid() && feeds == old(feeds)[id := Feed([], number, [], 0)]
      ensures at == number == |log| && view == Shown() == ReplayAll(limits, start, log[..at])
    {
      feeds := feeds[id := Feed([], number, [], 0)];
      view, at := Shown(), number;
      assert log[..|log|] == log;
      assert Numbered(log)[|log|..] == [];
    }

    method Unsubscribe(id: int)
      requires Valid()
      modifies this`feeds
      ensures Valid() && feeds == old(feeds) - {id}
    {
      feeds := feeds - {id};
    }

    /** A reader takes waiting events. */
    method Take(id: int, k: nat) returns (items: seq<Item>)
      requires Valid() && id in feeds && k <= |feeds[id].queue|
      modifies this`feeds
      ensures Valid() && items == old(feeds)[id].queue[..k] && feeds == old(feeds)[id := TakeFrom(old(feeds)[id], k)]
    {
      TakeOk(log, feeds[id], dropped, queueSize, k);
      items := feeds[id].queue[..k];
      feeds := feeds[id := TakeFrom(feeds[id], k)];
    }
  }

  function EstopTable(estops: map<Target, bool>, target: Target, active: bool, latched: set<Robot>): map<Target, bool> {
    if active then estops[target := true]
    else if target == All then (map k | k in estops :: false) + map r | r in latched :: One(r) := true
    else estops[target := target.robot in latched]
  }

  /** The table says so of a target. */
  ghost predicate ShownStopped(estops: map<Target, bool>, k: Target) {
    k in estops && estops[k]
  }

  /**
   Stopping shows the target stopped and changes nothing else; releasing the fleet shows exactly the robots
   still latched as stopped; releasing a robot shows it stopped exactly if it is still latched.
   */
  lemma EstopTableMeans(estops: map<Target, bool>, target: Target, active: bool, latched: set<Robot>)
    ensures var m := EstopTable(estops, target, active, latched);
            && estops.Keys <= m.Keys && (active || target.One? ==> m.Keys == estops.Keys + {target})
            && (!active && target == All ==> forall k :: k in m <==> k in estops || (k.One? && k.robot in latched))
            && (active ==> forall k :: ShownStopped(m, k) <==> k == target || ShownStopped(estops, k))
            && (!active && target == All ==> forall k :: ShownStopped(m, k) <==> k.One? && k.robot in latched)
            && (!active && target.One? ==> forall k :: ShownStopped(m, k) <==>
                  if k == target then target.robot in latched else ShownStopped(estops, k))
  {
    var m := EstopTable(estops, target, active, latched);
    if !active && target == All {
      forall k: Target | k.One? && k.robot in latched ensures k in m && m[k] {
        assert k == One(k.robot);
      }
    }
  }

  lemma LastEvent(l: Limits, v: View, log: seq<Event>, e: Event)
    ensures ReplayAll(l, v, log + [e]) == Replay(l, ReplayAll(l, v, log), e)
  {
    assert (log + [e])[..|log|] == log;
  }

  /** All subscribers but those to do have got the event. */
  ghost predicate Served(log: seq<Event>, e: Event, before: map<int, Feed>, feeds: map<int, Feed>, todo: set<int>,
                         dropped: nat, size: nat, raced: int -> nat)
  {
    forall id :: id in feeds ==> ServedOne(log, e, before, feeds, todo, dropped, size, raced, id)
  }

  ghost predicate ServedOne(log: seq<Event>, e: Event, before: map<int, Feed>, feeds: map<int, Feed>, todo: set<int>,
                            dropped: nat, size: nat, raced: int -> nat, id: int)
    requires id in feeds
  {
    id in before &&
    if id in todo then feeds[id] == before[id] && FeedOk(log, feeds[id], dropped, size)
    else feeds[id] == Push(before[id], (e, |log| + 1), size, raced(id)) && FeedOk(log + [e], feeds[id], dropped, size)
  }

  lemma StartServing(log: seq<Event>, e: Event, feeds: map<int, Feed>, dropped: nat, size: nat, raced: int -> nat)
    requires forall id :: id in feeds ==> FeedOk(log, feeds[id], dropped, size)
    ensures Served(log, e, feeds, feeds, feeds.Keys, dropped, size, raced)
  {
  }

  lemma ServeNext(log: seq<Event>, e: Event, before: map<int, Feed>, feeds: map<int, Feed>, todo: set<int>, id: int,
                  dropped: nat, size: nat, raced: int -> nat)
    requires Served(log, e, before, feeds, todo, dropped, size, raced) && id in feeds && id in todo
    ensures Served(log, e, before, feeds[id := Push(feeds[id], (e, |log| + 1), size, raced(id))], todo - {id},
                   if Full(feeds[id], size) then dropped + 1 else dropped, size, raced)
  {
    hide FeedOk, Push, Full;
    var more := if Full(feeds[id], size) then dropped + 1 else dropped;
    assert ServedOne(log, e, before, feeds, todo, dropped, size, raced, id);
    PushOk(log, feeds[id], dropped, size, e, raced(id));
    var next := feeds[id := Push(feeds[id], (e, |log| + 1), size, raced(id))];
    forall x | x in next && x != id
      ensures ServedOne(log, e, before, next, todo - {id}, more, size, raced, x)
    {
      assert ServedOne(log, e, before, feeds, todo, dropped, size, raced, x);
      MoreDropped(if x in todo then log else log + [e], feeds[x], dropped, more, size);
    }
  }

  lemma AllServed(log: seq<Event>, e: Event, before: map<int, Feed>, feeds: map<int, Feed>, dropped: nat, size: nat,
                  raced: int -> nat)
    requires Served(log, e, before, feeds, {}, dropped, size, raced)
    ensures forall id :: id in feeds ==> id in before && FeedOk(log + [e], feeds[id], dropped, size) &&
                                         feeds[id] == Push(before[id], (e, |log| + 1), size, raced(id))
  {
    hide FeedOk, Push;
    forall id | id in feeds
      ensures id in before && FeedOk(log + [e], feeds[id], dropped, size) &&
              feeds[id] == Push(before[id], (e, |log| + 1), size, raced(id))
    {
      assert ServedOne(log, e, before, feeds, {}, dropped, size, raced, id);
    }
  }
}
