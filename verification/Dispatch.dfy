/** The four tables of the fleet manager: task records, waiting queue, open calls and robots. */
module Dispatch {
  import opened Options
  import opened TaskLife

  /** An assignment on its way to a robot.  sentAs: number of the service call once it is sent. */
  datatype Call = Call(robot: Robot, commandTime: real, timeoutAt: real, lost: bool, sentAs: Option<int>,
                       unconfirmed: bool, serial: int)

  /** What a robot last said of itself. */
  datatype Report = Report(idle: bool, current: Option<Task>, poseOk: bool)

  datatype Unit = Unit(report: Option<Report>, lastSeen: real, lost: bool, load: nat, inflight: Option<Task>,
                       backoffUntil: real)

  /** sent: the robots each unfinished task was sent to, and when. */
  datatype Tables = Tables(records: map<Task, Record>, queue: set<Task>, inflight: map<Task, Call>,
                           robots: map<Robot, Unit>, sent: map<Task, map<Robot, real>>)

  predicate HasStatus(records: map<Task, Record>, x: Task, s: Status) {
    x in records && records[x].status == s
  }

  /** The queue holds exactly the pending tasks. */
  ghost predicate QueueOk(records: map<Task, Record>, queue: set<Task>) {
    forall x :: x in queue <==> HasStatus(records, x, Pending)
  }

  /** Open calls are for waiting tasks; a call and the robot it is for name each other. */
  ghost predicate CallsOk(queue: set<Task>, inflight: map<Task, Call>, robots: map<Robot, Unit>) {
    && (forall x :: x in inflight ==> NamesBack(queue, inflight, robots, x))
    && (forall r :: r in robots && robots[r].inflight.Some? ==>
          robots[r].inflight.value in inflight && inflight[robots[r].inflight.value].robot == r)
  }

  predicate NamesBack(queue: set<Task>, inflight: map<Task, Call>, robots: map<Robot, Unit>, x: Task)
    requires x in inflight
  {
    x in queue && inflight[x].robot in robots && robots[inflight[x].robot].inflight == Some(x)
  }

  /** Running tasks have an owner, and every robot named by a task is known. */
  ghost predicate OwnersOk(records: map<Task, Record>, robots: map<Robot, Unit>) {
    forall x :: x in records ==>
      && (records[x].pinned.Some? ==> records[x].pinned.value in robots)
      && (records[x].status == InProgress ==> records[x].owner.Some? && records[x].owner.value in robots)
  }

  /** Only tasks that wait or run remember whom they were sent to. */
  ghost predicate SentOk(records: map<Task, Record>, robots: map<Robot, Unit>, sent: map<Task, map<Robot, real>>) {
    forall x :: x in sent ==>
      (HasStatus(records, x, Pending) || HasStatus(records, x, InProgress)) && sent[x].Keys <= robots.Keys
  }

  ghost predicate Ok(t: Tables) {
    && QueueOk(t.records, t.queue) && CallsOk(t.queue, t.inflight, t.robots)
    && OwnersOk(t.records, t.robots) && SentOk(t.records, t.robots, t.sent)
  }

  // ---------------------------------------------------------------- steps on the tables

  /** Takes back the call for a task. */
  function Cleared(t: Tables, x: Task): Tables {
    if x !in t.inflight then t
    else
      var r := t.inflight[x].robot;
      t.(inflight := t.inflight - {x},
         robots := if r in t.robots && t.robots[r].inflight == Some(x) then t.robots[r := t.robots[r].(inflight := None)]
                   else t.robots)
  }

  function Added(t: Tables, x: Task, pin: Option<Robot>): Tables {
    t.(records := t.records[x := Record(Pending, pin, pin, 0, 0, None, None)], queue := t.queue + {x})
  }

  function SentTime(t: Tables, x: Task, r: Robot): Option<real> {
    if x in t.sent && r in t.sent[x] then Some(t.sent[x][r]) else None
  }

  function Started(t: Tables, x: Task, r: Robot, now: real): Tables
    requires x in t.records && r in t.robots
  {
    var rec := t.records[x];
    t.(records := t.records[x := rec.(status := InProgress, owner := Some(r), startTime := Some(now),
                                      commandTime := SentTime(t, x, r), attempts := rec.attempts + 1)],
       queue := t.queue - {x}, robots := t.robots[r := t.robots[r].(load := t.robots[r].load + 1)])
  }

  function Finished(t: Tables, x: Task): Tables
    requires x in t.records
  {
    t.(records := t.records[x := t.records[x].(status := Completed)], sent := t.sent - {x})
  }

  /** The task failed; robot is put down for it if nobody was. */
  function FailedOnce(t: Tables, x: Task, robot: Option<Robot>): Tables
    requires x in t.records
  {
    var c := Cleared(t, x);
    var rec := t.records[x];
    c.(records := t.records[x := rec.(status := Failed, failures := rec.failures + 1,
                                      owner := if rec.owner == None then robot else rec.owner)],
       queue := t.queue - {x}, sent := t.sent - {x})
  }

  /** A failed task waits again for its pinned robot, or for any. */
  function Retried(t: Tables, x: Task): Tables
    requires x in t.records
  {
    var rec := t.records[x];
    t.(records := t.records[x := rec.(status := Pending, owner := rec.pinned, startTime := None, commandTime := None)],
       queue := t.queue + {x})
  }

  function FailedAndRetried(t: Tables, x: Task, robot: Option<Robot>, maxRetries: nat): Tables
    requires x in t.records
  {
    var f := FailedOnce(t, x, robot);
    if f.records[x].failures <= maxRetries then Retried(f, x) else f
  }

  function Called(t: Tables, x: Task, c: Call): Tables
    requires c.robot in t.robots
  {
    t.(inflight := t.inflight[x := c], robots := t.robots[c.robot := t.robots[c.robot].(inflight := Some(x))])
  }

  function Noted(t: Tables, x: Task, r: Robot, at: real): Tables {
    t.(sent := t.sent[x := (if x in t.sent then t.sent[x] else map[])[r := at]])
  }

  /** Changes what is known of a robot, but not its call. */
  function Revised(t: Tables, r: Robot, u: Unit): Tables {
    t.(robots := t.robots[r := u])
  }

  // ---------------------------------------------------------------- every step keeps the tables in order

  lemma ClearedOk(t: Tables, x: Task)
    requires Ok(t)
    ensures Ok(Cleared(t, x)) && x !in Cleared(t, x).inflight
    ensures Cleared(t, x).robots.Keys == t.robots.Keys
    ensures forall r :: r in t.robots ==> Cleared(t, x).robots[r].(inflight := None) == t.robots[r].(inflight := None)
  {
  }

  lemma AddedOk(t: Tables, x: Task, pin: Option<Robot>)
    requires Ok(t) && x !in t.records && (pin.Some? ==> pin.value in t.robots)
    ensures Ok(Added(t, x, pin))
  {
  }

  lemma StartedOk(t: Tables, x: Task, r: Robot, now: real)
    requires Ok(t) && HasStatus(t.records, x, Pending) && x !in t.inflight && r in t.robots
    ensures Ok(Started(t, x, r, now))
  {
    var s := Started(t, x, r, now);
    assert CallsOk(s.queue, s.inflight, s.robots);
    assert OwnersOk(s.records, s.robots);
    assert SentOk(s.records, s.robots, s.sent);
  }

  lemma FinishedOk(t: Tables, x: Task)
    requires Ok(t) && HasStatus(t.records, x, InProgress)
    ensures Ok(Finished(t, x))
  {
  }

  lemma FailedOnceOk(t: Tables, x: Task, robot: Option<Robot>)
    requires Ok(t) && (HasStatus(t.records, x, Pending) || HasStatus(t.records, x, InProgress))
    ensures Ok(FailedOnce(t, x, robot)) && HasStatus(FailedOnce(t, x, robot).records, x, Failed)
  {
    ClearedOk(t, x);
    var f := FailedOnce(t, x, robot);
    assert QueueOk(f.records, f.queue);
    assert OwnersOk(f.records, f.robots);
    assert SentOk(f.records, f.robots, f.sent);
  }

  lemma RetriedOk(t: Tables, x: Task)
    requires Ok(t) && HasStatus(t.records, x, Failed)
    ensures Ok(Retried(t, x))
  {
  }

  lemma CalledOk(t: Tables, x: Task, c: Call)
    requires Ok(t) && x in t.queue && x !in t.inflight && c.robot in t.robots && t.robots[c.robot].inflight == None
    ensures Ok(Called(t, x, c))
  {
    var s := Called(t, x, c);
    assert CallsOk(s.queue, s.inflight, s.robots);
  }

  lemma NotedOk(t: Tables, x: Task, r: Robot, at: real)
    requires Ok(t) && x in t.queue && r in t.robots
    ensures Ok(Noted(t, x, r, at))
  {
  }

  lemma RevisedOk(t: Tables, r: Robot, u: Unit)
    requires Ok(t) && (if r in t.robots then u.inflight == t.robots[r].inflight else u.inflight == None)
    ensures Ok(Revised(t, r, u))
  {
    var s := Revised(t, r, u);
    assert CallsOk(s.queue, s.inflight, s.robots);
  }

  /** An open call replaced by the same call for the same robot. */
  lemma RecalledOk(t: Tables, x: Task, c: Call)
    requires Ok(t) && x in t.inflight && c.robot == t.inflight[x].robot
    ensures Ok(t.(inflight := t.inflight[x := c]))
  {
  }

  // ---------------------------------------------------------------- steps that follow each other

  /** The tables without the task, and with no call for it. */
  ghost function Without(t: Tables, x: Task): Tables {
    Tables(t.records - {x}, t.queue - {x}, t.inflight - {x},
           map r | r in t.robots :: if t.robots[r].inflight == Some(x) then t.robots[r].(inflight := None) else t.robots[r],
           t.sent - {x})
  }

  /** A failed task with a retry left is as good as a new one, but for what is counted. */
  lemma RetriedLikeNew(t: Tables, x: Task, robot: Option<Robot>, maxRetries: nat)
    requires Ok(t) && (HasStatus(t.records, x, Pending) || HasStatus(t.records, x, InProgress))
    requires t.records[x].failures < maxRetries
    ensures var was, added := t.records[x], Added(Without(t, x), x, t.records[x].pinned);
            FailedAndRetried(t, x, robot, maxRetries) ==
            added.(records := added.records[x := added.records[x].(attempts := was.attempts, failures := was.failures + 1)])
  {
    ClearedLikeWithout(t, x);
    hide Ok, Cleared;
    var added, f := Added(Without(t, x), x, t.records[x].pinned), FailedAndRetried(t, x, robot, maxRetries);
    var was := t.records[x];
    assert f.records == added.records[x := added.records[x].(attempts := was.attempts, failures := was.failures + 1)];
    assert f.queue == added.queue;
  }

  /** Without a retry left it is gone from all but the records. */
  lemma FailedForGood(t: Tables, x: Task, robot: Option<Robot>, maxRetries: nat)
    requires Ok(t) && (HasStatus(t.records, x, Pending) || HasStatus(t.records, x, InProgress))
    requires t.records[x].failures >= maxRetries
    ensures var was, f := t.records[x], FailedAndRetried(t, x, robot, maxRetries);
            && f.(records := f.records - {x}) == Without(t, x)
            && f.records[x] == was.(status := Failed, failures := was.failures + 1,
                                    owner := if was.owner.Some? then was.owner else robot)
  {
    ClearedLikeWithout(t, x);
    hide Ok, Cleared;
    var f := FailedAndRetried(t, x, robot, maxRetries);
    assert f.records - {x} == t.records - {x};
  }

  lemma ClearedLikeWithout(t: Tables, x: Task)
    requires Ok(t)
    ensures Cleared(t, x).inflight == t.inflight - {x} && Cleared(t, x).robots == Without(t, x).robots
    ensures Cleared(t, x).records == t.records && Cleared(t, x).queue == t.queue && Cleared(t, x).sent == t.sent
  {
    forall r | r in t.robots ensures Cleared(t, x).robots[r] == Without(t, x).robots[r] {
      if t.robots[r].inflight.Some? {
        assert t.inflight[t.robots[r].inflight.value].robot == r;
      }
    }
  }

  /** A start remembers when the task was last sent to the robot that starts it, whoever else it was sent to. */
  lemma StartRemembers(t: Tables, x: Task, r: Robot, at: real, other: Robot, when: real, now: real)
    requires HasStatus(t.records, x, Pending) && r in t.robots && other != r
    ensures var rec := Started(Noted(Noted(t, x, r, at), x, other, when), x, r, now).records[x];
            rec == Record(InProgress, Some(r), t.records[x].pinned, t.records[x].attempts + 1, t.records[x].failures,
                          Some(now), Some(at))
    ensures Started(t, x, r, now).robots == t.robots[r := t.robots[r].(load := t.robots[r].load + 1)]
    ensures Started(t, x, r, now).queue == t.queue - {x}
  {
  }

  // ---------------------------------------------------------------- the events of the steps

  lemma AddedTold(t: Tables, log: seq<Change>, maxRetries: nat, x: Task, pin: Option<Robot>)
    requires Told(t.records, log, maxRetries) && x !in t.records
    ensures Told(Added(t, x, pin).records, log + [Change(x, Pending, Pending, pin)], maxRetries)
  {
    ToldOn(t.records, log, maxRetries, x, Record(Pending, pin, pin, 0, 0, None, None), Change(x, Pending, Pending, pin));
  }

  lemma StartedTold(t: Tables, log: seq<Change>, maxRetries: nat, x: Task, r: Robot, now: real)
    requires Told(t.records, log, maxRetries) && HasStatus(t.records, x, Pending) && r in t.robots
    ensures Told(Started(t, x, r, now).records, log + [Change(x, Pending, InProgress, Some(r))], maxRetries)
  {
    ToldOn(t.records, log, maxRetries, x, Started(t, x, r, now).records[x], Change(x, Pending, InProgress, Some(r)));
  }

  lemma FinishedTold(t: Tables, log: seq<Change>, maxRetries: nat, x: Task)
    requires Told(t.records, log, maxRetries) && HasStatus(t.records, x, InProgress) && t.records[x].owner.Some?
    ensures Told(Finished(t, x).records, log + [Change(x, InProgress, Completed, t.records[x].owner)], maxRetries)
  {
    ToldOn(t.records, log, maxRetries, x, Finished(t, x).records[x], Change(x, InProgress, Completed, t.records[x].owner));
  }

  /** The events of a failure, and of the retry if one is left. */
  function FailureEvents(t: Tables, x: Task, robot: Option<Robot>, maxRetries: nat): seq<Change>
    requires x in t.records
  {
    var f := FailedOnce(t, x, robot).records[x];
    [Change(x, t.records[x].status, Failed, f.owner)] +
    if f.failures <= maxRetries then [Change(x, Failed, Pending, f.pinned)] else []
  }

  lemma FailedOnceTold(t: Tables, log: seq<Change>, maxRetries: nat, x: Task, robot: Option<Robot>)
    requires Told(t.records, log, maxRetries)
    requires HasStatus(t.records, x, Pending) || (HasStatus(t.records, x, InProgress) && t.records[x].owner.Some?)
    ensures var f := FailedOnce(t, x, robot).records;
            Told(f, log + [Change(x, t.records[x].status, Failed, f[x].owner)], maxRetries)
  {
    var f := FailedOnce(t, x, robot).records[x];
    ToldOn(t.records, log, maxRetries, x, f, Change(x, t.records[x].status, Failed, f.owner));
  }

  lemma RetriedTold(t: Tables, log: seq<Change>, maxRetries: nat, x: Task)
    requires Told(t.records, log, maxRetries) && HasStatus(t.records, x, Failed) && t.records[x].failures <= maxRetries
    ensures Told(Retried(t, x).records, log + [Change(x, Failed, Pending, t.records[x].pinned)], maxRetries)
  {
    ToldOn(t.records, log, maxRetries, x, Retried(t, x).records[x], Change(x, Failed, Pending, t.records[x].pinned));
  }

  // ---------------------------------------------------------------- candidates

  datatype Config = Config(stateTimeout: real, assignTimeout: real, reconcile: real, backoff: real, maxRetries: nat,
                           taskTimeout: real, batchSize: int)

  predicate Busy(records: map<Task, Record>, r: Robot) {
    exists x :: x in records && records[x].status == InProgress && records[x].owner == Some(r)
  }

  /** A robot that is heard of and free to work. */
  predicate Eligible(c: Config, u: Unit, busy: bool, now: real) {
    && u.report.Some? && !u.lost && now - u.lastSeen <= c.stateTimeout
    && u.report.value.idle && u.report.value.current == None && !busy && u.report.value.poseOk
  }

  /** A robot that can be given a task now. */
  predicate CanTake(c: Config, u: Unit, busy: bool, now: real) {
    Eligible(c, u, busy, now) && u.inflight == None && now >= u.backoffUntil
  }

  predicate SameSight(u: Unit, v: Unit) {
    u.report == v.report && u.lastSeen == v.lastSeen
  }

  /** The same robots, with the same reports. */
  ghost predicate SightsKept(a: map<Robot, Unit>, b: map<Robot, Unit>) {
    b.Keys == a.Keys && forall r :: r in a ==> SameSight(b[r], a[r]) && b[r].lost == a[r].lost && b[r].load == a[r].load
  }

  function Candidates(c: Config, t: Tables, now: real): (s: set<Robot>)
    ensures forall r :: r in s <==> r in t.robots && CanTake(c, t.robots[r], Busy(t.records, r), now)
  {
    set r | r in t.robots && CanTake(c, t.robots[r], Busy(t.records, r), now)
  }

  /** A robot that did not take a task is left alone for a while. */
  function BackedOff(c: Config, u: Unit, now: real): Unit {
    u.(inflight := None, backoffUntil := now + c.backoff)
  }

  /** The call for x to r is taken back and r left alone for a while. */
  function Aborted(c: Config, t: Tables, x: Task, r: Robot, now: real): Tables
    requires r in t.robots
  {
    var d := Cleared(t, x);
    Revised(d, r, if r in d.robots then BackedOff(c, d.robots[r], now) else BackedOff(c, t.robots[r], now))
  }

  lemma AbortedOk(c: Config, t: Tables, x: Task, r: Robot, now: real)
    requires Ok(t) && r in t.robots && (x in t.inflight ==> t.inflight[x].robot == r)
    requires t.robots[r].inflight == None || t.robots[r].inflight == Some(x)
    ensures Ok(Aborted(c, t, x, r, now))
    ensures Aborted(c, t, x, r, now).robots == t.robots[r := BackedOff(c, t.robots[r], now)]
  {
    ClearedOk(t, x);
    var d := Cleared(t, x);
    assert d.robots[r].inflight == None;
    hide Cleared;
    RevisedOk(d, r, BackedOff(c, d.robots[r], now));
  }

  /** A call that finds its robot out of reach changes nothing but the time the robot is left alone until. */
  lemma UnreachedCall(c: Config, t: Tables, x: Task, d: Call, now: real)
    requires x !in t.inflight && d.robot in t.robots && t.robots[d.robot].inflight == None
    ensures Aborted(c, Called(t, x, d), x, d.robot, now) ==
              t.(robots := t.robots[d.robot := BackedOff(c, t.robots[d.robot], now)])
  {
    var a := Called(t, x, d);
    assert a.inflight - {x} == t.inflight;
    var b := Cleared(a, x);
    assert b.robots == t.robots;
    assert b == t;
  }
}
