/** The fleet manager's handlers: every one keeps the four tables in order and every task's life legal. */
module FleetManaging {
  import opened Calls
  import opened Dispatch
  import opened Options
  import opened Rounds
  import opened TaskLife
  import A = Allocation
  import R = Restarts
  import Sorting

  class FleetManager {
    const cfg: Config
    var records: map<Task, Record>
    var queue: set<Task>
    var inflight: map<Task, Call>
    var robots: map<Robot, Unit>
    var sent: map<Task, map<Robot, real>>
    var allocating: bool
    var again: bool
    var serial: int
    /** All status events so far. */
    ghost var log: seq<Change>

    function Now(): Tables
      reads this
    {
      Tables(records, queue, inflight, robots, sent)
    }

    /** The tables agree with each other, the events so far tell a legal life of every task, and calls have numbers given. */
    ghost predicate Valid()
      reads this
    {
      Ok(Now()) && Told(records, log, cfg.maxRetries) && Numbered(inflight, serial)
    }

    /** Robots out of reach are left alone for a while, or no robot that is free to work is out of reach. */
    ghost predicate Ends(env: Env)
      reads this
    {
      RoundsEnd(cfg, Now(), env)
    }

    constructor (cfg: Config)
      ensures this.cfg == cfg && Valid() && Now() == Tables(map[], {}, map[], map[], map[]) && log == []
      ensures !allocating && !again && serial == 0
    {
      this.cfg := cfg;
      records, queue, inflight, robots, sent := map[], {}, map[], map[], map[];
      allocating, again, serial, log := false, false, 0, [];
    }

    // -------------------------------------------------------------- steps

    method AddRobot(r: Robot)
      requires Valid()
      modifies this`robots
      ensures Valid()
      ensures robots == if r in old(robots) then old(robots) else old(robots)[r := Unit(None, 0.0, false, 0, None, 0.0)]
    {
      if r !in robots {
        ghost var u := Unit(None, 0.0, false, 0, None, 0.0);
        RevisedOk(Now(), r, u);
        robots := robots[r := Unit(None, 0.0, false, 0, None, 0.0)];
      }
    }

    method ClearInflight(x: Task)
      requires Valid()
      modifies this`inflight, this`robots
      ensures Valid() && Now() == Cleared(old(Now()), x)
    {
      ClearedOk(Now(), x);
      if x in inflight {
        var r := inflight[x].robot;
        inflight := inflight - {x};
        if r in robots && robots[r].inflight == Some(x) {
          robots := robots[r := robots[r].(inflight := None)];
        }
      }
    }

    method StartTask(x: Task, r: Robot, now: real)
      requires Valid() && HasStatus(records, x, Pending) && x !in inflight && r in robots
      modifies this`records, this`queue, this`robots, this`log
      ensures Valid() && Now() == Started(old(Now()), x, r, now)
      ensures log == old(log) + [Change(x, Pending, InProgress, Some(r))]
    {
      hide Ok, Told;
      StartedOk(Now(), x, r, now);
      StartedTold(Now(), log, cfg.maxRetries, x, r, now);
      queue := queue - {x};
      var rec := records[x];
      records := records[x := rec.(status := InProgress, owner := Some(r), startTime := Some(now),
                                   commandTime := SentTime(Now(), x, r), attempts := rec.attempts + 1)];
      robots := robots[r := robots[r].(load := robots[r].load + 1)];
      log := log + [Change(x, Pending, InProgress, Some(r))];
    }

    method CompleteTask(x: Task)
      requires Valid() && HasStatus(records, x, InProgress)
      modifies this`records, this`sent, this`log
      ensures Valid() && Now() == Finished(old(Now()), x)
      ensures log == old(log) + [Change(x, InProgress, Completed, old(records[x].owner))]
    {
      FinishedOk(Now(), x);
      FinishedTold(Now(), log, cfg.maxRetries, x);
      log := log + [Change(x, InProgress, Completed, records[x].owner)];
      records := records[x := records[x].(status := Completed)];
      sent := sent - {x};
    }

    method MarkFailed(x: Task, robot: Option<Robot>)
      requires Valid() && (HasStatus(records, x, Pending) || HasStatus(records, x, InProgress))
      modifies this`records, this`queue, this`inflight, this`robots, this`sent, this`log
      ensures Valid() && Now() == FailedOnce(old(Now()), x, robot) && HasStatus(records, x, Failed)
      ensures log == old(log) + [Change(x, old(records[x].status), Failed, records[x].owner)]
    {
      ghost var before, events := Now(), log;
      FailedOnceOk(before, x, robot);
      FailedOnceTold(before, events, cfg.maxRetries, x, robot);
      hide Ok, Told, Cleared;
      ClearInflight(x);
      queue := queue - {x};
      var rec := records[x];
      records := records[x := rec.(status := Failed, failures := rec.failures + 1,
                                   owner := if rec.owner == None then robot else rec.owner)];
      sent := sent - {x};
      log := log + [Change(x, rec.status, Failed, records[x].owner)];
    }

    method Retry(x: Task)
      requires Valid() && HasStatus(records, x, Failed) && records[x].failures <= cfg.maxRetries
      modifies this`records, this`queue, this`log
      ensures Valid() && Now() == Retried(old(Now()), x)
      ensures log == old(log) + [Change(x, Failed, Pending, old(records[x].pinned))]
    {
      RetriedOk(Now(), x);
      RetriedTold(Now(), log, cfg.maxRetries, x);
      var rec := records[x];
      records := records[x := rec.(status := Pending, owner := rec.pinned, startTime := None, commandTime := None)];
      queue := queue + {x};
      log := log + [Change(x, Failed, Pending, rec.pinned)];
    }

    /** A waiting or running task fails, and waits again if it has a retry left. */
    method FailTask(x: Task, robot: Option<Robot>)
      requires Valid() && (HasStatus(records, x, Pending) || HasStatus(records, x, InProgress))
      modifies this`records, this`queue, this`inflight, this`robots, this`sent, this`log
      ensures Valid() && Now() == FailedAndRetried(old(Now()), x, robot, cfg.maxRetries)
      ensures log == old(log) + FailureEvents(old(Now()), x, robot, cfg.maxRetries)
    {
      hide Ok, Told, FailedOnce, Retried, FleetManager.Valid;
      MarkFailed(x, robot);
      ghost var failed := log;
      if records[x].failures <= cfg.maxRetries {
        Retry(x);
      }
    }

    // -------------------------------------------------------------- allocation

    /** Takes back the call, leaves the robot alone for a while and allocates again. */
    method AbortDispatch(x: Task, r: Robot, env: Env)
      requires Valid() && env.Valid() && (!allocating ==> Ends(env)) && r in robots
      requires x in inflight ==> inflight[x].robot == r
      requires robots[r].inflight == None || robots[r].inflight == Some(x)
      modifies this`inflight, this`robots, this`sent, this`allocating, this`again, this`serial
      ensures Valid() && SightsKept(old(robots), robots) && allocating == old(allocating)
      ensures old(allocating) ==> again && Now() == Aborted(cfg, old(Now()), x, r, env.now) && serial == old(serial)
      ensures !old(allocating) ==>
                && !again && RoundFrom(cfg, env, Aborted(cfg, old(Now()), x, r, env.now), Now())
                && OnlyCalls(cfg, env, Aborted(cfg, old(Now()), x, r, env.now), Now(), old(serial)) && serial >= old(serial)
      decreases if allocating then 0 else 2, 5
    {
      hide Ok, Told, RoundsEnd, Passes, OnlyCalls;
      ghost var before := Now();
      AbortedOk(cfg, before, x, r, env.now);
      ClearInflight(x);
      robots := robots[r := BackedOff(cfg, robots[r], env.now)];
      assert Now() == Aborted(cfg, before, x, r, env.now);
      if !allocating {
        RoundsEndKept(cfg, before, Now(), env);
      }
      AllocateRound(env);
    }

    /** One round at a time; a request during a round makes it start over. */
    method AllocateRound(env: Env)
      requires Valid() && env.Valid() && (!allocating ==> Ends(env))
      modifies this`inflight, this`robots, this`sent, this`allocating, this`again, this`serial
      ensures Valid() && SightsKept(old(robots), robots) && allocating == old(allocating)
      ensures old(allocating) ==> again && Now() == old(Now()) && serial == old(serial)
      ensures !old(allocating) ==>
                && !again && RoundFrom(cfg, env, old(Now()), Now())
                && OnlyCalls(cfg, env, old(Now()), Now(), old(serial)) && serial >= old(serial)
      decreases if allocating then 0 else 1, if allocating then 0 else 9
    {
      hide Ok, Told, RoundsEnd, Passes, AsksAgain, IsPlan, IsPass, Candidates, OnlyCalls, Numbered;
      again := true;
      NothingCalled(cfg, env, Now(), serial);
      if !allocating {
        allocating := true;
        ghost var ts, todos := [Now()], [];
        while again
          invariant Valid() && SightsKept(old(robots), robots) && allocating && Ends(env)
          invariant PassesSo(cfg, env, ts, todos, again) && ts[0] == old(Now()) && ts[|todos|] == Now()
          invariant OnlyCalls(cfg, env, old(Now()), Now(), old(serial)) && serial >= old(serial)
          decreases Candidates(cfg, Now(), env.now), again
        {
          ghost var before, number := Now(), serial;
          again := false;
          ghost var todo := AllocateOnce(env);
          CallsJoin(cfg, env, old(Now()), before, Now(), old(serial), number);
          PassShrinks(cfg, env, before, todo, Now());
          RoundsEndKept(cfg, before, Now(), env);
          OneMorePass(cfg, env, ts, todos, todo, Now(), again);
          ts, todos := ts + [Now()], todos + [todo];
        }
        allocating := false;
        RoundDone(cfg, env, ts, todos);
      }
    }

    /** One pass: plans the waiting tasks for the robots that can take one, and calls the robots. */
    method AllocateOnce(env: Env) returns (ghost todo: seq<(Task, Robot)>)
      requires Valid() && env.Valid() && allocating && !again
      modifies this`inflight, this`robots, this`sent, this`allocating, this`again, this`serial
      ensures Valid() && SightsKept(old(robots), robots) && allocating
      ensures IsPlan(cfg, env, old(Now()), todo) && IsPass(cfg, env, old(Now()), todo, Now())
      ensures again <==> AsksAgain(env, todo)
      ensures OnlyCalls(cfg, env, old(Now()), Now(), old(serial)) && serial >= old(serial)
      decreases 0, 8
    {
      hide *;
      var plan := PlanRound(env);
      ghost var before, number := Now(), serial;
      CallAll(plan, env);
      todo := plan;
      PassedOnce(cfg, env, before, plan, number, Now());
    }

    /** Chooses the tasks of the round and who gets them: none if nobody can take one. */
    method PlanRound(env: Env) returns (todo: seq<(Task, Robot)>)
      requires Valid() && env.Valid()
      ensures IsPlan(cfg, env, Now(), todo) && Planned(Now(), Candidates(cfg, Now(), env.now), todo)
      ensures PlansFree(cfg, Now(), env.now, todo)
    {
      hide Ok, Told, A.IsBatch, A.IsRound, A.Follows, Busy, CanTake, Planned, Uncalled, IsPlan, PlansFree;
      var candidates := Candidates(cfg, Now(), env.now);
      var pending := Uncalled(env.order(queue), inflight, records);
      ListsMembers(env.order(queue), queue);
      UncalledMeaning(env.order(queue), queue, inflight, records);
      var infos := Infos(Now(), candidates);
      FreeInfos(Now(), candidates);
      var batch := A.SelectBatch(pending, infos, cfg.batchSize);
      A.BatchDistinct(pending, candidates, A.Limit(cfg.batchSize, candidates), batch);
      var given := A.Allocate(env.strategy, batch, infos, env.dist);
      ghost var pool, plan :| A.Follows(env.strategy, batch, infos, env.dist, pool, plan, given);
      todo := Items(Sorting.Sorted(given.Keys), given);
      TryIsPlan(cfg, env, Now(), todo, R.Try(pending, infos, batch, given, pool, plan));
      PlanIsPlanned(cfg, env, Now(), todo);
      PlannedAreFree(cfg, Now(), env.now, todo);
    }

    /** Calls the planned robots one after the other. */
    method CallAll(todo: seq<(Task, Robot)>, env: Env)
      requires Valid() && env.Valid() && allocating && !again
      requires Planned(Now(), Candidates(cfg, Now(), env.now), todo)
      modifies this`inflight, this`robots, this`sent, this`allocating, this`again, this`serial
      ensures Valid() && SightsKept(old(robots), robots) && allocating
      ensures Now() == Pass(cfg, old(Now()), env, todo, old(serial), |todo|)
      ensures again <==> AsksAgain(env, todo)
      ensures OnlyCalls(cfg, env, old(Now()), Now(), old(serial)) && serial >= old(serial)
      decreases 0, 8, 0
    {
      hide Ok, Told, Candidates, FleetManager.Valid, Env.Valid, Attempt, Unreached, PassState, OnlyCalls, NextNumber;
      ghost var t, number := Now(), serial;
      StartCalls(cfg, t, env.now, todo);
      NothingCalled(cfg, env, t, number);
      for k := 0 to |todo|
        invariant Valid() && SightsKept(t.robots, robots) && allocating
        invariant Now() == Pass(cfg, t, env, todo, number, k) && serial == PassNumber(env, todo, number, k)
        invariant again <==> SomeMissed(env, todo, k)
        invariant OnlyCalls(cfg, env, t, Now(), number) && serial >= number
      {
        ghost var before := serial;
        PassMeaning(cfg, t, env, todo, number, k);
        StillToCall(cfg, t, env, todo, k, Now());
        AttemptCalls(cfg, Now(), env, todo[k].0, todo[k].1, serial);
        CallsJoin(cfg, env, t, Now(), Attempt(cfg, Now(), env, todo[k].0, todo[k].1, serial), number, serial);
        DispatchTask(todo[k].0, todo[k].1, env);
      }
    }

    /** Calls the robot for the task; a call that finds it out of reach is taken back. */
    method DispatchTask(x: Task, r: Robot, env: Env)
      requires Valid() && env.Valid() && allocating && ToCall(Now(), (x, r))
      modifies this`inflight, this`robots, this`sent, this`allocating, this`again, this`serial
      ensures Valid() && SightsKept(old(robots), robots) && allocating
      ensures Now() == Attempt(cfg, old(Now()), env, x, r, old(serial)) && serial == NextNumber(env, x, r, old(serial))
      ensures again <==> old(again) || Unreached(env, x, r)
      decreases 0, 7
    {
      hide Ok, Told, FleetManager.Valid, Attempt, Unreached, NextNumber, Called, Sent, Aborted, SightsKept, Env.Valid;
      AttemptSights(cfg, Now(), env, x, r, serial);
      AttemptCases(cfg, Now(), env, x, r, serial);
      CalledIs(cfg, Now(), env, x, r, serial);
      var delay := env.delay(x);
      var timeoutAt := env.now + (if delay.Some? then delay.value else 0.0) + cfg.assignTimeout;
      var call := Call(r, env.now, timeoutAt, delay == None, None, false, serial);
      Calling(x, call);
      if delay.Some? && !env.latency {
        Send(x, env);
      }
    }

    method Calling(x: Task, c: Call)
      requires Valid() && x in queue && x !in inflight && c.robot in robots && robots[c.robot].inflight == None && c.serial == serial
      modifies this`inflight, this`robots, this`serial
      ensures Valid() && Now() == Called(old(Now()), x, c) && serial == old(serial) + 1
    {
      CalledOk(Now(), x, c);
      inflight := inflight[x := c];
      robots := robots[c.robot := robots[c.robot].(inflight := Some(x))];
      serial := serial + 1;
    }

    /** Sends an open call that is not sent yet, or gives it up if the robot cannot be reached. */
    method Send(x: Task, env: Env)
      requires Valid() && env.Valid() && (!allocating ==> Ends(env))
      modifies this`inflight, this`robots, this`sent, this`allocating, this`again, this`serial
      ensures Valid() && SightsKept(old(robots), robots) && allocating == old(allocating)
      ensures old(x !in inflight || inflight[x].sentAs.Some?) ==>
                Now() == old(Now()) && again == old(again) && serial == old(serial)
      ensures old(x in inflight && inflight[x].sentAs == None) && old(inflight)[x].robot in env.ready ==>
                again == old(again) && Now() == Sent(old(Now()), x, old(serial)) && serial == old(serial) + 1
      ensures old(x in inflight && inflight[x].sentAs == None) && old(inflight)[x].robot !in env.ready ==>
                var aborted := Aborted(cfg, old(Now()), x, old(inflight)[x].robot, env.now);
                if old(allocating) then again && Now() == aborted && serial == old(serial)
                else !again && RoundFrom(cfg, env, aborted, Now())
      decreases if allocating then 0 else 2, 6
    {
      hide Ok, Told, RoundsEnd, RoundFrom;
      CallKnown(Now(), x);
      if x !in inflight || inflight[x].sentAs.Some? {
        return;
      }
      var d := inflight[x];
      if d.robot !in env.ready {
        AbortDispatch(x, d.robot, env);
        return;
      }
      SendNow(x);
    }

    method SendNow(x: Task)
      requires Valid() && x in inflight
      modifies this`inflight, this`sent, this`serial
      ensures Valid() && Now() == Sent(old(Now()), x, old(serial)) && serial == old(serial) + 1
    {
      var d := inflight[x];
      CallKnown(Now(), x);
      NotedOk(Now(), x, d.robot, d.commandTime);
      sent := sent[x := (if x in sent then sent[x] else map[])[d.robot := d.commandTime]];
      RecalledOk(Now(), x, d.(sentAs := Some(serial)));
      inflight := inflight[x := d.(sentAs := Some(serial))];
      serial := serial + 1;
    }

    // -------------------------------------------------------------- new tasks and robots' reports

    /** Takes in a task with a new id, for a known robot if it names one. */
    method Admit(x: Task, pin: Option<Robot>) returns (ok: bool)
      requires Valid()
      modifies this`records, this`queue, this`log
      ensures Valid() && (ok <==> x !in old(records) && (pin.Some? ==> pin.value in robots))
      ensures Now() == if ok then Added(old(Now()), x, pin) else old(Now())
      ensures log == if ok then old(log) + [Change(x, Pending, Pending, pin)] else old(log)
    {
      ok := x !in records && (pin.Some? ==> pin.value in robots);
      if ok {
        AddedOk(Now(), x, pin);
        AddedTold(Now(), log, cfg.maxRetries, x, pin);
        records := records[x := Record(Pending, pin, pin, 0, 0, None, None)];
        queue := queue + {x};
        log := log + [Change(x, Pending, Pending, pin)];
      }
    }

    /** Takes in a task and allocates at once; tells the robot it was called for, if any. */
    method OnAssignTaskService(x: Task, pin: Option<Robot>, env: Env) returns (ok: bool, robot: Option<Robot>)
      requires Valid() && env.Valid() && Ends(env) && !allocating
      modifies this
      ensures Valid() && !allocating && (ok <==> x !in old(records) && (pin.Some? ==> pin.value in old(robots)))
      ensures if ok then RoundFrom(cfg, env, Added(old(Now()), x, pin), Now()) && log == old(log) + [Change(x, Pending, Pending, pin)]
              else Now() == old(Now()) && log == old(log) && robot == None
      ensures ok ==> HasStatus(records, x, Pending) && robot == (if x in inflight then Some(inflight[x].robot) else pin)
    {
      hide RoundsEnd;
      ghost var before := Now();
      ok := Admit(x, pin);
      robot := None;
      if ok {
        AddedEnds(cfg, before, x, pin, env);
        AllocateRound(env);
        robot := if x in inflight then Some(inflight[x].robot) else pin;
      }
    }

    /** The called robot says it runs the task. */
    method ConfirmDispatch(x: Task, r: Robot, now: real)
      requires Valid() && x in inflight && inflight[x].robot == r
      modifies this`records, this`queue, this`inflight, this`robots, this`log
      ensures Valid() && Now() == Started(Cleared(old(Now()), x), x, r, now)
      ensures log == old(log) + [Change(x, Pending, InProgress, Some(r))]
    {
      CallKnown(Now(), x);
      assert HasStatus(records, x, Pending);
      ClearInflight(x);
      StartTask(x, r, now);
    }

    function ActiveTask(r: Robot): bool
      reads this
    {
      Busy(records, r)
    }

    /**
     A robot says it runs a task.  Only the robot the task is called for, or, if it is not called,
     an idle robot it was sent to before (or is pinned to, if that is allowed) starts it; anything
     else changes nothing.
     */
    method OnRobotStarted(x: Task, r: Robot, now: real, allowPinned: bool)
      requires Valid() && r in robots
      modifies this`records, this`queue, this`inflight, this`robots, this`log
      ensures Valid()
      ensures if MayStart(old(Now()), x, r, allowPinned)
              then Now() == Started(Cleared(old(Now()), x), x, r, now) &&
                   log == old(log) + [Change(x, Pending, InProgress, Some(r))]
              else Now() == old(Now()) && log == old(log)
      ensures old(x !in inflight) && (exists y :: RunBy(old(Now()), y, r)) ==> Now() == old(Now()) && log == old(log)
    {
      BusyRuns(Now(), r);
      if !HasStatus(records, x, Pending) {
        return;
      }
      if x in inflight {
        if inflight[x].robot == r {
          ConfirmDispatch(x, r, now);
        }
        return;
      }
      var known := (x in sent && r in sent[x]) || (allowPinned && records[x].pinned == Some(r));
      if known && !ActiveTask(r) {
        StartTask(x, r, now);
      }
    }

    /** A robot's periodic state: takes it over, and starts the task it says it has if that is due. */
    method OnRobotState(r: Robot, report: Report, now: real)
      requires Valid() && r in robots
      modifies this`records, this`queue, this`inflight, this`robots, this`log
      ensures Valid()
      ensures var seen := Revised(old(Now()), r, old(robots[r]).(report := Some(report), lastSeen := now, lost := false));
              if report.current.Some? && MayStart(seen, report.current.value, r, false)
              then Now() == Started(Cleared(seen, report.current.value), report.current.value, r, now) &&
                   log == old(log) + [Change(report.current.value, Pending, InProgress, Some(r))]
              else Now() == seen && log == old(log)
    {
      ghost var u := robots[r].(report := Some(report), lastSeen := now, lost := false);
      RevisedOk(Now(), r, u);
      robots := robots[r := robots[r].(report := Some(report), lastSeen := now, lost := false)];
      if report.current.Some? {
        Reconcile(r, report.current.value, now);
      }
    }

    method Reconcile(r: Robot, x: Task, now: real)
      requires Valid() && r in robots
      modifies this`records, this`queue, this`inflight, this`robots, this`log
      ensures Valid()
      ensures if MayStart(old(Now()), x, r, false)
              then Now() == Started(Cleared(old(Now()), x), x, r, now) &&
                   log == old(log) + [Change(x, Pending, InProgress, Some(r))]
              else Now() == old(Now()) && log == old(log)
    {
      CallOfRobot(Now(), r, x);
      if robots[r].inflight == Some(x) {
        ConfirmDispatch(x, r, now);
        return;
      }
      if HasStatus(records, x, Pending) && x !in inflight && x in sent && r in sent[x] && !ActiveTask(r) {
        StartTask(x, r, now);
      }
    }

    /** A robot reports the status of a task; only reports about its own tasks count. */
    method OnTaskStatus(r: Robot, x: Task, status: Status, now: real)
      requires Valid() && r in robots
      modifies this`records, this`queue, this`inflight, this`robots, this`sent, this`log
      ensures Valid()
      ensures status == Completed ==>
                if RunBy(old(Now()), x, r)
                then Now() == Finished(old(Now()), x) && log == old(log) + [Change(x, InProgress, Completed, Some(r))]
                else Now() == old(Now()) && log == old(log)
      ensures status == Failed ==>
                if RunBy(old(Now()), x, r) || CalledFor(old(Now()), x, r)
                then Now() == FailedAndRetried(old(Now()), x, Some(r), cfg.maxRetries) &&
                     log == old(log) + FailureEvents(old(Now()), x, Some(r), cfg.maxRetries)
                else Now() == old(Now()) && log == old(log)
      ensures status == InProgress ==>
                if MayStart(old(Now()), x, r, true)
                then Now() == Started(Cleared(old(Now()), x), x, r, now) &&
                     log == old(log) + [Change(x, Pending, InProgress, Some(r))]
                else Now() == old(Now()) && log == old(log)
      ensures status == Pending ==> Now() == old(Now()) && log == old(log)
    {
      if x !in records {
        return;
      }
      match status {
        case InProgress => OnRobotStarted(x, r, now, true);
        case Completed =>
          if records[x].status == InProgress && records[x].owner == Some(r) {
            CompleteTask(x);
          }
        case Failed =>
          if records[x].status == InProgress && records[x].owner == Some(r) {
            FailTask(x, Some(r));
          } else if records[x].status == Pending && x in inflight && inflight[x].robot == r {
            FailTask(x, Some(r));
          }
        case Pending =>
      }
    }

    // -------------------------------------------------------------- responses and timeouts

    /** The response to call number call of task x to robot r: accepted, or refused or broken. */
    method OnAssignResponse(x: Task, r: Robot, call: int, accepted: bool, env: Env)
      requires Valid() && env.Valid() && Ends(env) && !allocating && r in robots
      requires x in inflight && inflight[x].sentAs == Some(call) ==> inflight[x].robot == r
      modifies this
      ensures Valid() && !allocating
      ensures var current := x in old(inflight) && old(inflight)[x].sentAs == Some(call);
              && (current && accepted ==> Now() == Started(Cleared(old(Now()), x), x, r, env.now))
              && (current && !accepted ==>
                    RoundFrom(cfg, env, Aborted(cfg, Cleared(old(Now()), x), x, r, env.now), Now()) &&
                    records == old(records) && log == old(log))
              && (!current ==> Now() == if accepted && MayStart(old(Now()), x, r, false)
                                        then Started(Cleared(old(Now()), x), x, r, env.now) else old(Now()))
    {
      CallKnown(Now(), x);
      if x !in inflight || inflight[x].sentAs != Some(call) {
        if accepted {
          OnRobotStarted(x, r, env.now, false);
        }
        return;
      }
      if accepted {
        ConfirmDispatch(x, r, env.now);
      } else {
        ClearInflight(x);
        AbortDispatch(x, r, env);
      }
    }

    /**
     Goes through the open calls: lost ones are given up, unanswered ones held until the robot's state
     decides; the others stay.
     */
    method CheckDispatchTimeouts(env: Env)
      requires Valid() && env.Valid() && Ends(env) && !allocating
      modifies this`inflight, this`robots, this`sent, this`allocating, this`again, this`serial
      ensures Valid() && !allocating && SightsKept(old(robots), robots) && Ends(env)
      ensures AllChecked(cfg, env, old(Now()), Now(), old(serial))
    {
      hide Ok, Told, FleetManager.Valid, Env.Valid, RoundsEnd, SightsKept, RoundFrom, Aborted, CheckedOne, Checked,
        Sorting.StrictlySorted, AllChecked, Numbered;
      var calls := inflight;
      ghost var t, n := Now(), serial;
      SightsSame(robots);
      var order := Sorting.Sorted(calls.Keys);
      NoneChecked(cfg, env, t, n);
      Sorting.Whole(order);
      for k := 0 to |order|
        invariant Valid() && !allocating && SightsKept(t.robots, robots) && Ends(env) && records == t.records
        invariant Checked(cfg, env, t, Now(), n, order[..k]) && serial >= n
      {
        Sorting.OneMore(order, k);
        Sorting.NextIsNew(order, k);
        ghost var before, number := Now(), serial;
        StillThere(cfg, env, t, before, n, order[..k], order[k]);
        ValidTables(this);
        CheckTimeout(order[k], calls[order[k]].serial, env);
        SightsJoin(t.robots, before.robots, robots);
        RoundsEndKept(cfg, before, Now(), env);
        OneChecked(cfg, env, t, before, Now(), n, number, order[..k], order[k]);
      }
      CheckEnds(cfg, env, t, Now(), n, order);
    }

    /** Checks the call for x if it is still the one with the number. */
    method CheckTimeout(x: Task, number: int, env: Env)
      requires Valid() && env.Valid() && Ends(env) && !allocating
      modifies this`inflight, this`robots, this`sent, this`allocating, this`again, this`serial
      ensures Valid() && !allocating && SightsKept(old(robots), robots) && serial >= old(serial) && records == old(records)
      ensures old(x !in inflight || inflight[x].serial != number) ==> Now() == old(Now())
      ensures old(x in inflight && inflight[x].serial == number) ==> CheckedOne(cfg, env, old(Now()), Now(), old(serial), x)
      ensures old(x in inflight && inflight[x].serial == number) && GivenUp(cfg, env, old(Now()), x) ==>
                RoundFrom(cfg, env, Aborted(cfg, old(Now()), x, old(inflight)[x].robot, env.now), Now())
    {
      hide Ok, Told, RoundsEnd, RoundFrom, Aborted, OnlyCalls, Env.Valid;
      CallKnown(Now(), x);
      if x !in inflight || inflight[x].serial != number || env.now <= inflight[x].timeoutAt {
        return;
      }
      var d := inflight[x];
      if d.sentAs == None {
        GiveUp(x, env);
      } else if d.sentAs.value !in env.done {
        if !d.unconfirmed {
          RecalledOk(Now(), x, d.(unconfirmed := true));
          inflight := inflight[x := d.(unconfirmed := true)];
        } else {
          var u := robots[d.robot];
          if u.report.Some? && u.lastSeen >= d.timeoutAt + cfg.reconcile && u.report.value.current != Some(x) {
            GiveUp(x, env);
          }
        }
      }
    }

    /** Gives up the open call for x. */
    method GiveUp(x: Task, env: Env)
      requires Valid() && env.Valid() && Ends(env) && !allocating && x in inflight
      modifies this`inflight, this`robots, this`sent, this`allocating, this`again, this`serial
      ensures Valid() && !allocating && SightsKept(old(robots), robots) && serial >= old(serial) && records == old(records)
      ensures var aborted := Aborted(cfg, old(Now()), x, old(inflight)[x].robot, env.now);
              RoundFrom(cfg, env, aborted, Now()) && OnlyCalls(cfg, env, aborted, Now(), old(serial))
    {
      hide Ok, Told, RoundsEnd, RoundFrom, Aborted, Env.Valid, Numbered;
      CallKnown(Now(), x);
      ghost var r := inflight[x].robot;
      AbortDispatch(x, inflight[x].robot, env);
    }

    /** Checks the open calls, and allocates unless a window for collecting tasks is open. */
    method OnAllocationTimer(windowOpen: bool, env: Env)
      requires Valid() && env.Valid() && Ends(env) && !allocating
      modifies this`inflight, this`robots, this`sent, this`allocating, this`again, this`serial
      ensures Valid() && !allocating && SightsKept(old(robots), robots)
      ensures exists mid :: AllChecked(cfg, env, old(Now()), mid, old(serial)) &&
                            if windowOpen then Now() == mid else RoundFrom(cfg, env, mid, Now())
    {
      hide AllChecked, RoundFrom, OnlyCalls, RoundsEnd, Ok, Told, Env.Valid, Numbered;
      CheckDispatchTimeouts(env);
      ghost var mid := Now();
      if !windowOpen {
        AllocateRound(env);
      }
      SightsJoin(old(robots), mid.robots, robots);
    }

    /** A task that the robot runs, if any. */
    method ActiveTaskOf(r: Robot) returns (x: Option<Task>)
      ensures x.Some? ==> RunBy(Now(), x.value, r)
      ensures x == None ==> !Busy(records, r)
    {
      hide Busy, RunBy;
      ghost var t := Now();
      var order := Sorting.Sorted(records.Keys);
      for k := 0 to |order|
        invariant forall j :: 0 <= j < k ==> !RunBy(t, order[j], r)
      {
        RunByIs(t, order[k], r);
        if HasStatus(records, order[k], InProgress) && records[order[k]].owner == Some(r) {
          return Some(order[k]);
        }
      }
      NotBusy(t, order, r);
      x := None;
    }

    /** A silent robot is lost: its call is given up, and a task it runs fails. */
    method LoseIfSilent(r: Robot, env: Env)
      requires Valid() && env.Valid() && Ends(env) && !allocating && r in robots
      modifies this
      ensures Valid() && !allocating && Ends(env) && robots.Keys == old(robots.Keys) && LeftAlone(old(robots), robots, {r})
      ensures robots[r].lost <==> old(robots)[r].lost || Silent(cfg, old(robots), r, env.now)
      ensures if NewlySilent(cfg, old(robots), r, env.now)
              then robots[r].inflight == None && Bereaved(cfg, old(Now()), Now(), r) else Now() == old(Now())
    {
      hide Ok, Told, Candidates, FailedAndRetried, FailureEvents, Aborted, FleetManager.Valid, Env.Valid, RoundsEnd, RoundFrom;
      if robots[r].report == None || robots[r].lost || env.now - robots[r].lastSeen <= cfg.stateTimeout {
        LeftAloneSame(robots, {r});
        return;
      }
      ghost var before := Now();
      MarkLost(r);
      ghost var marked := Now();
      LostEnds(cfg, before, r, env);
      var active := ActiveTaskOf(r);
      GiveUpCall(r, env);
      ghost var given := Now();
      FailActive(active, r, env);
      Silenced(cfg, before, marked, given, Now(), r, active);
    }

    /** Gives up the call of a lost robot, if it has one. */
    method GiveUpCall(r: Robot, env: Env)
      requires Valid() && env.Valid() && Ends(env) && !allocating && r in robots && robots[r].lost
      modifies this`inflight, this`robots, this`sent, this`allocating, this`again, this`serial
      ensures Valid() && !allocating && Ends(env) && SightsKept(old(robots), robots)
      ensures robots[r].inflight == None && IdleLostStay(old(robots), robots)
    {
      hide Ok, Told, RoundsEnd, Aborted, RoundFrom, Env.Valid;
      ghost var t := Now();
      if robots[r].inflight.Some? {
        var x := robots[r].inflight.value;
        CallGivenUp(cfg, env, t, x, r);
        AbortDispatch(x, r, env);
        RoundKeeps(cfg, env, Aborted(cfg, t, x, r, env.now), Now());
        RoundsEndKept(cfg, t, Now(), env);
      }
    }

    method FailActive(active: Option<Task>, r: Robot, env: Env)
      requires Valid() && Ends(env) && !allocating && r in robots && robots[r].lost && robots[r].inflight == None
      requires active.Some? ==> RunBy(Now(), active.value, r)
      modifies this`records, this`queue, this`inflight, this`robots, this`sent, this`log
      ensures Valid() && Ends(env) && SightsKept(old(robots), robots) && IdleLostStay(old(robots), robots)
      ensures if active.Some? then FailedAlone(cfg, old(records), records, active.value) else records == old(records)
    {
      hide Ok, Told, RoundsEnd, FailedAndRetried, FailureEvents, FleetManager.Valid, Busy;
      ghost var t := Now();
      if active.Some? {
        FailureKeeps(t, active.value, Some(r), cfg.maxRetries);
        FailedAloneOf(cfg, t, active.value, Some(r));
        FailTask(active.value, Some(r));
        FailureEnds(cfg, t, active.value, r, env);
      }
    }

    method MarkLost(r: Robot)
      requires Valid() && r in robots
      modifies this`robots
      ensures Valid() && robots == old(robots)[r := old(robots)[r].(lost := true)]
    {
      RevisedOk(Now(), r, robots[r].(lost := true));
      robots := robots[r := robots[r].(lost := true)];
    }

    /** Robots that have been silent too long are lost: their calls are given up and a task they ran fails. */
    method CheckLiveness(env: Env)
      requires Valid() && env.Valid() && Ends(env) && !allocating
      modifies this
      ensures Valid() && !allocating && AllSwept(cfg, old(Now()), Now(), env.now)
    {
      hide Ok, Told, FleetManager.Valid, Env.Valid, RoundsEnd, Swept, AllSwept, LeftAlone, Bereaved, Silent, NewlySilent, Busy,
        Sorting.StrictlySorted;
      var order := Sorting.Sorted(robots.Keys);
      ghost var start := Now();
      SweepStart(cfg, start, env.now);
      Sorting.Whole(order);
      for k := 0 to |order|
        invariant Valid() && !allocating && Ends(env) && robots.Keys == start.robots.Keys
        invariant Swept(cfg, start, Now(), order[..k], env.now)
      {
        Sorting.OneMore(order, k);
        Sorting.NextIsNew(order, k);
        ghost var before := Now();
        LoseIfSilent(order[k], env);
        SweepOn(cfg, start, before, Now(), order[..k], order[k], env.now);
      }
      SweepEnd(cfg, start, Now(), order, env.now);
    }

    /** Once a second: silent robots are lost, and tasks that run for too long fail. */
    method OnStatusTimer(env: Env)
      requires Valid() && env.Valid() && Ends(env) && !allocating
      modifies this
      ensures Valid() && !allocating
      ensures exists mid: Tables :: AllSwept(cfg, old(Now()), mid, env.now) &&
                if cfg.taskTimeout > 0.0 then TimedOut(cfg, mid, Now(), env.now) else Now() == mid
    {
      CheckLiveness(env);
      ghost var mid := Now();
      if cfg.taskTimeout > 0.0 {
        FailOverdue(env.now);
      }
    }

    method FailOverdue(now: real)
      requires Valid()
      modifies this`records, this`queue, this`inflight, this`robots, this`sent, this`log
      ensures Valid() && TimedOut(cfg, old(Now()), Now(), now)
    {
      hide Ok, Told, FleetManager.Valid, TimedOutIn, TimedOut, Overdue, FailedAlone, FailedFrom, FailureEvents, Sorting.StrictlySorted;
      var order := Sorting.Sorted(records.Keys);
      ghost var start := Now();
      NothingChecked(cfg, start, now);
      Sorting.Whole(order);
      for k := 0 to |order|
        invariant Valid() && records.Keys == start.records.Keys
        invariant TimedOutIn(cfg, start, Now(), order[..k], now)
      {
        Sorting.OneMore(order, k);
        Sorting.NextIsNew(order, k);
        ghost var before := Now();
        FailIfOverdue(order[k], now);
        TimedOutOn(cfg, start, before, Now(), order[..k], order[k], now);
      }
      AllTimedOut(cfg, start, Now(), order, now);
    }

    method FailIfOverdue(x: Task, now: real)
      requires Valid() && x in records
      modifies this`records, this`queue, this`inflight, this`robots, this`sent, this`log
      ensures Valid() && robots == old(robots) && inflight == old(inflight)
      ensures if Overdue(cfg, old(records), x, now) then FailedAlone(cfg, old(records), records, x) else records == old(records)
      ensures log == if Overdue(cfg, old(records), x, now)
                     then old(log) + FailureEvents(old(Now()), x, old(records)[x].owner, cfg.maxRetries) else old(log)
    {
      hide Ok, Told, FailedAndRetried, FailureEvents, FleetManager.Valid;
      if Overdue(cfg, records, x, now) {
        ValidTables(this);
        FailureOfRunning(Now(), x, records[x].owner, cfg.maxRetries);
        FailedAloneOf(cfg, Now(), x, records[x].owner);
        FailTask(x, records[x].owner);
      }
    }
  }

  lemma StillThere(c: Config, env: Env, t: Tables, u: Tables, n: int, done: seq<Task>, x: Task)
    requires Checked(c, env, t, u, n, done) && x in t.inflight && x !in done
    ensures x in u.inflight && u.inflight[x] == t.inflight[x]
  {
  }

  lemma ValidTables(m: FleetManager)
    requires m.Valid()
    ensures Ok(m.Now())
  {
  }

  /** The task has been running for too long. */
  predicate Overdue(c: Config, records: map<Task, Record>, x: Task, now: real) {
    HasStatus(records, x, InProgress) && records[x].startTime.Some? && now - records[x].startTime.value > c.taskTimeout
  }

  /** Of the tasks of the list exactly those that ran too long have failed; no call and no robot is touched. */
  ghost predicate TimedOutIn(c: Config, a: Tables, b: Tables, order: seq<Task>, now: real) {
    && b.records.Keys == a.records.Keys && b.robots == a.robots && b.inflight == a.inflight
    && forall x :: x in a.records ==>
         if x in order && Overdue(c, a.records, x, now) then FailedFrom(c, a.records, b.records, x)
         else b.records[x] == a.records[x]
  }

  /** Exactly the tasks that have been running for longer than the timeout have failed. */
  ghost predicate TimedOut(c: Config, a: Tables, b: Tables, now: real) {
    && b.records.Keys == a.records.Keys && b.robots == a.robots && b.inflight == a.inflight
    && forall x :: x in a.records ==>
         var r := a.records[x];
         if r.status == InProgress && r.startTime.Some? && r.startTime.value < now - c.taskTimeout
         then FailedFrom(c, a.records, b.records, x) else b.records[x] == r
  }

  lemma NothingChecked(c: Config, t: Tables, now: real)
    ensures TimedOutIn(c, t, t, [], now)
  {
  }

  lemma TimedOutOn(c: Config, start: Tables, a: Tables, b: Tables, order: seq<Task>, x: Task, now: real)
    requires TimedOutIn(c, start, a, order, now) && x in start.records && x !in order
    requires b.robots == a.robots && b.inflight == a.inflight
    requires if Overdue(c, a.records, x, now) then FailedAlone(c, a.records, b.records, x) else b.records == a.records
    ensures TimedOutIn(c, start, b, order + [x], now)
  {
    assert a.records[x] == start.records[x];
  }

  lemma AllTimedOut(c: Config, a: Tables, b: Tables, order: seq<Task>, now: real)
    requires TimedOutIn(c, a, b, order, now) && forall x :: x in a.records ==> x in order
    ensures TimedOut(c, a, b, now)
  {
  }

  /** A running task has no call: its failure touches neither calls nor robots. */
  lemma FailureOfRunning(t: Tables, x: Task, robot: Option<Robot>, maxRetries: nat)
    requires Ok(t) && HasStatus(t.records, x, InProgress)
    ensures var f := FailedAndRetried(t, x, robot, maxRetries);
            f.robots == t.robots && f.inflight == t.inflight
  {
    assert x !in t.inflight;
  }

  predicate RunBy(t: Tables, x: Task, r: Robot) {
    HasStatus(t.records, x, InProgress) && t.records[x].owner == Some(r)
  }

  predicate CalledFor(t: Tables, x: Task, r: Robot) {
    HasStatus(t.records, x, Pending) && x in t.inflight && t.inflight[x].robot == r
  }

  /** The waiting task may start on r: it is called for r, or uncalled, known to r, and r runs nothing. */
  predicate MayStart(t: Tables, x: Task, r: Robot, allowPinned: bool) {
    HasStatus(t.records, x, Pending) &&
    if x in t.inflight then t.inflight[x].robot == r
    else ((x in t.sent && r in t.sent[x]) || (allowPinned && t.records[x].pinned == Some(r))) && !Busy(t.records, r)
  }

  /**
   A waiting task may start on r exactly if it is called for r; or if nobody is called for it, r was sent it
   before (or it is pinned to r, where that counts), and r runs no task.
   */
  lemma StartsExactly(t: Tables, x: Task, r: Robot, allowPinned: bool)
    ensures MayStart(t, x, r, allowPinned) <==>
              || CalledFor(t, x, r)
              || (HasStatus(t.records, x, Pending) && x !in t.inflight && (forall y :: !RunBy(t, y, r)) &&
                  ((x in t.sent && r in t.sent[x]) || (allowPinned && t.records[x].pinned == Some(r))))
  {
    hide Busy;
    BusyRuns(t, r);
  }

  /** The robot was heard of lately, is idle without a task of its own or of the manager, and knows where it is. */
  ghost predicate FreeToWork(c: Config, t: Tables, r: Robot, now: real) {
    && r in t.robots && !t.robots[r].lost && t.robots[r].lastSeen + c.stateTimeout >= now
    && t.robots[r].report.Some? && t.robots[r].report.value.idle && t.robots[r].report.value.poseOk
    && t.robots[r].report.value.current == None && forall y :: !RunBy(t, y, r)
  }

  /** The candidates are exactly the robots free to work that are not called and not left alone. */
  lemma CandidatesExactly(c: Config, t: Tables, now: real, r: Robot)
    ensures r in Candidates(c, t, now) <==>
              FreeToWork(c, t, r, now) && t.robots[r].inflight == None && t.robots[r].backoffUntil <= now
  {
    hide Busy;
    BusyRuns(t, r);
  }

  /** A robot whose call is given up is a candidate again exactly when the backoff is over and it is free to work. */
  lemma LeftAloneExactly(c: Config, t: Tables, x: Task, r: Robot, now: real, later: real)
    requires Ok(t) && x in t.inflight && t.inflight[x].robot == r
    ensures r in t.robots
    ensures r in Candidates(c, Aborted(c, t, x, r, now), later) <==> FreeToWork(c, t, r, later) && later - now >= c.backoff
  {
    AbortedOk(c, t, x, r, now);
    var a := Aborted(c, t, x, r, now);
    assert a.records == t.records && a.robots == t.robots[r := BackedOff(c, t.robots[r], now)];
    hide Ok, Aborted, Busy;
    BusyRuns(t, r);
    BusyRuns(a, r);
  }

  /** Everybody planned is free to work, not called and not left alone. */
  ghost predicate PlansFree(c: Config, t: Tables, now: real, todo: seq<(Task, Robot)>) {
    forall k :: 0 <= k < |todo| ==>
      FreeToWork(c, t, todo[k].1, now) && t.robots[todo[k].1].inflight == None && t.robots[todo[k].1].backoffUntil <= now
  }

  lemma PlannedAreFree(c: Config, t: Tables, now: real, todo: seq<(Task, Robot)>)
    requires Planned(t, Candidates(c, t, now), todo)
    ensures PlansFree(c, t, now, todo)
  {
    hide FreeToWork, Candidates, ToCall;
    forall k | 0 <= k < |todo|
      ensures FreeToWork(c, t, todo[k].1, now) && t.robots[todo[k].1].inflight == None && t.robots[todo[k].1].backoffUntil <= now
    {
      CandidatesExactly(c, t, now, todo[k].1);
    }
  }

  lemma CallOfRobot(t: Tables, r: Robot, x: Task)
    requires Ok(t) && r in t.robots
    ensures t.robots[r].inflight == Some(x) <==> CalledFor(t, x, r)
  {
  }

  /** A failure leaves other tasks and what is known of the robots alone, and the task does not run any more. */
  lemma FailureKeeps(t: Tables, x: Task, robot: Option<Robot>, maxRetries: nat)
    requires x in t.records
    ensures var f := FailedAndRetried(t, x, robot, maxRetries);
            && f.records.Keys == t.records.Keys && !HasStatus(f.records, x, InProgress)
            && (forall y :: y in t.records && y != x ==> f.records[y] == t.records[y])
            && SightsKept(t.robots, f.robots) && IdleLostStay(t.robots, f.robots)
  {
    ClearedKeeps(t, x);
    hide SightsKept, IdleLostStay, Cleared;
    assert FailedAndRetried(t, x, robot, maxRetries).robots == Cleared(t, x).robots;
  }

  lemma SightsSame(a: map<Robot, Unit>)
    ensures SightsKept(a, a)
  {
  }

  lemma ClearedKeeps(t: Tables, x: Task)
    ensures SightsKept(t.robots, Cleared(t, x).robots) && IdleLostStay(t.robots, Cleared(t, x).robots)
  {
  }

  lemma RobotsCall(t: Tables, r: Robot)
    requires Ok(t) && r in t.robots && t.robots[r].inflight.Some?
    ensures t.robots[r].inflight.value in t.inflight && t.inflight[t.robots[r].inflight.value].robot == r
  {
  }

  /** Lost robots without a call keep having none. */
  ghost predicate IdleLostStay(a: map<Robot, Unit>, b: map<Robot, Unit>) {
    forall r :: r in a && a[r].lost && a[r].inflight == None ==> r in b && b[r].inflight == None
  }

  /** The same robots and reports; but for the given ones, none is lost or found again. */
  ghost predicate LeftAlone(a: map<Robot, Unit>, b: map<Robot, Unit>, but: set<Robot>) {
    && b.Keys == a.Keys && IdleLostStay(a, b)
    && (forall r :: r in a ==> SameSight(b[r], a[r]) && (r !in but ==> b[r].lost == a[r].lost))
  }

  lemma LeftAloneSame(a: map<Robot, Unit>, but: set<Robot>)
    ensures LeftAlone(a, a, but)
  {
  }

  predicate NewlySilent(c: Config, robots: map<Robot, Unit>, r: Robot, now: real) {
    Silent(c, robots, r, now) && !robots[r].lost
  }

  /** The running task x has failed once more, and waits again if it has a retry left. */
  predicate FailedFrom(c: Config, a: map<Task, Record>, b: map<Task, Record>, x: Task) {
    && x in a && x in b && a[x].status == InProgress && b[x].failures == a[x].failures + 1
    && b[x].status == if b[x].failures <= c.maxRetries then Pending else Failed
  }

  /** Only x has changed. */
  predicate FailedAlone(c: Config, a: map<Task, Record>, b: map<Task, Record>, x: Task) {
    FailedFrom(c, a, b, x) && b.Keys == a.Keys && forall y :: y in a && y != x ==> b[y] == a[y]
  }

  /** The task that r ran has failed, and no other record has changed. */
  ghost predicate Bereaved(c: Config, a: Tables, b: Tables, r: Robot) {
    if Busy(a.records, r) then exists x :: RunBy(a, x, r) && FailedAlone(c, a.records, b.records, x)
    else b.records == a.records
  }

  lemma FailedAloneOf(c: Config, t: Tables, x: Task, robot: Option<Robot>)
    requires HasStatus(t.records, x, InProgress)
    ensures FailedAlone(c, t.records, FailedAndRetried(t, x, robot, c.maxRetries).records, x)
  {
  }

  lemma LostEnds(c: Config, t: Tables, r: Robot, env: Env)
    requires r in t.robots && RoundsEnd(c, t, env)
    ensures RoundsEnd(c, t.(robots := t.robots[r := t.robots[r].(lost := true)]), env)
  {
    hide Busy;
  }

  lemma AddedEnds(c: Config, t: Tables, x: Task, pin: Option<Robot>, env: Env)
    requires RoundsEnd(c, t, env) && x !in t.records
    ensures RoundsEnd(c, Added(t, x, pin), env)
  {
    var u := Added(t, x, pin);
    forall r | Busy(t.records, r) ensures Busy(u.records, r) {
      var y :| y in t.records && t.records[y].status == InProgress && t.records[y].owner == Some(r);
      assert u.records[y] == t.records[y];
    }
  }

  /** A failed task of a lost robot frees no robot that could be called. */
  lemma FailureEnds(c: Config, t: Tables, x: Task, r: Robot, env: Env)
    requires RoundsEnd(c, t, env) && RunBy(t, x, r) && r in t.robots && t.robots[r].lost
    ensures RoundsEnd(c, FailedAndRetried(t, x, Some(r), c.maxRetries), env)
  {
    hide FailedAndRetried;
    FailureKeeps(t, x, Some(r), c.maxRetries);
    var u := FailedAndRetried(t, x, Some(r), c.maxRetries);
    forall q | q != r && Busy(t.records, q) ensures Busy(u.records, q) {
      var y :| y in t.records && t.records[y].status == InProgress && t.records[y].owner == Some(q);
      assert u.records[y] == t.records[y];
    }
  }

  /** Taking back the call of a lost robot. */
  lemma CallGivenUp(c: Config, env: Env, t: Tables, x: Task, r: Robot)
    requires Ok(t) && r in t.robots && t.robots[r].inflight == Some(x)
    ensures x in t.inflight && t.inflight[x].robot == r
    ensures var u := Aborted(c, t, x, r, env.now);
            && SightsKept(t.robots, u.robots) && IdleLostStay(t.robots, u.robots) && u.records == t.records
            && r in u.robots && u.robots[r].inflight == None
  {
    RobotsCall(t, r);
    AbortedOk(c, t, x, r, env.now);
    hide Ok, Aborted;
  }

  lemma Silenced(c: Config, before: Tables, marked: Tables, given: Tables, after: Tables, r: Robot, active: Option<Task>)
    requires r in before.robots && marked == before.(robots := before.robots[r := before.robots[r].(lost := true)])
    requires SightsKept(marked.robots, given.robots) && IdleLostStay(marked.robots, given.robots) && given.robots[r].inflight == None
    requires SightsKept(given.robots, after.robots) && IdleLostStay(given.robots, after.robots)
    requires given.records == before.records && (active.Some? ==> RunBy(marked, active.value, r))
    requires active == None ==> !Busy(before.records, r)
    requires if active.Some? then FailedAlone(c, given.records, after.records, active.value) else after.records == given.records
    ensures LeftAlone(before.robots, after.robots, {r}) && after.robots[r].lost && after.robots[r].inflight == None
    ensures Bereaved(c, before, after, r)
  {
    if active.Some? {
      assert RunBy(before, active.value, r);
    }
  }

  /** What is known of the robots of the list: the silent ones are lost and have no call. */
  ghost predicate RobotsSwept(c: Config, start: map<Robot, Unit>, robots: map<Robot, Unit>, done: seq<Robot>, now: real) {
    && robots.Keys == start.Keys
    && (forall r :: r in robots ==> SameSight(robots[r], start[r]))
    && (forall r :: r in robots ==> (robots[r].lost <==> start[r].lost || (r in done && Silent(c, start, r, now))))
    && (forall r :: r in done && NewlySilent(c, start, r, now) ==> robots[r].inflight == None)
  }

  /** Records are as they were, but for failed tasks of robots of the list; one of each newly silent robot has failed. */
  ghost predicate RecordsSwept(c: Config, start: Tables, records: map<Task, Record>, done: seq<Robot>, now: real) {
    && records.Keys == start.records.Keys
    && (forall x :: x in records ==> records[x] == start.records[x] || FailedIn(c, start.records, records, x, done))
    && (forall r :: r in done && NewlySilent(c, start.robots, r, now) && Busy(start.records, r) ==> OneFailed(c, start, records, r))
  }

  predicate FailedIn(c: Config, a: map<Task, Record>, b: map<Task, Record>, x: Task, robots: seq<Robot>) {
    FailedFrom(c, a, b, x) && a[x].owner.Some? && a[x].owner.value in robots
  }

  ghost predicate OneFailed(c: Config, start: Tables, records: map<Task, Record>, r: Robot) {
    exists x :: RunBy(start, x, r) && FailedFrom(c, start.records, records, x)
  }

  ghost predicate Swept(c: Config, start: Tables, t: Tables, done: seq<Robot>, now: real) {
    RobotsSwept(c, start.robots, t.robots, done, now) && RecordsSwept(c, start, t.records, done, now)
  }

  /** The silent robots are lost and have no call; a task each of them ran has failed; no other record has changed. */
  ghost predicate AllSwept(c: Config, start: Tables, t: Tables, now: real) {
    && t.robots.Keys == start.robots.Keys && t.records.Keys == start.records.Keys
    && (forall r :: r in t.robots ==> (t.robots[r].lost <==> start.robots[r].lost || Silent(c, start.robots, r, now)))
    && (forall r :: NewlySilent(c, start.robots, r, now) ==>
          t.robots[r].inflight == None && (Busy(start.records, r) ==> OneFailed(c, start, t.records, r)))
    && (forall x :: x in t.records ==> t.records[x] == start.records[x] || FailedFrom(c, start.records, t.records, x))
  }

  lemma SweepStart(c: Config, t: Tables, now: real)
    ensures Swept(c, t, t, [], now)
  {
  }

  lemma SameRunning(c: Config, start: Tables, t: Tables, done: seq<Robot>, r: Robot, now: real)
    requires RecordsSwept(c, start, t.records, done, now) && r !in done
    ensures Busy(t.records, r) <==> Busy(start.records, r)
    ensures forall x :: RunBy(t, x, r) <==> RunBy(start, x, r)
  {
    hide OneFailed, Busy;
    forall x ensures RunBy(t, x, r) <==> RunBy(start, x, r) {
    }
    BusyRuns(t, r);
    BusyRuns(start, r);
    if x :| RunBy(t, x, r) {
      assert RunBy(start, x, r);
    }
    if x :| RunBy(start, x, r) {
      assert RunBy(t, x, r);
    }
  }

  lemma RunByIs(t: Tables, x: Task, r: Robot)
    ensures RunBy(t, x, r) <==> HasStatus(t.records, x, InProgress) && t.records[x].owner == Some(r)
  {
  }

  lemma NotBusy(t: Tables, order: seq<Task>, r: Robot)
    requires (forall x :: x in t.records ==> x in order) && forall j :: 0 <= j < |order| ==> !RunBy(t, order[j], r)
    ensures !Busy(t.records, r)
  {
    hide Busy, RunBy;
    forall x ensures !RunBy(t, x, r) {
      RunByIs(t, x, r);
      if x in t.records {
        assert x in order;
      }
    }
    BusyRuns(t, r);
  }

  lemma BusyRuns(t: Tables, r: Robot)
    ensures Busy(t.records, r) <==> exists x :: RunBy(t, x, r)
  {
    if Busy(t.records, r) {
      var x :| x in t.records && t.records[x].status == InProgress && t.records[x].owner == Some(r);
      assert RunBy(t, x, r);
    }
  }

  lemma SweepOn(c: Config, start: Tables, before: Tables, after: Tables, done: seq<Robot>, r: Robot, now: real)
    requires Swept(c, start, before, done, now) && r !in done && r in before.robots
    requires LeftAlone(before.robots, after.robots, {r})
    requires after.robots[r].lost <==> before.robots[r].lost || Silent(c, before.robots, r, now)
    requires if NewlySilent(c, before.robots, r, now)
             then after.robots[r].inflight == None && Bereaved(c, before, after, r) else after == before
    ensures Swept(c, start, after, done + [r], now)
  {
    hide Busy, RecordsSwept, Bereaved;
    RecordsOn(c, start, before, after, done, r, now);
  }

  lemma RecordsOn(c: Config, start: Tables, before: Tables, after: Tables, done: seq<Robot>, r: Robot, now: real)
    requires RecordsSwept(c, start, before.records, done, now) && r !in done
    requires NewlySilent(c, start.robots, r, now) ==> Bereaved(c, before, after, r)
    requires !NewlySilent(c, start.robots, r, now) ==> after == before
    ensures RecordsSwept(c, start, after.records, done + [r], now)
  {
    hide Busy, NewlySilent;
    SameRunning(c, start, before, done, r, now);
    if NewlySilent(c, start.robots, r, now) && Busy(before.records, r) {
      var x :| RunBy(before, x, r) && FailedAlone(c, before.records, after.records, x);
      assert RunBy(start, x, r) && FailedFrom(c, start.records, after.records, x);
      forall q | q in done && OneFailed(c, start, before.records, q) ensures OneFailed(c, start, after.records, q) {
        var y :| RunBy(start, y, q) && FailedFrom(c, start.records, before.records, y);
        assert after.records[y] == before.records[y];
      }
    }
  }

  lemma SweepEnd(c: Config, start: Tables, t: Tables, done: seq<Robot>, now: real)
    requires Swept(c, start, t, done, now) && forall r :: r in start.robots ==> r in done
    ensures AllSwept(c, start, t, now)
  {
    hide Busy, OneFailed;
  }

  predicate Silent(c: Config, robots: map<Robot, Unit>, r: Robot, now: real) {
    r in robots && robots[r].report.Some? && now - robots[r].lastSeen > c.stateTimeout
  }

  lemma CallKnown(t: Tables, x: Task)
    requires Ok(t)
    ensures x in t.inflight ==>
              && x in t.queue && t.inflight[x].robot in t.robots && t.robots[t.inflight[x].robot].inflight == Some(x)
  {
  }

  // ---------------------------------------------------------------- the manager's own history

  /**
   In the manager's own events, however it came to be where it is, no task's life is illegal, no task
   is retried more often than allowed, and between two starts of a task lies a retry.
   */
  lemma HistoryLegal(m: FleetManager, t: Task)
    requires m.Valid()
    ensures LifeOf(m.log, t, m.cfg.maxRetries) != Impossible
    ensures Count(m.log, t, TaskLife.Failed, Pending) <= m.cfg.maxRetries
    ensures forall i: nat, j: nat :: i < j && StartsAt(m.log, t, i) && StartsAt(m.log, t, j) ==> RetriedSince(m.log[..j], t, i + 1)
    ensures forall i: nat :: EndsAt(m.log, t, i) ==> exists k: nat :: LastStart(m.log, t, k, i) && m.log[k].robot == m.log[i].robot
  {
    hide QueueOk, CallsOk, SentOk;
    assert LifeOf(m.log, t, m.cfg.maxRetries) == RecordedLife(m.records, t);
    RetriesBounded(m.log, t, m.cfg.maxRetries);
    forall i: nat, j: nat | i < j && StartsAt(m.log, t, i) && StartsAt(m.log, t, j) ensures RetriedSince(m.log[..j], t, i + 1) {
      StartsApart(m.log, t, m.cfg.maxRetries, i, j);
    }
    forall i: nat | EndsAt(m.log, t, i)
      ensures exists k: nat :: LastStart(m.log, t, k, i) && m.log[k].robot == m.log[i].robot
    {
      EndedByStarter(m.log, t, m.cfg.maxRetries, i);
    }
  }
}
