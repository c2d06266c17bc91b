/** Rounds of allocation: passes that plan, call the robots, and start over while a call finds its robot out of reach. */
module Rounds {
  import opened Dispatch
  import opened Options
  import opened TaskLife
  import A = Allocation
  import R = Restarts
  import Scheduler
  import Sorting

  /**
   What surrounds one handler; the clock stands still meanwhile.  ready: robots whose service is up;
   delay: simulated sending delay of a task, None if its call gets lost; done: calls whose response is
   about to be handled.
   */
  datatype Env = Env(now: real, ready: set<Robot>, latency: bool, delay: Task -> Option<real>, done: set<int>,
                     order: set<Task> -> seq<Task>, strategy: A.Strategy, dist: A.Distance) {
    /** The scheduler lists each waiting task once; without simulated latency nothing is delayed or lost. */
    ghost predicate Valid() {
      && (strategy.Optimum? ==> strategy.speed > 0.0)
      && (!latency ==> forall x :: delay(x) == Some(0.0))
      && forall q :: Scheduler.ListsAll(order(q), q)
    }
  }

  // ---------------------------------------------------------------- plans and candidates

  /** The waiting tasks that are not called yet, as the allocation sees them. */
  function Uncalled(order: seq<Task>, inflight: map<Task, Call>, records: map<Task, Record>): seq<A.Task> {
    if order == [] then []
    else
      var x := order[|order| - 1];
      Uncalled(order[..|order| - 1], inflight, records) +
      if x !in inflight && x in records then [A.Task(x, records[x].pinned)] else []
  }

  lemma ListsMembers(order: seq<Task>, queue: set<Task>)
    requires Scheduler.ListsAll(order, queue)
    ensures (forall i, j :: 0 <= i < j < |order| ==> order[i] != order[j]) && forall x :: x in order ==> x in queue
  {
  }

  lemma {:induction false} UncalledMeaning(order: seq<Task>, queue: set<Task>, inflight: map<Task, Call>,
                                           records: map<Task, Record>)
    requires (forall i, j :: 0 <= i < j < |order| ==> order[i] != order[j]) && forall x :: x in order ==> x in queue
    ensures A.DistinctIds(Uncalled(order, inflight, records))
    ensures forall t :: t in Uncalled(order, inflight, records) ==> t.id in order && t.id in queue && t.id !in inflight
  {
    if order != [] {
      var before := order[..|order| - 1];
      UncalledMeaning(before, queue, inflight, records);
      assert forall x :: x in before ==> x in order && x != order[|order| - 1];
    }
  }

  /** The given tasks with their robots, in the order of the list. */
  function Items(order: seq<Task>, given: A.Given): (todo: seq<(Task, Robot)>)
    requires forall k :: 0 <= k < |order| ==> order[k] in given
    ensures |todo| == |order| && forall k :: 0 <= k < |order| ==> todo[k] == (order[k], given[order[k]])
  {
    seq(|order|, k requires 0 <= k < |order| => (order[k], given[order[k]]))
  }

  /** The task waits uncalled and its robot has no call. */
  ghost predicate ToCall(t: Tables, c: (Task, Robot)) {
    c.0 in t.queue && c.0 !in t.inflight && c.1 in t.robots && t.robots[c.1].inflight == None
  }

  /** Waiting tasks that are not called, each with a candidate of its own. */
  ghost predicate Planned(t: Tables, candidates: set<Robot>, todo: seq<(Task, Robot)>) {
    && (forall k :: 0 <= k < |todo| ==> ToCall(t, todo[k]) && todo[k].1 in candidates)
    && (forall j, k :: 0 <= j < k < |todo| ==> todo[j].0 != todo[k].0 && todo[j].1 != todo[k].1)
  }

  lemma PlanFitsTables(c: Config, t: Tables, now: real, pending: seq<A.Task>, batch: seq<A.Task>, candidates: set<Robot>,
                       given: A.Given, order: seq<Task>)
    requires A.IsRound(batch, candidates, given) && candidates == Candidates(c, t, now)
    requires order == Sorting.Sorted(given.Keys)
    requires forall b :: b in batch ==> b in pending
    requires forall b :: b in pending ==> b.id in t.queue && b.id !in t.inflight
    ensures Planned(t, candidates, Items(order, given))
  {
    hide CanTake, Busy, Sorting.Sorted;
    var todo := Items(order, given);
    forall k | 0 <= k < |todo| ensures ToCall(t, todo[k]) && todo[k].1 in candidates {
      assert order[k] in order;
      GivenIsWaiting(t, pending, batch, candidates, given, order[k]);
      CandidateIsFree(c, t, now, todo[k].1);
    }
    forall j, k | 0 <= j < k < |todo| ensures todo[j].0 != todo[k].0 && todo[j].1 != todo[k].1 {
      assert order[j] in order && order[k] in order;
    }
  }

  lemma GivenIsWaiting(t: Tables, pending: seq<A.Task>, batch: seq<A.Task>, candidates: set<Robot>, given: A.Given, x: Task)
    requires A.IsRound(batch, candidates, given) && x in given
    requires forall b :: b in batch ==> b in pending
    requires forall b :: b in pending ==> b.id in t.queue && b.id !in t.inflight
    ensures x in t.queue && x !in t.inflight && given[x] in candidates
  {
    assert x in A.Ids(batch);
    var j :| 0 <= j < |batch| && batch[j].id == x;
    assert batch[j] in pending;
  }

  lemma CandidateIsFree(c: Config, t: Tables, now: real, r: Robot)
    requires r in Candidates(c, t, now)
    ensures r in t.robots && t.robots[r].inflight == None
  {
  }

  /** Robots out of reach are left alone for a while, or no robot that is free to work is out of reach. */
  ghost predicate RoundsEnd(c: Config, t: Tables, env: Env) {
    c.backoff > 0.0 || env.latency ||
    forall r :: r in t.robots && Eligible(c, t.robots[r], Busy(t.records, r), env.now) ==> r in env.ready
  }

  /** What matters is kept by all that does not touch records and reports. */
  lemma RoundsEndKept(c: Config, t: Tables, u: Tables, env: Env)
    requires RoundsEnd(c, t, env) && u.records == t.records && SightsKept(t.robots, u.robots)
    ensures RoundsEnd(c, u, env)
  {
    hide Busy;
  }

  // ---------------------------------------------------------------- one pass

  /** The service of the robot is found down when the call is made. */
  predicate Unreached(env: Env, x: Task, r: Robot) {
    env.delay(x).Some? && !env.latency && r !in env.ready
  }

  function CallFor(c: Config, env: Env, x: Task, r: Robot, number: int): Call {
    var delay := env.delay(x);
    Call(r, env.now, env.now + (if delay.Some? then delay.value else 0.0) + c.assignTimeout, delay == None, None, false, number)
  }

  /** The call of r for x: taken back if r is out of reach, else open, and sent unless it is delayed or lost. */
  function Attempt(c: Config, t: Tables, env: Env, x: Task, r: Robot, number: int): Tables {
    var call := CallFor(c, env, x, r, number);
    if r !in t.robots then t
    else if Unreached(env, x, r) then Aborted(c, Called(t, x, call), x, r, env.now)
    else if env.delay(x).Some? && !env.latency then Sent(Called(t, x, call), x, number + 1)
    else Called(t, x, call)
  }

  /** The open call is sent under the given number, and the robot remembered. */
  function Sent(t: Tables, x: Task, number: int): Tables {
    if x !in t.inflight then t
    else
      var d := t.inflight[x];
      Noted(t.(inflight := t.inflight[x := d.(sentAs := Some(number))]), x, d.robot, d.commandTime)
  }

  function NextNumber(env: Env, x: Task, r: Robot, number: int): int {
    if env.delay(x).Some? && !env.latency && r in env.ready then number + 2 else number + 1
  }

  /** The tables after the first n calls of the plan. */
  function Pass(c: Config, t: Tables, env: Env, todo: seq<(Task, Robot)>, number: int, n: nat): Tables
    requires n <= |todo|
  {
    if n == 0 then t
    else Attempt(c, Pass(c, t, env, todo, number, n - 1), env, todo[n - 1].0, todo[n - 1].1,
                 PassNumber(env, todo, number, n - 1))
  }

  function PassNumber(env: Env, todo: seq<(Task, Robot)>, number: int, n: nat): int
    requires n <= |todo|
  {
    if n == 0 then number else NextNumber(env, todo[n - 1].0, todo[n - 1].1, PassNumber(env, todo, number, n - 1))
  }

  /** The pass asks for another one: one of its robots was out of reach. */
  ghost predicate AsksAgain(env: Env, todo: seq<(Task, Robot)>) {
    SomeMissed(env, todo, |todo|)
  }

  ghost predicate SomeMissed(env: Env, todo: seq<(Task, Robot)>, n: nat)
    requires n <= |todo|
  {
    exists j :: 0 <= j < n && Unreached(env, todo[j].0, todo[j].1)
  }

  /** The robot's entry after it was called for x. */
  function Tried(c: Config, env: Env, u: Unit, x: Task, r: Robot): Unit {
    if Unreached(env, x, r) then BackedOff(c, u, env.now) else u.(inflight := Some(x))
  }

  lemma AttemptSights(c: Config, t: Tables, env: Env, x: Task, r: Robot, number: int)
    requires ToCall(t, (x, r))
    ensures SightsKept(t.robots, Attempt(c, t, env, x, r, number).robots)
  {
    AttemptMeaning(c, t, env, x, r, number);
    hide Attempt, Unreached;
  }

  lemma SightsJoin(a: map<Robot, Unit>, b: map<Robot, Unit>, d: map<Robot, Unit>)
    requires SightsKept(a, b) && SightsKept(b, d)
    ensures SightsKept(a, d)
  {
  }

  /** The three ways a call goes: nobody there, sent at once, or held back. */
  lemma AttemptCases(c: Config, t: Tables, env: Env, x: Task, r: Robot, number: int)
    requires r in t.robots
    ensures var u := Called(t, x, CallFor(c, env, x, r, number));
            && (env.delay(x).Some? && !env.latency ==>
                  if r in env.ready then !Unreached(env, x, r) && Attempt(c, t, env, x, r, number) == Sent(u, x, number + 1) &&
                                         NextNumber(env, x, r, number) == number + 2
                  else Unreached(env, x, r) && Attempt(c, t, env, x, r, number) == Aborted(c, u, x, r, env.now) &&
                       NextNumber(env, x, r, number) == number + 1)
            && (!(env.delay(x).Some? && !env.latency) ==>
                  !Unreached(env, x, r) && Attempt(c, t, env, x, r, number) == u && NextNumber(env, x, r, number) == number + 1)
  {
    assert CallFor(c, env, x, r, number).sentAs == None;
  }

  lemma CalledIs(c: Config, t: Tables, env: Env, x: Task, r: Robot, number: int)
    requires r in t.robots
    ensures var u := Called(t, x, CallFor(c, env, x, r, number));
            x in u.inflight && u.inflight[x].robot == r && u.inflight[x].sentAs == None
  {
  }

  lemma AttemptMeaning(c: Config, t: Tables, env: Env, x: Task, r: Robot, number: int)
    requires ToCall(t, (x, r))
    ensures var u := Attempt(c, t, env, x, r, number);
            && u.records == t.records && u.queue == t.queue
            && u.robots == t.robots[r := Tried(c, env, t.robots[r], x, r)]
            && (forall y :: y in u.inflight <==> y in t.inflight || (y == x && !Unreached(env, x, r)))
            && (forall y :: y in t.inflight ==> u.inflight[y] == t.inflight[y])
            && (Unreached(env, x, r) ==> u.inflight == t.inflight && u.sent == t.sent)
  {
    UnreachedCall(c, t, x, CallFor(c, env, x, r, number), env.now);
  }

  /** After the first n calls: who was reached has a call, who was not is backed off, nothing else has changed. */
  ghost predicate PassState(c: Config, t: Tables, env: Env, todo: seq<(Task, Robot)>, n: nat, u: Tables)
    requires n <= |todo|
  {
    && u.records == t.records && u.queue == t.queue && u.robots.Keys == t.robots.Keys
    && (forall q :: q in t.robots && (forall j :: 0 <= j < n ==> todo[j].1 != q) ==> u.robots[q] == t.robots[q])
    && (forall j :: 0 <= j < n ==> todo[j].1 in t.robots)
    && (forall j :: 0 <= j < n ==> u.robots[todo[j].1] == Tried(c, env, t.robots[todo[j].1], todo[j].0, todo[j].1))
    && (forall x :: x in u.inflight <==> x in t.inflight || Reached(env, todo, n, x))
    && (forall x :: x in t.inflight ==> u.inflight[x] == t.inflight[x])
    && (NoneReached(env, todo, n) ==> u.inflight == t.inflight && u.sent == t.sent)
  }

  ghost predicate NoneReached(env: Env, todo: seq<(Task, Robot)>, n: nat)
    requires n <= |todo|
  {
    forall j :: 0 <= j < n ==> Unreached(env, todo[j].0, todo[j].1)
  }

  ghost predicate Reached(env: Env, todo: seq<(Task, Robot)>, n: nat, x: Task)
    requires n <= |todo|
  {
    exists j :: 0 <= j < n && todo[j].0 == x && !Unreached(env, x, todo[j].1)
  }

  ghost predicate Separate(todo: seq<(Task, Robot)>) {
    forall i, j :: 0 <= i < j < |todo| ==> todo[i].0 != todo[j].0 && todo[i].1 != todo[j].1
  }

  lemma {:induction false} PassMeaning(c: Config, t: Tables, env: Env, todo: seq<(Task, Robot)>, number: int, n: nat)
    requires n <= |todo| && Separate(todo) && forall j :: 0 <= j < |todo| ==> ToCall(t, todo[j])
    ensures PassState(c, t, env, todo, n, Pass(c, t, env, todo, number, n))
  {
    hide Attempt, PassState, Unreached;
    if n == 0 {
      PassBegins(c, t, env, todo);
    } else {
      var u := Pass(c, t, env, todo, number, n - 1);
      PassMeaning(c, t, env, todo, number, n - 1);
      StillToCall(c, t, env, todo, n - 1, u);
      AttemptMeaning(c, u, env, todo[n - 1].0, todo[n - 1].1, PassNumber(env, todo, number, n - 1));
      PassGoesOn(c, t, env, todo, n - 1, u, Pass(c, t, env, todo, number, n));
    }
  }

  lemma PassBegins(c: Config, t: Tables, env: Env, todo: seq<(Task, Robot)>)
    ensures PassState(c, t, env, todo, 0, t)
  {
  }

  lemma StillToCall(c: Config, t: Tables, env: Env, todo: seq<(Task, Robot)>, n: nat, u: Tables)
    requires n < |todo| && Separate(todo) && PassState(c, t, env, todo, n, u) && ToCall(t, todo[n])
    ensures ToCall(u, todo[n])
  {
    hide Unreached;
    assert !Reached(env, todo, n, todo[n].0);
    var q := todo[n].1;
    assert forall j :: 0 <= j < n ==> todo[j].1 != q;
    assert q in t.robots && u.robots[q] == t.robots[q];
  }

  lemma PassGoesOn(c: Config, t: Tables, env: Env, todo: seq<(Task, Robot)>, n: nat, u: Tables, v: Tables)
    requires n < |todo| && Separate(todo) && PassState(c, t, env, todo, n, u) && ToCall(u, todo[n])
    requires v.records == u.records && v.queue == u.queue
    requires v.robots == u.robots[todo[n].1 := Tried(c, env, u.robots[todo[n].1], todo[n].0, todo[n].1)]
    requires forall y :: y in v.inflight <==> y in u.inflight || (y == todo[n].0 && !Unreached(env, todo[n].0, todo[n].1))
    requires forall y :: y in u.inflight ==> v.inflight[y] == u.inflight[y]
    requires Unreached(env, todo[n].0, todo[n].1) ==> v.inflight == u.inflight && v.sent == u.sent
    ensures PassState(c, t, env, todo, n + 1, v)
  {
    hide Unreached, Tried;
    forall x ensures Reached(env, todo, n + 1, x) <==>
                       Reached(env, todo, n, x) || (x == todo[n].0 && !Unreached(env, todo[n].0, todo[n].1)) {
    }
  }

  /** The robots left for the next pass. */
  lemma CandidatesLeft(c: Config, t: Tables, env: Env, todo: seq<(Task, Robot)>, u: Tables, r: Robot)
    requires PassState(c, t, env, todo, |todo|, u) && Planned(t, Candidates(c, t, env.now), todo)
    ensures r in Candidates(c, u, env.now) <==>
              r in Candidates(c, t, env.now) &&
              forall j :: 0 <= j < |todo| && todo[j].1 == r ==> c.backoff <= 0.0 && Unreached(env, todo[j].0, r)
  {
    hide Unreached, Busy;
    if j :| 0 <= j < |todo| && todo[j].1 == r {
      assert todo[j].1 in Candidates(c, t, env.now);
    }
  }

  /** A pass calls fewer robots than are left exactly if it reaches one, or backs one off. */
  lemma CandidatesShrink(c: Config, t: Tables, env: Env, todo: seq<(Task, Robot)>, u: Tables)
    requires PassState(c, t, env, todo, |todo|, u) && Planned(t, Candidates(c, t, env.now), todo)
    ensures Candidates(c, u, env.now) <= Candidates(c, t, env.now)
    ensures todo != [] && c.backoff > 0.0 ==> Candidates(c, u, env.now) < Candidates(c, t, env.now)
  {
    hide Unreached, Busy, PassState, Planned;
    forall r | r in Candidates(c, u, env.now) ensures r in Candidates(c, t, env.now) {
      CandidatesLeft(c, t, env, todo, u, r);
    }
    if todo != [] && c.backoff > 0.0 {
      FirstPlanned(t, Candidates(c, t, env.now), todo);
      CandidatesLeft(c, t, env, todo, u, todo[0].1);
    }
  }

  lemma FirstPlanned(t: Tables, candidates: set<Robot>, todo: seq<(Task, Robot)>)
    requires Planned(t, candidates, todo) && todo != []
    ensures todo[0].1 in candidates
  {
  }

  lemma StartCalls(c: Config, t: Tables, now: real, todo: seq<(Task, Robot)>)
    requires Planned(t, Candidates(c, t, now), todo)
    ensures Separate(todo) && forall j :: 0 <= j < |todo| ==> ToCall(t, todo[j])
  {
  }

  // ---------------------------------------------------------------- plans

  /** The candidates with the number of tasks each has started. */
  function Infos(t: Tables, candidates: set<Robot>): (infos: map<Robot, A.Info>)
    ensures infos.Keys == candidates
    ensures forall r :: r in candidates && r in t.robots ==> infos[r].load == t.robots[r].load
  {
    map r | r in candidates :: A.Info(LoadOf(t, r), true)
  }

  function LoadOf(t: Tables, r: Robot): nat {
    if r in t.robots then t.robots[r].load else 0
  }

  ghost function Waiting(env: Env, t: Tables): seq<A.Task> {
    Uncalled(env.order(t.queue), t.inflight, t.records)
  }

  ghost predicate PlannedBy(c: Config, env: Env, t: Tables, todo: seq<(Task, Robot)>, o: R.Try) {
    && o.tasks == Waiting(env, t) && o.robots == Infos(t, Candidates(c, t, env.now))
    && R.Made(env.strategy, env.dist, c.batchSize, o)
    && todo == Items(Sorting.Sorted(o.given.Keys), o.given)
  }

  /** What a pass may plan: a batch of the uncalled waiting tasks, allocated to the candidates by the strategy. */
  ghost predicate IsPlan(c: Config, env: Env, t: Tables, todo: seq<(Task, Robot)>) {
    exists o :: PlannedBy(c, env, t, todo, o)
  }

  lemma FreeInfos(t: Tables, candidates: set<Robot>)
    ensures A.Free(Infos(t, candidates)) == candidates
  {
    assert forall r :: r in A.Free(Infos(t, candidates)) <==> r in candidates;
  }

  lemma CandidatesKnown(c: Config, t: Tables, now: real)
    ensures Candidates(c, t, now) <= t.robots.Keys
  {
    hide CanTake, Busy;
  }

  lemma TryIsPlan(c: Config, env: Env, t: Tables, todo: seq<(Task, Robot)>, o: R.Try)
    requires o.tasks == Waiting(env, t) && o.robots == Infos(t, Candidates(c, t, env.now))
    requires A.DistinctIds(o.tasks) && A.IsRound(o.batch, Candidates(c, t, env.now), o.given)
    requires A.IsBatch(o.tasks, Candidates(c, t, env.now), A.Limit(c.batchSize, Candidates(c, t, env.now)), o.batch)
    requires A.Follows(env.strategy, o.batch, o.robots, env.dist, o.pool, o.plan, o.given)
    requires todo == Items(Sorting.Sorted(o.given.Keys), o.given)
    ensures IsPlan(c, env, t, todo)
  {
    hide A.IsBatch, A.IsRound, A.Follows, A.DistinctIds, Candidates, Infos, Waiting, Items;
    FreeInfos(t, Candidates(c, t, env.now));
    assert PlannedBy(c, env, t, todo, o);
  }

  /** A plan calls waiting tasks only, each for a candidate of its own. */
  lemma PlanIsPlanned(c: Config, env: Env, t: Tables, todo: seq<(Task, Robot)>)
    requires Ok(t) && env.Valid() && IsPlan(c, env, t, todo)
    ensures Planned(t, Candidates(c, t, env.now), todo) && Separate(todo)
    ensures forall j :: 0 <= j < |todo| ==> ToCall(t, todo[j])
  {
    hide Ok, A.IsBatch, A.IsRound, A.Follows, Candidates, Infos, Uncalled;
    var o :| PlannedBy(c, env, t, todo, o);
    var candidates := Candidates(c, t, env.now);
    CandidatesKnown(c, t, env.now);
    FreeInfos(t, candidates);
    ListsMembers(env.order(t.queue), t.queue);
    UncalledMeaning(env.order(t.queue), t.queue, t.inflight, t.records);
    A.BatchDistinct(o.tasks, candidates, A.Limit(c.batchSize, candidates), o.batch);
    PlanFitsTables(c, t, env.now, o.tasks, o.batch, candidates, o.given, Sorting.Sorted(o.given.Keys));
  }

  /** The place of a task in the order. */
  function Place(order: seq<Task>, x: Task): nat {
    if order == [] || order[|order| - 1] == x then |order| else Place(order[..|order| - 1], x)
  }

  function Places(order: seq<Task>): Task -> int {
    x => Place(order, x)
  }

  lemma {:induction false} PlaceWithin(order: seq<Task>, x: Task)
    requires x in order
    ensures Place(order, x) <= |order|
  {
    if order[|order| - 1] != x {
      PlaceWithin(order[..|order| - 1], x);
    }
  }

  lemma {:induction false} InPlace(order: seq<Task>, inflight: map<Task, Call>, records: map<Task, Record>)
    requires forall i, j :: 0 <= i < j < |order| ==> order[i] != order[j]
    ensures R.InOrder(Uncalled(order, inflight, records), Places(order))
    ensures forall q :: q in Uncalled(order, inflight, records) <==>
                          q.id in order && q.id !in inflight && q.id in records && q.pin == records[q.id].pinned
  {
    if order != [] {
      var before, x := order[..|order| - 1], order[|order| - 1];
      InPlace(before, inflight, records);
      var u := Uncalled(before, inflight, records);
      assert forall y :: y in order <==> y in before || y == x;
      forall i | 0 <= i < |u|
        ensures u[i].id in before && u[i].id != x && Place(order, u[i].id) == Place(before, u[i].id) < |order|
      {
        assert u[i] in u;
        PlaceWithin(before, u[i].id);
      }
    }
  }

  /** A task that was taken in waits to be called, for the robot it names if any; the others wait as before. */
  lemma TakenInWaits(env: Env, t: Tables, x: Task, pin: Option<Robot>)
    requires Ok(t) && env.Valid() && x !in t.records
    ensures forall q :: q in Waiting(env, Added(t, x, pin)) <==> q == A.Task(x, pin) || q in Waiting(env, t)
  {
    hide Uncalled, R.InOrder, Place;
    var u := Added(t, x, pin);
    ListsMembers(env.order(t.queue), t.queue);
    ListsMembers(env.order(u.queue), u.queue);
    InPlace(env.order(t.queue), t.inflight, t.records);
    InPlace(env.order(u.queue), u.inflight, u.records);
  }

  // ---------------------------------------------------------------- starting over

  /** What is called is what was given to ready robots. */
  ghost predicate Matches(env: Env, todo: seq<(Task, Robot)>, given: A.Given) {
    && (forall x :: R.Reached(given, env.ready, x) <==> Reached(env, todo, |todo|, x))
    && (forall r :: A.Taken(given, r) <==> exists j :: 0 <= j < |todo| && todo[j].1 == r)
  }

  lemma GivenReached(env: Env, given: A.Given, todo: seq<(Task, Robot)>)
    requires env.Valid() && !env.latency && todo == Items(Sorting.Sorted(given.Keys), given)
    ensures Matches(env, todo, given)
    ensures AsksAgain(env, todo) <==> R.Misses(given, env.ready)
  {
    hide Sorting.Sorted;
    var order := Sorting.Sorted(given.Keys);
    assert forall j :: 0 <= j < |order| ==> order[j] in order;
    forall x | x in given ensures exists j :: 0 <= j < |todo| && todo[j].0 == x && todo[j].1 == given[x] {
      var j :| 0 <= j < |order| && order[j] == x;
      assert todo[j].0 == x;
    }
  }

  /** With no positive backoff the next try starts over with what was not called. */
  lemma NextStartsOver(c: Config, env: Env, t: Tables, todo: seq<(Task, Robot)>, u: Tables, o: R.Try, o': R.Try)
    requires env.Valid() && !env.latency && c.backoff <= 0.0
    requires PassState(c, t, env, todo, |todo|, u) && Planned(t, Candidates(c, t, env.now), todo)
    requires o.tasks == Waiting(env, t) && o.robots == Infos(t, Candidates(c, t, env.now))
    requires o'.tasks == Waiting(env, u) && o'.robots == Infos(u, Candidates(c, u, env.now))
    requires todo == Items(Sorting.Sorted(o.given.Keys), o.given)
    ensures R.StartsOver(o, env.ready, o', Places(env.order(t.queue)))
  {
    hide Candidates, PassState, Infos, Waiting, Places, Planned, Items, Matches, R.InOrder, R.TasksLeft, R.RobotsLeft,
      R.SameInfos, Env.Valid, R.Misses, AsksAgain;
    GivenReached(env, o.given, todo);
    NextTasks(c, env, t, todo, u, o.given);
    NextRobots(c, env, t, todo, u, o.given);
    NextLoads(c, env, t, todo, u);
  }

  lemma TryOf(c: Config, env: Env, t: Tables, todo: seq<(Task, Robot)>, o: R.Try)
    requires PlannedBy(c, env, t, todo, o)
    ensures o.tasks == Waiting(env, t) && o.robots == Infos(t, Candidates(c, t, env.now))
    ensures todo == Items(Sorting.Sorted(o.given.Keys), o.given) && IsPlan(c, env, t, todo)
  {
  }

  lemma NextTasks(c: Config, env: Env, t: Tables, todo: seq<(Task, Robot)>, u: Tables, given: A.Given)
    requires env.Valid() && PassState(c, t, env, todo, |todo|, u)
    requires Matches(env, todo, given)
    ensures R.InOrder(Waiting(env, t), Places(env.order(t.queue)))
    ensures R.InOrder(Waiting(env, u), Places(env.order(t.queue)))
    ensures R.TasksLeft(Waiting(env, t), given, env.ready, Waiting(env, u))
  {
    hide R.Reached, Reached, Place, R.InOrder;
    SameOrder(c, t, env, todo, u);
    TasksLeft(c, t, env, todo, u);
    hide PassState;
    ListsMembers(env.order(t.queue), t.queue);
    InPlace(env.order(t.queue), t.inflight, t.records);
    InPlace(env.order(t.queue), u.inflight, u.records);
    hide Uncalled;
  }

  lemma NextRobots(c: Config, env: Env, t: Tables, todo: seq<(Task, Robot)>, u: Tables, given: A.Given)
    requires env.Valid() && !env.latency && c.backoff <= 0.0
    requires PassState(c, t, env, todo, |todo|, u) && Planned(t, Candidates(c, t, env.now), todo)
    requires Matches(env, todo, given)
    ensures R.RobotsLeft(Infos(t, Candidates(c, t, env.now)), given, env.ready, Infos(u, Candidates(c, u, env.now)))
  {
    hide PassState, Planned, Candidates, A.Free, Infos, Unreached, A.Taken;
    CandidatesKnown(c, t, env.now);
    CandidatesKnown(c, u, env.now);
    FreeInfos(t, Candidates(c, t, env.now));
    FreeInfos(u, Candidates(c, u, env.now));
    forall r ensures r in Candidates(c, u, env.now) <==>
                       r in Candidates(c, t, env.now) && !(r in env.ready && A.Taken(given, r)) {
      CandidatesLeft(c, t, env, todo, u, r);
      OutOfReach(env, todo, r);
    }
  }

  lemma NextLoads(c: Config, env: Env, t: Tables, todo: seq<(Task, Robot)>, u: Tables)
    requires PassState(c, t, env, todo, |todo|, u)
    ensures R.SameInfos(Infos(t, Candidates(c, t, env.now)), Infos(u, Candidates(c, u, env.now)))
  {
    hide PassState, CanTake, Busy;
    SightsLeft(c, t, env, todo, u);
  }

  lemma SameOrder(c: Config, t: Tables, env: Env, todo: seq<(Task, Robot)>, u: Tables)
    requires PassState(c, t, env, todo, |todo|, u)
    ensures u.queue == t.queue && u.records == t.records
  {
  }

  lemma TasksLeft(c: Config, t: Tables, env: Env, todo: seq<(Task, Robot)>, u: Tables)
    requires PassState(c, t, env, todo, |todo|, u)
    ensures forall x :: x in u.inflight <==> x in t.inflight || Reached(env, todo, |todo|, x)
  {
  }

  lemma OutOfReach(env: Env, todo: seq<(Task, Robot)>, r: Robot)
    requires env.Valid() && !env.latency
    ensures (forall j :: 0 <= j < |todo| && todo[j].1 == r ==> Unreached(env, todo[j].0, r)) <==>
              !(r in env.ready && exists j :: 0 <= j < |todo| && todo[j].1 == r)
  {
  }

  /** Passes that follow each other, each of which but the last asked for the next. */
  ghost predicate Passes(c: Config, env: Env, ts: seq<Tables>, todos: seq<seq<(Task, Robot)>>) {
    && |todos| > 0 && |ts| == |todos| + 1
    && (forall k :: 0 <= k < |todos| ==>
          Ok(ts[k]) && IsPlan(c, env, ts[k], todos[k]) && IsPass(c, env, ts[k], todos[k], ts[k + 1]))
    && (forall k :: 0 <= k < |todos| - 1 ==> AsksAgain(env, todos[k]))
  }

  ghost predicate IsPass(c: Config, env: Env, t: Tables, todo: seq<(Task, Robot)>, u: Tables) {
    exists number :: u == Pass(c, t, env, todo, number, |todo|)
  }

  /** Passes so far; another one follows if the last one asked for it. */
  ghost predicate PassesSo(c: Config, env: Env, ts: seq<Tables>, todos: seq<seq<(Task, Robot)>>, again: bool) {
    && |ts| == |todos| + 1 && (todos == [] ==> again)
    && (todos != [] ==> Passes(c, env, ts, todos) && (again <==> AsksAgain(env, todos[|todos| - 1])))
  }

  /** A whole round leads from t to u. */
  ghost predicate RoundFrom(c: Config, env: Env, t: Tables, u: Tables) {
    exists ts, todos :: Passes(c, env, ts, todos) && ts[0] == t && ts[|todos|] == u && !AsksAgain(env, todos[|todos| - 1])
  }

  lemma OneMorePass(c: Config, env: Env, ts: seq<Tables>, todos: seq<seq<(Task, Robot)>>, todo: seq<(Task, Robot)>,
                    u: Tables, again: bool)
    requires PassesSo(c, env, ts, todos, true) && Ok(ts[|todos|]) && IsPlan(c, env, ts[|todos|], todo)
    requires IsPass(c, env, ts[|todos|], todo, u) && (again <==> AsksAgain(env, todo))
    ensures PassesSo(c, env, ts + [u], todos + [todo], again)
  {
    hide Ok, IsPlan, IsPass, AsksAgain;
  }

  lemma RoundDone(c: Config, env: Env, ts: seq<Tables>, todos: seq<seq<(Task, Robot)>>)
    requires PassesSo(c, env, ts, todos, false)
    ensures RoundFrom(c, env, ts[0], ts[|todos|])
  {
  }

  lemma PassedOnce(c: Config, env: Env, t: Tables, todo: seq<(Task, Robot)>, number: int, u: Tables)
    requires u == Pass(c, t, env, todo, number, |todo|)
    ensures IsPass(c, env, t, todo, u)
  {
  }

  lemma IsPassMeaning(c: Config, env: Env, t: Tables, todo: seq<(Task, Robot)>, u: Tables)
    requires Ok(t) && env.Valid() && IsPlan(c, env, t, todo) && IsPass(c, env, t, todo, u)
    ensures PassState(c, t, env, todo, |todo|, u) && Planned(t, Candidates(c, t, env.now), todo)
  {
    hide Ok, IsPlan, PassState, Candidates, Pass;
    PlanIsPlanned(c, env, t, todo);
    var number :| u == Pass(c, t, env, todo, number, |todo|);
    PassMeaning(c, t, env, todo, number, |todo|);
  }

  /** With no positive backoff and a greedy strategy, a pass that asks again is followed by one that asks again. */
  lemma AsksForEver(c: Config, env: Env, t: Tables, todo: seq<(Task, Robot)>, u: Tables, todo': seq<(Task, Robot)>)
    requires Ok(t) && env.Valid() && !env.latency && c.backoff <= 0.0 && !env.strategy.Optimum?
    requires IsPlan(c, env, t, todo) && IsPass(c, env, t, todo, u) && IsPlan(c, env, u, todo') && AsksAgain(env, todo)
    ensures AsksAgain(env, todo')
  {
    hide Ok, IsPass, R.Made, R.StartsOver, Candidates, PassState, AsksAgain, Items;
    IsPassMeaning(c, env, t, todo, u);
    var o :| PlannedBy(c, env, t, todo, o);
    var o' :| PlannedBy(c, env, u, todo', o');
    TryOf(c, env, t, todo, o);
    TryOf(c, env, u, todo', o');
    NextStartsOver(c, env, t, todo, u, o, o');
    GivenReached(env, o.given, todo);
    GivenReached(env, o'.given, todo');
    R.MissesAgain(env.strategy, env.dist, c.batchSize, o, o', env.ready, Places(env.order(t.queue)));
  }

  /**
   With no positive backoff, a round of a greedy strategy ends exactly if its first pass plans ready
   robots only: then it is the only pass, otherwise every pass asks for another one.
   */
  lemma {:induction false} RoundEndsExactly(c: Config, env: Env, ts: seq<Tables>, todos: seq<seq<(Task, Robot)>>)
    requires env.Valid() && !env.latency && c.backoff <= 0.0 && !env.strategy.Optimum?
    requires Passes(c, env, ts, todos)
    ensures !AsksAgain(env, todos[|todos| - 1]) <==> forall j :: 0 <= j < |todos[0]| ==> todos[0][j].1 in env.ready
    ensures !AsksAgain(env, todos[|todos| - 1]) ==> |todos| == 1
  {
    hide Ok, IsPlan, IsPass, AsksAgain;
    var n := |todos| - 1;
    FirstMissed(env, todos[0]);
    if n > 0 {
      var ts', todos' := ts[..n + 1], todos[..n];
      RoundEndsExactly(c, env, ts', todos');
      AsksForEver(c, env, ts[n - 1], todos[n - 1], ts[n], todos[n]);
    }
  }

  lemma FirstMissed(env: Env, todo: seq<(Task, Robot)>)
    requires env.Valid() && !env.latency
    ensures !AsksAgain(env, todo) <==> forall j :: 0 <= j < |todo| ==> todo[j].1 in env.ready
  {
  }

  /** A pass leaves no more candidates than before, and fewer if it asks again and rounds end. */
  lemma PassShrinks(c: Config, env: Env, t: Tables, todo: seq<(Task, Robot)>, u: Tables)
    requires Ok(t) && env.Valid() && IsPlan(c, env, t, todo) && IsPass(c, env, t, todo, u) && RoundsEnd(c, t, env)
    ensures Candidates(c, u, env.now) <= Candidates(c, t, env.now)
    ensures AsksAgain(env, todo) ==> Candidates(c, u, env.now) < Candidates(c, t, env.now)
    ensures SightsKept(t.robots, u.robots) && u.records == t.records
  {
    hide Ok, IsPlan, Busy, Planned;
    IsPassMeaning(c, env, t, todo, u);
    SightsLeft(c, t, env, todo, u);
    hide PassState;
    CandidatesShrink(c, t, env, todo, u);
    if AsksAgain(env, todo) {
      var j :| 0 <= j < |todo| && Unreached(env, todo[j].0, todo[j].1);
      PlannedCandidate(t, Candidates(c, t, env.now), todo, j);
    }
  }

  lemma PlannedCandidate(t: Tables, candidates: set<Robot>, todo: seq<(Task, Robot)>, j: nat)
    requires Planned(t, candidates, todo) && j < |todo|
    ensures todo[j].1 in candidates
  {
  }

  lemma SightsLeft(c: Config, t: Tables, env: Env, todo: seq<(Task, Robot)>, u: Tables)
    requires PassState(c, t, env, todo, |todo|, u)
    ensures SightsKept(t.robots, u.robots) && u.records == t.records
  {
    forall r | r in t.robots
      ensures SameSight(u.robots[r], t.robots[r])
      ensures u.robots[r].lost == t.robots[r].lost && u.robots[r].load == t.robots[r].load
    {
      if j :| 0 <= j < |todo| && todo[j].1 == r {
        assert u.robots[r] == Tried(c, env, t.robots[r], todo[j].0, r);
      }
    }
  }

  /** Lost robots are left alone. */
  ghost predicate LostAlone(a: map<Robot, Unit>, b: map<Robot, Unit>) {
    forall r :: r in a && a[r].lost ==> r in b && b[r] == a[r]
  }

  lemma PassKeeps(c: Config, env: Env, t: Tables, todo: seq<(Task, Robot)>, u: Tables)
    requires Ok(t) && env.Valid() && IsPlan(c, env, t, todo) && IsPass(c, env, t, todo, u)
    ensures SightsKept(t.robots, u.robots) && u.records == t.records && LostAlone(t.robots, u.robots)
  {
    hide Ok, IsPlan, Busy, Planned, Unreached, SightsKept;
    IsPassMeaning(c, env, t, todo, u);
    SightsLeft(c, t, env, todo, u);
    forall r | r in t.robots && t.robots[r].lost ensures r in u.robots && u.robots[r] == t.robots[r] {
      if j :| 0 <= j < |todo| && todo[j].1 == r {
        PlannedCandidate(t, Candidates(c, t, env.now), todo, j);
        assert false;
      }
    }
  }

  lemma {:induction false} PassesKeep(c: Config, env: Env, ts: seq<Tables>, todos: seq<seq<(Task, Robot)>>)
    requires env.Valid() && Passes(c, env, ts, todos)
    ensures var t, u := ts[0], ts[|todos|];
            SightsKept(t.robots, u.robots) && u.records == t.records && LostAlone(t.robots, u.robots)
    decreases |todos|
  {
    hide Ok, IsPlan, IsPass, AsksAgain;
    PassKeeps(c, env, ts[0], todos[0], ts[1]);
    if |todos| > 1 {
      LaterPasses(c, env, ts, todos);
      PassesKeep(c, env, ts[1..], todos[1..]);
    }
  }

  /** A round changes neither records nor reports, and leaves lost robots alone. */
  lemma RoundKeeps(c: Config, env: Env, t: Tables, u: Tables)
    requires env.Valid() && RoundFrom(c, env, t, u)
    ensures SightsKept(t.robots, u.robots) && u.records == t.records && LostAlone(t.robots, u.robots)
  {
    hide SightsKept, LostAlone, Ok, IsPlan, IsPass;
    var ts, todos :| Passes(c, env, ts, todos) && ts[0] == t && ts[|todos|] == u && !AsksAgain(env, todos[|todos| - 1]);
    PassesKeep(c, env, ts, todos);
  }

  // ---------------------------------------------------------------- a round that makes no progress

  /** Something is planned, and only robots out of reach. */
  ghost predicate Stuck(env: Env, todo: seq<(Task, Robot)>) {
    todo != [] && NoneReached(env, todo, |todo|)
  }

  /**
   A stuck pass with no positive backoff changes nothing but times that are over: the same robots
   are candidates for the same tasks, exactly the same plans are possible, and another pass is asked for.
   */
  lemma StuckRepeats(c: Config, env: Env, t: Tables, todo: seq<(Task, Robot)>, u: Tables)
    requires Ok(t) && env.Valid() && c.backoff <= 0.0
    requires IsPlan(c, env, t, todo) && IsPass(c, env, t, todo, u) && Stuck(env, todo)
    ensures AsksAgain(env, todo)
    ensures u == t.(robots := u.robots) && Candidates(c, u, env.now) == Candidates(c, t, env.now)
    ensures forall next :: IsPlan(c, env, u, next) <==> IsPlan(c, env, t, next)
  {
    hide Ok, IsPlan, Candidates, Planned, Unreached, PlannedBy;
    IsPassMeaning(c, env, t, todo, u);
    SightsLeft(c, t, env, todo, u);
    hide PassState;
    CandidatesShrink(c, t, env, todo, u);
    forall r | r in Candidates(c, t, env.now) ensures r in Candidates(c, u, env.now) {
      CandidatesLeft(c, t, env, todo, u, r);
    }
    assert Unreached(env, todo[0].0, todo[0].1);
    SamePlans(c, env, t, u);
  }

  lemma SamePlans(c: Config, env: Env, t: Tables, u: Tables)
    requires u == t.(robots := u.robots) && Candidates(c, u, env.now) == Candidates(c, t, env.now)
    requires forall r :: r in t.robots ==> r in u.robots && u.robots[r].load == t.robots[r].load
    ensures forall next :: IsPlan(c, env, u, next) <==> IsPlan(c, env, t, next)
  {
    hide Candidates, R.Made, Uncalled, Items;
    CandidatesKnown(c, t, env.now);
    assert Infos(u, Candidates(c, u, env.now)) == Infos(t, Candidates(c, t, env.now));
    forall next ensures IsPlan(c, env, u, next) <==> IsPlan(c, env, t, next) {
      forall o ensures PlannedBy(c, env, u, next, o) <==> PlannedBy(c, env, t, next, o) {
      }
    }
  }

  /** Whatever strategy and backoff: a round of more passes than there are candidates has a stuck one. */
  lemma {:induction false} EndsOrSticks(c: Config, env: Env, ts: seq<Tables>, todos: seq<seq<(Task, Robot)>>)
    requires env.Valid() && Passes(c, env, ts, todos)
    ensures |todos| <= |Candidates(c, ts[0], env.now)| + 1 || exists k :: 0 <= k < |todos| && Stuck(env, todos[k])
    decreases |todos|
  {
    hide Ok, IsPlan, IsPass, Candidates, Stuck;
    if |todos| > 1 {
      var ts', todos' := ts[1..], todos[1..];
      LaterPasses(c, env, ts, todos);
      EndsOrSticks(c, env, ts', todos');
      if Stuck(env, todos[0]) {
      } else if k :| 0 <= k < |todos'| && Stuck(env, todos'[k]) {
        assert Stuck(env, todos[k + 1]);
      } else {
        SomeReached(c, env, ts[0], todos[0], ts[1]);
        Sorting.SubsetSize(Candidates(c, ts[1], env.now), Candidates(c, ts[0], env.now));
      }
    }
  }

  lemma LaterPasses(c: Config, env: Env, ts: seq<Tables>, todos: seq<seq<(Task, Robot)>>)
    requires Passes(c, env, ts, todos) && |todos| > 1
    ensures Passes(c, env, ts[1..], todos[1..])
  {
    hide Ok, IsPlan, IsPass, AsksAgain;
  }

  /** A pass that asks again but is not stuck leaves fewer candidates. */
  lemma SomeReached(c: Config, env: Env, t: Tables, todo: seq<(Task, Robot)>, u: Tables)
    requires Ok(t) && env.Valid() && IsPlan(c, env, t, todo) && IsPass(c, env, t, todo, u)
    requires AsksAgain(env, todo) && !Stuck(env, todo)
    ensures Candidates(c, u, env.now) < Candidates(c, t, env.now)
    ensures |Candidates(c, u, env.now)| < |Candidates(c, t, env.now)|
  {
    hide Ok, IsPlan, Candidates, Unreached, PassState;
    IsPassMeaning(c, env, t, todo, u);
    CandidatesShrink(c, t, env, todo, u);
    var j :| 0 <= j < |todo| && !Unreached(env, todo[j].0, todo[j].1);
    CandidatesLeft(c, t, env, todo, u, todo[j].1);
    assert todo[j].1 in Candidates(c, t, env.now);
    Sorting.SubsetSize(Candidates(c, u, env.now) + {todo[j].1}, Candidates(c, t, env.now));
  }

  // ---------------------------------------------------------------- one robot, service down

  /** Robot 7 idles and task 1 waits. */
  function OneIdle(): Tables {
    Tables(map[1 := Record(Pending, None, None, 0, 0, None, None)], {1}, map[],
           map[7 := Unit(Some(Report(true, None, true)), 0.0, false, 0, None, 0.0)], map[])
  }

  /** Nobody's service is up, and no latency is simulated. */
  function ServiceDown(): Env {
    Env(0.0, {}, false, x => Some(0.0), {}, q => Sorting.Sorted(q), A.Nearest, (r, x) => 1.0)
  }

  const IMPATIENT := Config(5.0, 1.0, 1.0, 0.0, 1, 0.0, 0)

  function OneTry(): R.Try {
    R.Try([A.Task(1, None)], map[7 := A.Info(0, true)], [A.Task(1, None)], map[1 := 7], [7], [(1, 7)])
  }

  lemma OneBatch()
    ensures A.IsBatch([A.Task(1, None)], {7}, 1, [A.Task(1, None)])
    ensures A.IsRound([A.Task(1, None)], {7}, map[1 := 7])
  {
    var tasks, given: A.Given := [A.Task(1, None)], map[1 := 7];
    assert A.Picks(tasks, 1, {7}, 1, [0], tasks);
    assert 1 in A.Ids(tasks) by { assert tasks[0].id == 1; }
    assert A.Taken(given, 7) by { assert given[1] == 7; }
  }

  lemma OneUnpinned()
    ensures var tasks := [A.Task(1, None)];
            && A.Unpinned(tasks) == tasks && A.PinsOf(tasks) == {} && A.HasId(tasks, 1)
            && A.PlannedOnly(tasks, [(1, 7)], map[1 := 7])
  {
    var tasks, plan: A.Plan := [A.Task(1, None)], [(1, 7)];
    assert tasks[..0] == [];
    assert A.Unpinned(tasks) == tasks;
    assert A.PinsOf(tasks) == {};
    assert A.HasId(tasks, 1) by { assert tasks[0].id == 1; }
    assert plan[0].0 == 1;
    assert forall t :: t in tasks ==> t.id == 1;
  }

  lemma OneFollows()
    ensures A.Free(OneTry().robots) == {7}
    ensures A.Follows(A.Nearest, OneTry().batch, OneTry().robots, ServiceDown().dist, [7], [(1, 7)], map[1 := 7])
  {
    hide A.Unpinned, A.PinsOf, A.HasId, A.PlannedOnly, A.Better;
    OneUnpinned();
    assert A.Free(OneTry().robots) == {7};
    OneGreedy();
  }

  lemma OneGreedy()
    ensures A.Greedy(A.Nearest, OneTry().robots, ServiceDown().dist, OneTry().batch, [7], [(1, 7)])
  {
  }

  lemma OneMade()
    ensures R.Made(A.Nearest, ServiceDown().dist, 0, OneTry())
  {
    hide A.IsBatch, A.IsRound, A.Follows, A.Free;
    OneBatch();
    OneFollows();
  }

  lemma OneCandidate()
    ensures Ok(OneIdle()) && Candidates(IMPATIENT, OneIdle(), 0.0) == {7}
    ensures Waiting(ServiceDown(), OneIdle()) == OneTry().tasks && Infos(OneIdle(), {7}) == OneTry().robots
  {
    var t := OneIdle();
    assert Candidates(IMPATIENT, t, 0.0) == {7};
    assert Sorting.Sorted({1}) == [1];
    UncalledOne(1, map[], t.records);
  }

  lemma UncalledOne(x: Task, inflight: map<Task, Call>, records: map<Task, Record>)
    requires x !in inflight && x in records
    ensures Uncalled([x], inflight, records) == [A.Task(x, records[x].pinned)]
  {
    var order := [x];
    assert order[..|order| - 1] == [];
    assert order[|order| - 1] == x;
    assert Uncalled([], inflight, records) == [];
  }

  lemma OneItem()
    ensures OneTry().given.Keys == {1} && Sorting.Sorted({1}) == [1] && Items([1], OneTry().given) == [(1, 7)]
  {
    assert OneTry().given.Keys == {1};
    assert Sorting.Sorted({1}) == [1];
  }

  lemma OnePlan()
    ensures IsPlan(IMPATIENT, ServiceDown(), OneIdle(), [(1, 7)]) && ServiceDown().Valid()
  {
    hide Candidates, Infos, Waiting, R.Made, Ok, Items, OneIdle, Sorting.Sorted;
    OneMade();
    OneCandidate();
    OneItem();
    assert PlannedBy(IMPATIENT, ServiceDown(), OneIdle(), [(1, 7)], OneTry());
  }

  /** With a backoff of 0 the round that meets this robot never ends: every pass asks for another one. */
  lemma NeverEnds(ts: seq<Tables>, todos: seq<seq<(Task, Robot)>>)
    ensures Ok(OneIdle()) && ServiceDown().Valid() && IsPlan(IMPATIENT, ServiceDown(), OneIdle(), [(1, 7)])
    ensures Passes(IMPATIENT, ServiceDown(), ts, todos) && ts[0] == OneIdle() ==> AsksAgain(ServiceDown(), todos[|todos| - 1])
  {
    hide OneIdle, Ok, IsPlan, IsPass, AsksAgain;
    OnePlan();
    OneCandidate();
    var c, env := IMPATIENT, ServiceDown();
    if Passes(c, env, ts, todos) && ts[0] == OneIdle() {
      MissesToo(c, env, ts[0], [(1, 7)], todos[0]);
      FirstMissed(env, todos[0]);
      RoundEndsExactly(c, env, ts, todos);
    }
  }

  /** If one plan of a greedy strategy misses every robot, every plan for the same tables misses one. */
  lemma MissesToo(c: Config, env: Env, t: Tables, todo: seq<(Task, Robot)>, todo': seq<(Task, Robot)>)
    requires Ok(t) && env.Valid() && !env.latency && c.backoff <= 0.0 && !env.strategy.Optimum?
    requires IsPlan(c, env, t, todo) && IsPlan(c, env, t, todo') && Stuck(env, todo)
    ensures AsksAgain(env, todo')
  {
    hide Ok, IsPlan, Candidates, Unreached;
    PlanIsPlanned(c, env, t, todo);
    var u := Pass(c, t, env, todo, 0, |todo|);
    assert IsPass(c, env, t, todo, u);
    StuckRepeats(c, env, t, todo, u);
    AsksForEver(c, env, t, todo, u, todo');
  }
}
