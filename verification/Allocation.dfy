/** One allocation round: which tasks take part, and who gets them. */
module Allocation {
  import opened Assignment
  import opened Options
  import opened Sorting
  import Hungarian

  type TaskId = int
  type RobotId = int

  /** pin: the robot the task was requested for. */
  datatype Task = Task(id: TaskId, pin: Option<RobotId>)

  datatype Info = Info(load: int, available: bool)

  /** The approach distance of a robot to the pickup of a task. */
  type Distance = (RobotId, TaskId) -> real

  datatype Strategy = Nearest | LoadBalance | Optimum(speed: real)

  function Free(robots: map<RobotId, Info>): (free: set<RobotId>)
    ensures forall r :: r in free <==> r in robots && robots[r].available
  {
    set r | r in robots && robots[r].available
  }

  ghost predicate DistinctIds(tasks: seq<Task>) {
    forall i, j :: 0 <= i < j < |tasks| ==> tasks[i].id != tasks[j].id
  }

  // ---------------------------------------------------------------- choosing the batch

  /** Task j cannot take part: its robot is not free, or an earlier chosen task has it. */
  ghost predicate Blocked(tasks: seq<Task>, free: set<RobotId>, picks: seq<nat>, j: nat)
    requires j < |tasks|
  {
    tasks[j].pin.Some? &&
    (tasks[j].pin.value !in free || exists p :: p in picks && p < j && tasks[p].pin == tasks[j].pin)
  }

  ghost predicate Ascending(picks: seq<nat>, n: nat) {
    && (forall i :: 0 <= i < |picks| ==> picks[i] < n)
    && (forall i, j :: 0 <= i < j < |picks| ==> picks[i] < picks[j])
  }

  /**
   picks are the positions of the batch in the first n tasks: exactly those not blocked, from the
   front, until the limit is reached.
   */
  ghost predicate Picks(tasks: seq<Task>, n: nat, free: set<RobotId>, limit: int, picks: seq<nat>, batch: seq<Task>) {
    && n <= |tasks| && Ascending(picks, n) && |picks| == |batch| <= limit
    && (forall i :: 0 <= i < |picks| ==> batch[i] == tasks[picks[i]] && !Blocked(tasks, free, picks, picks[i]))
    && (forall j :: 0 <= j < n && j !in picks ==>
          Blocked(tasks, free, picks, j) || (|picks| == limit && forall i :: 0 <= i < |picks| ==> picks[i] < j))
  }

  ghost predicate IsBatch(tasks: seq<Task>, free: set<RobotId>, limit: int, batch: seq<Task>) {
    exists picks :: Picks(tasks, |tasks|, free, limit, picks, batch)
  }

  /** How many tasks may take part; none if nobody is free. */
  function Limit(k: int, free: set<RobotId>): int {
    if free == {} then 0 else if k > 0 then k else |free|
  }

  /** The robots pinned by a batch. */
  function PinsOf(batch: seq<Task>): (pins: set<RobotId>)
    ensures forall r :: r in pins <==> exists i :: 0 <= i < |batch| && batch[i].pin == Some(r)
  {
    if batch == [] then {}
    else
      var last := batch[|batch| - 1];
      PinsOf(batch[..|batch| - 1]) + if last.pin.Some? then {last.pin.value} else {}
  }

  /** Choosing a later task blocks none of the tasks before it. */
  lemma BlockedSame(tasks: seq<Task>, free: set<RobotId>, picks: seq<nat>, n: nat, j: nat)
    requires j <= n && j < |tasks|
    ensures Blocked(tasks, free, picks + [n], j) <==> Blocked(tasks, free, picks, j)
  {
    assert forall p: nat :: p in picks + [n] <==> p in picks || p == n;
  }

  /** The next task is blocked exactly if its robot is not free or among the pins of the batch. */
  lemma BlockedNext(tasks: seq<Task>, n: nat, free: set<RobotId>, limit: int, picks: seq<nat>, batch: seq<Task>)
    requires Picks(tasks, n, free, limit, picks, batch) && n < |tasks|
    ensures Blocked(tasks, free, picks, n) <==>
              tasks[n].pin.Some? && (tasks[n].pin.value !in free || tasks[n].pin.value in PinsOf(batch))
  {
    var t := tasks[n];
    if t.pin.Some? && t.pin.value in PinsOf(batch) {
      var i :| 0 <= i < |batch| && batch[i].pin == Some(t.pin.value);
      assert picks[i] in picks && picks[i] < n;
    }
    if t.pin.Some? && (exists p :: p in picks && p < n && tasks[p].pin == t.pin) {
      var p :| p in picks && p < n && tasks[p].pin == t.pin;
      var i :| 0 <= i < |picks| && picks[i] == p;
      assert batch[i].pin == Some(t.pin.value);
    }
  }

  lemma PickNext(tasks: seq<Task>, n: nat, free: set<RobotId>, limit: int, picks: seq<nat>, batch: seq<Task>)
    requires Picks(tasks, n, free, limit, picks, batch) && n < |tasks| && |batch| < limit
    ensures var t := tasks[n];
            if t.pin.Some? && (t.pin.value !in free || t.pin.value in PinsOf(batch))
            then Picks(tasks, n + 1, free, limit, picks, batch)
            else Picks(tasks, n + 1, free, limit, picks + [n], batch + [t])
  {
    hide Blocked;
    BlockedNext(tasks, n, free, limit, picks, batch);
    if !Blocked(tasks, free, picks, n) {
      PickAnother(tasks, n, free, limit, picks, batch);
    }
  }

  lemma PickAnother(tasks: seq<Task>, n: nat, free: set<RobotId>, limit: int, picks: seq<nat>, batch: seq<Task>)
    requires Picks(tasks, n, free, limit, picks, batch) && n < |tasks| && |batch| < limit
    requires !Blocked(tasks, free, picks, n)
    ensures Picks(tasks, n + 1, free, limit, picks + [n], batch + [tasks[n]])
  {
    hide Blocked;
    var more := picks + [n];
    assert Ascending(more, n + 1);
    forall i | 0 <= i < |more| ensures !Blocked(tasks, free, more, more[i]) {
      BlockedSame(tasks, free, picks, n, more[i]);
    }
    forall j | 0 <= j < n + 1 && j !in more ensures Blocked(tasks, free, more, j) {
      NotInLonger(picks, n, j);
      BlockedSame(tasks, free, picks, n, j);
    }
  }

  lemma NotInLonger(picks: seq<nat>, n: nat, j: nat)
    requires j !in picks + [n]
    ensures j !in picks && j != n
  {
    assert (picks + [n])[|picks|] == n;
    assert forall i :: 0 <= i < |picks| ==> (picks + [n])[i] == picks[i];
  }

  lemma PickNoMore(tasks: seq<Task>, n: nat, free: set<RobotId>, limit: int, picks: seq<nat>, batch: seq<Task>)
    requires Picks(tasks, n, free, limit, picks, batch) && |batch| >= limit
    ensures IsBatch(tasks, free, limit, batch)
  {
    assert Picks(tasks, |tasks|, free, limit, picks, batch);
  }

  /** The tasks of this round, in the order of the scheduler. */
  method SelectBatch(tasks: seq<Task>, robots: map<RobotId, Info>, k: int) returns (batch: seq<Task>)
    ensures IsBatch(tasks, Free(robots), Limit(k, Free(robots)), batch)
  {
    hide Picks, IsBatch;
    var free := Free(robots);
    var limit := if k > 0 then k else |free|;
    batch := [];
    ghost var picks: seq<nat> := [];
    StartPicks(tasks, free, Limit(k, free));
    if free == {} || limit <= 0 {
      PickNoMore(tasks, 0, free, Limit(k, free), picks, batch);
      return;
    }
    var taken: set<RobotId> := {};
    var n := 0;
    while n < |tasks|
      invariant 0 <= n <= |tasks| && taken == PinsOf(batch) && |batch| <= limit
      invariant Picks(tasks, n, free, limit, picks, batch)
    {
      if |batch| >= limit {
        PickNoMore(tasks, n, free, limit, picks, batch);
        return;
      }
      var task := tasks[n];
      PickNext(tasks, n, free, limit, picks, batch);
      assert (batch + [task])[..|batch|] == batch;
      if task.pin.Some? {
        if task.pin.value in free && task.pin.value !in taken {
          taken := taken + {task.pin.value};
          batch, picks := batch + [task], picks + [n];
        }
      } else {
        batch, picks := batch + [task], picks + [n];
      }
      n := n + 1;
    }
    EndPicks(tasks, free, limit, picks, batch);
  }

  lemma StartPicks(tasks: seq<Task>, free: set<RobotId>, limit: int)
    requires limit >= 0
    ensures Picks(tasks, 0, free, limit, [], [])
  {
  }

  lemma EndPicks(tasks: seq<Task>, free: set<RobotId>, limit: int, picks: seq<nat>, batch: seq<Task>)
    requires Picks(tasks, |tasks|, free, limit, picks, batch)
    ensures IsBatch(tasks, free, limit, batch)
  {
  }

  // ---------------------------------------------------------------- strategies

  /** Task and robot, in the order they are assigned. */
  type Plan = seq<(TaskId, RobotId)>

  ghost predicate HasId(tasks: seq<Task>, id: TaskId) {
    exists j :: 0 <= j < |tasks| && tasks[j].id == id
  }

  /** As many of the tasks as possible, each on a robot of the pool of its own. */
  ghost predicate IsPlan(tasks: seq<Task>, pool: seq<RobotId>, plan: Plan) {
    && |plan| == Smaller(|tasks|, |pool|)
    && (forall i :: 0 <= i < |plan| ==> plan[i].1 in pool && HasId(tasks, plan[i].0))
    && (forall i, j :: 0 <= i < j < |plan| ==> plan[i].0 != plan[j].0 && plan[i].1 != plan[j].1)
  }

  /** a is better for the task: smaller load if that counts, then nearer, then smaller id. */
  predicate Better(s: Strategy, robots: map<RobotId, Info>, dist: Distance, t: TaskId, a: RobotId, b: RobotId) {
    var la, lb := if a in robots && s.LoadBalance? then robots[a].load else 0,
                  if b in robots && s.LoadBalance? then robots[b].load else 0;
    la < lb || (la == lb && (dist(a, t) < dist(b, t) || (dist(a, t) == dist(b, t) && a < b)))
  }

  /** Each task in turn gets the best robot that no earlier task has. */
  ghost predicate Greedy(s: Strategy, robots: map<RobotId, Info>, dist: Distance, tasks: seq<Task>, pool: seq<RobotId>,
                         plan: Plan)
  {
    |plan| <= |tasks| &&
    forall i :: 0 <= i < |plan| ==> plan[i].0 == tasks[i].id && BestLeft(s, robots, dist, pool, plan, i, plan[i].1)
  }

  ghost predicate BestLeft(s: Strategy, robots: map<RobotId, Info>, dist: Distance, pool: seq<RobotId>, plan: Plan, i: nat,
                           best: RobotId)
    requires i < |plan|
  {
    best in pool && forall r :: r in pool && UnusedBefore(plan, i, r) ==> !Better(s, robots, dist, plan[i].0, r, best)
  }

  ghost predicate UnusedBefore(plan: Plan, i: int, r: RobotId) {
    forall j :: 0 <= j < i && j < |plan| ==> plan[j].1 != r
  }

  /** Nobody left is less loaded, where that counts, or nearer, or has a smaller id at the same load and distance. */
  lemma BestFirst(s: Strategy, robots: map<RobotId, Info>, dist: Distance, pool: seq<RobotId>, plan: Plan, i: nat, r: RobotId)
    requires i < |plan| && BestLeft(s, robots, dist, pool, plan, i, plan[i].1)
    requires r in pool && UnusedBefore(plan, i, r) && r in robots && plan[i].1 in robots && r != plan[i].1
    ensures var (x, best) := plan[i];
            if s.LoadBalance? && robots[best].load != robots[r].load then robots[best].load < robots[r].load
            else if dist(best, x) != dist(r, x) then dist(best, x) < dist(r, x)
            else best < r
  {
  }

  method Best(s: Strategy, robots: map<RobotId, Info>, dist: Distance, t: TaskId, pool: seq<RobotId>) returns (k: nat)
    requires pool != []
    ensures k < |pool| && forall r :: r in pool ==> !Better(s, robots, dist, t, r, pool[k])
  {
    k := 0;
    for i := 1 to |pool|
      invariant k < |pool| && forall j :: 0 <= j < i ==> !Better(s, robots, dist, t, pool[j], pool[k])
    {
      if Better(s, robots, dist, t, pool[i], pool[k]) {
        k := i;
      }
    }
  }

  ghost predicate DistinctRobots(pool: seq<RobotId>) {
    forall i, j :: 0 <= i < j < |pool| ==> pool[i] != pool[j]
  }

  /** The nearest or the least loaded robot, task by task. */
  method AssignGreedily(s: Strategy, tasks: seq<Task>, pool: seq<RobotId>, robots: map<RobotId, Info>, dist: Distance)
    returns (plan: Plan)
    requires DistinctIds(tasks) && DistinctRobots(pool)
    ensures IsPlan(tasks, pool, plan) && Greedy(s, robots, dist, tasks, pool, plan)
  {
    hide Greedy, Rest, IsPlan, Better, DistinctIds;
    plan := [];
    var left := pool;
    StartRest(s, robots, dist, tasks, pool);
    for i := 0 to |tasks|
      invariant |plan| == i && Rest(tasks, pool, plan, left) && Greedy(s, robots, dist, tasks, pool, plan)
    {
      if left == [] {
        break;
      }
      var k := Best(s, robots, dist, tasks[i].id, left);
      var best := left[k];
      RestMembers(tasks, pool, plan, left);
      GreedyOn(s, robots, dist, tasks, pool, plan, best);
      RestOn(tasks, pool, plan, left, k);
      plan, left := plan + [(tasks[i].id, best)], left[..k] + left[k + 1..];
    }
    RestPlan(tasks, pool, plan, left);
  }

  /** The plan uses robots of the pool for the first tasks, and left are the others. */
  ghost predicate Rest(tasks: seq<Task>, pool: seq<RobotId>, plan: Plan, left: seq<RobotId>) {
    && |plan| + |left| == |pool| && |plan| <= |tasks| && DistinctRobots(left)
    && (forall r :: r in left <==> r in pool && UnusedBefore(plan, |plan|, r))
    && (forall j :: 0 <= j < |plan| ==> plan[j].1 in pool && plan[j].0 == tasks[j].id)
    && (forall j, k :: 0 <= j < k < |plan| ==> plan[j].1 != plan[k].1)
  }

  lemma StartRest(s: Strategy, robots: map<RobotId, Info>, dist: Distance, tasks: seq<Task>, pool: seq<RobotId>)
    requires DistinctRobots(pool)
    ensures Rest(tasks, pool, [], pool) && Greedy(s, robots, dist, tasks, pool, [])
  {
  }

  lemma RestMembers(tasks: seq<Task>, pool: seq<RobotId>, plan: Plan, left: seq<RobotId>)
    requires Rest(tasks, pool, plan, left)
    ensures forall r :: r in left <==> r in pool && UnusedBefore(plan, |plan|, r)
  {
  }

  lemma RestOn(tasks: seq<Task>, pool: seq<RobotId>, plan: Plan, left: seq<RobotId>, k: nat)
    requires Rest(tasks, pool, plan, left) && |plan| < |tasks| && k < |left|
    ensures Rest(tasks, pool, plan + [(tasks[|plan|].id, left[k])], left[..k] + left[k + 1..])
  {
    Removed(left, k);
    var more := plan + [(tasks[|plan|].id, left[k])];
    assert left[k] in left;
    forall r ensures UnusedBefore(more, |more|, r) <==> UnusedBefore(plan, |plan|, r) && r != left[k] {
      assert more[|plan|].1 == left[k];
      assert forall j :: 0 <= j < |plan| ==> more[j] == plan[j];
    }
  }

  lemma RestPlan(tasks: seq<Task>, pool: seq<RobotId>, plan: Plan, left: seq<RobotId>)
    requires Rest(tasks, pool, plan, left) && DistinctIds(tasks) && (|plan| == |tasks| || left == [])
    ensures IsPlan(tasks, pool, plan)
  {
    forall i | 0 <= i < |plan| ensures HasId(tasks, plan[i].0) {
      assert tasks[i].id == plan[i].0;
    }
  }

  lemma GreedyOn(s: Strategy, robots: map<RobotId, Info>, dist: Distance, tasks: seq<Task>, pool: seq<RobotId>, plan: Plan,
                 best: RobotId)
    requires Greedy(s, robots, dist, tasks, pool, plan) && |plan| < |tasks| && best in pool
    requires forall r :: r in pool && UnusedBefore(plan, |plan|, r) ==>
               !Better(s, robots, dist, tasks[|plan|].id, r, best)
    ensures Greedy(s, robots, dist, tasks, pool, plan + [(tasks[|plan|].id, best)])
  {
    hide Better, BestLeft;
    var more := plan + [(tasks[|plan|].id, best)];
    BestLast(s, robots, dist, pool, plan, more, best);
    forall i | 0 <= i < |plan| ensures BestLeft(s, robots, dist, pool, more, i, more[i].1) {
      BestLeftSame(s, robots, dist, pool, plan, more, i, plan[i].1);
    }
  }

  lemma BestLeftSame(s: Strategy, robots: map<RobotId, Info>, dist: Distance, pool: seq<RobotId>, plan: Plan, more: Plan,
                     i: nat, best: RobotId)
    requires i < |plan| <= |more| && forall j :: 0 <= j < |plan| ==> more[j] == plan[j]
    requires BestLeft(s, robots, dist, pool, plan, i, best)
    ensures BestLeft(s, robots, dist, pool, more, i, best)
  {
    hide Better, UnusedBefore;
    forall r | r in pool && UnusedBefore(more, i, r) ensures !Better(s, robots, dist, more[i].0, r, best) {
      SameBefore(plan, more, i, r);
    }
  }

  lemma BestLast(s: Strategy, robots: map<RobotId, Info>, dist: Distance, pool: seq<RobotId>, plan: Plan, more: Plan,
                 best: RobotId)
    requires |more| == |plan| + 1 && (forall j :: 0 <= j < |plan| ==> more[j] == plan[j]) && best in pool
    requires forall r :: r in pool && UnusedBefore(plan, |plan|, r) ==> !Better(s, robots, dist, more[|plan|].0, r, best)
    ensures BestLeft(s, robots, dist, pool, more, |plan|, best)
  {
    hide Better, UnusedBefore;
    forall r | r in pool && UnusedBefore(more, |plan|, r) ensures !Better(s, robots, dist, more[|plan|].0, r, best) {
      SameBefore(plan, more, |plan|, r);
    }
  }

  lemma SameBefore(plan: Plan, more: Plan, i: int, r: RobotId)
    requires i <= |plan| <= |more| && forall j :: 0 <= j < |plan| ==> more[j] == plan[j]
    ensures UnusedBefore(more, i, r) <==> UnusedBefore(plan, i, r)
  {
  }

  lemma Removed(s: seq<RobotId>, k: nat)
    requires k < |s| && DistinctRobots(s)
    ensures var r := s[..k] + s[k + 1..];
            DistinctRobots(r) && forall x :: x in r <==> x in s && x != s[k]
  {
    var r := s[..k] + s[k + 1..];
    assert forall i :: 0 <= i < |r| ==> r[i] == s[if i < k then i else i + 1];
    forall x | x in s && x != s[k] ensures x in r {
      var i :| 0 <= i < |s| && s[i] == x;
      assert r[if i < k then i else i - 1] == x;
    }
  }

  function Costs(speed: real, tasks: seq<Task>, pool: seq<RobotId>, dist: Distance): (cost: Matrix)
    requires speed > 0.0
    ensures Rectangular(cost, |pool|, |tasks|)
    ensures forall r, c :: 0 <= r < |pool| && 0 <= c < |tasks| ==> cost[r][c] == dist(pool[r], tasks[c].id) / speed
  {
    seq(|pool|, r requires 0 <= r < |pool| =>
      seq(|tasks|, c requires 0 <= c < |tasks| => dist(pool[r], tasks[c].id) / speed))
  }

  ghost predicate Fits(pairs: Pairs, n: nat, m: nat) {
    forall k :: 0 <= k < |pairs| ==> pairs[k].0 < n && pairs[k].1 < m
  }

  function PlanOf(pairs: Pairs, tasks: seq<Task>, pool: seq<RobotId>): Plan
    requires Fits(pairs, |pool|, |tasks|)
  {
    seq(|pairs|, k requires 0 <= k < |pairs| => (tasks[pairs[k].1].id, pool[pairs[k].0]))
  }

  /** The plan of a cheapest pairing: no other pairing of as many takes less approach time in total. */
  ghost predicate Cheapest(speed: real, tasks: seq<Task>, pool: seq<RobotId>, dist: Distance, plan: Plan)
    requires speed > 0.0
  {
    exists pairs :: CheapestBy(speed, tasks, pool, dist, plan, pairs)
  }

  ghost predicate CheapestBy(speed: real, tasks: seq<Task>, pool: seq<RobotId>, dist: Distance, plan: Plan, pairs: Pairs)
    requires speed > 0.0
  {
    && Rectangular(Costs(speed, tasks, pool, dist), |pool|, Columns(Costs(speed, tasks, pool, dist)))
    && Fits(pairs, |pool|, |tasks|) && plan == PlanOf(pairs, tasks, pool)
    && Optimal(Costs(speed, tasks, pool, dist), pairs)
  }

  method AssignOptimally(speed: real, tasks: seq<Task>, pool: seq<RobotId>, dist: Distance) returns (plan: Plan)
    requires speed > 0.0 && DistinctIds(tasks) && DistinctRobots(pool)
    ensures IsPlan(tasks, pool, plan)
    ensures tasks != [] && pool != [] ==> Cheapest(speed, tasks, pool, dist, plan)
  {
    if tasks == [] || pool == [] {
      return [];
    }
    var cost := Costs(speed, tasks, pool, dist);
    assert Columns(cost) == |tasks|;
    var pairs := Hungarian.Hungarian(cost);
    assert Fits(pairs, |pool|, |tasks|);
    plan := PlanOf(pairs, tasks, pool);
    PairsPlan(pairs, tasks, pool);
    assert CheapestBy(speed, tasks, pool, dist, plan, pairs);
  }

  lemma PairsPlan(pairs: Pairs, tasks: seq<Task>, pool: seq<RobotId>)
    requires IsAssignment(pairs, |pool|, |tasks|) && DistinctIds(tasks) && DistinctRobots(pool)
    ensures Fits(pairs, |pool|, |tasks|) && IsPlan(tasks, pool, PlanOf(pairs, tasks, pool))
  {
    var plan := PlanOf(pairs, tasks, pool);
    forall i, j | 0 <= i < j < |plan| ensures plan[i].0 != plan[j].0 && plan[i].1 != plan[j].1 {
      var a, b, r, q := pairs[i].1, pairs[j].1, pairs[i].0, pairs[j].0;
      assert a != b && r != q;
      assert if a < b then tasks[a].id != tasks[b].id else tasks[b].id != tasks[a].id;
      assert if r < q then pool[r] != pool[q] else pool[q] != pool[r];
    }
  }

  method Assign(s: Strategy, tasks: seq<Task>, pool: seq<RobotId>, robots: map<RobotId, Info>, dist: Distance)
    returns (plan: Plan)
    requires DistinctIds(tasks) && DistinctRobots(pool) && (s.Optimum? ==> s.speed > 0.0)
    ensures IsPlan(tasks, pool, plan)
    ensures match s
            case Optimum(speed) => tasks != [] && pool != [] ==> Cheapest(speed, tasks, pool, dist, plan)
            case _ => Greedy(s, robots, dist, tasks, pool, plan)
  {
    match s {
      case Optimum(speed) => plan := AssignOptimally(speed, tasks, pool, dist);
      case _ => plan := AssignGreedily(s, tasks, pool, robots, dist);
    }
  }

  // ---------------------------------------------------------------- one round

  type Given = map<TaskId, RobotId>

  function Ids(tasks: seq<Task>): (ids: set<TaskId>)
    ensures forall t :: t in ids <==> exists j :: 0 <= j < |tasks| && tasks[j].id == t
  {
    set j | 0 <= j < |tasks| :: tasks[j].id
  }

  ghost predicate OneEach(a: Given) {
    forall t, u :: t in a && u in a && t != u ==> a[t] != a[u]
  }

  ghost predicate Taken(a: Given, r: RobotId) {
    exists t :: t in a && a[t] == r
  }

  /** The robots that have not been given a task. */
  ghost predicate StillFree(a: Given, all: set<RobotId>, free: set<RobotId>) {
    forall r :: r in free <==> r in all && !Taken(a, r)
  }

  /** The robot of a pinned task was given a task that is pinned to it. */
  ghost predicate PinServed(tasks: seq<Task>, a: Given, r: RobotId) {
    exists u :: u in tasks && u.pin == Some(r) && u.id in a
  }

  /** The pinned tasks among the first n have been given out, each to its robot while that was free. */
  ghost predicate Pinned(tasks: seq<Task>, n: nat, all: set<RobotId>, a: Given) {
    && n <= |tasks|
    && (forall t :: t in a ==> t in Ids(tasks[..n]) && a[t] in all)
    && (forall j :: 0 <= j < n && tasks[j].id in a ==> tasks[j].pin == Some(a[tasks[j].id]))
    && (forall j :: 0 <= j < n && tasks[j].pin.Some? && tasks[j].pin.value in all ==>
          PinServed(tasks[..n], a, tasks[j].pin.value))
  }

  /** The unpinned tasks among the first n, in order. */
  function Unpinned(tasks: seq<Task>): (u: seq<Task>)
    ensures forall t :: t in u <==> t in tasks && t.pin == None
  {
    if tasks == [] then []
    else
      var last := tasks[|tasks| - 1];
      Unpinned(tasks[..|tasks| - 1]) + if last.pin == None then [last] else []
  }

  /**
   What a round gives out: to each task one robot, to each robot one task, pinned tasks to their
   robots, and the unpinned tasks as long as there are robots.
   */
  ghost predicate IsRound(tasks: seq<Task>, all: set<RobotId>, a: Given) {
    && OneEach(a) && a.Keys <= Ids(tasks) && (forall t :: t in a ==> a[t] in all)
    && (forall t :: t in tasks && t.pin.Some? && t.id in a ==> a[t.id] == t.pin.value)
    && (forall t :: t in tasks && t.pin.Some? && t.pin.value in all ==> PinServed(tasks, a, t.pin.value))
    && ((forall t :: t in tasks && t.pin == None ==> t.id in a) || forall r :: r in all ==> Taken(a, r))
  }

  lemma GiveOne(a: Given, all: set<RobotId>, free: set<RobotId>, t: TaskId, r: RobotId)
    requires OneEach(a) && StillFree(a, all, free) && t !in a && r in free
    ensures OneEach(a[t := r]) && StillFree(a[t := r], all, free - {r})
  {
    var b := a[t := r];
    assert b[t] == r;
    forall x ensures Taken(b, x) <==> Taken(a, x) || x == r {
      if Taken(a, x) {
        var u :| u in a && a[u] == x;
        assert b[u] == x;
      }
    }
    forall u, v | u in b && v in b && u != v ensures b[u] != b[v] {
      assert u in a ==> Taken(a, a[u]);
      assert v in a ==> Taken(a, a[v]);
    }
  }

  lemma PinnedFresh(tasks: seq<Task>, n: nat, all: set<RobotId>, a: Given)
    requires DistinctIds(tasks) && n < |tasks| && Pinned(tasks, n, all, a)
    ensures tasks[n].id !in a
  {
    assert tasks[n].id in a ==> tasks[n].id in Ids(tasks[..n]);
  }

  lemma PrefixMembers(tasks: seq<Task>, n: nat)
    requires n < |tasks|
    ensures forall t :: t in tasks[..n + 1] <==> t in tasks[..n] || t == tasks[n]
    ensures Ids(tasks[..n + 1]) == Ids(tasks[..n]) + {tasks[n].id}
  {
    assert tasks[..n + 1] == tasks[..n] + [tasks[n]];
    var p, q := tasks[..n], tasks[..n + 1];
    forall x | x in Ids(p) ensures x in Ids(q) {
      var j :| 0 <= j < |p| && p[j].id == x;
      assert q[j].id == x;
    }
    assert q[n].id == tasks[n].id;
    forall x | x in Ids(q) ensures x in Ids(p) || x == tasks[n].id {
      var j :| 0 <= j < |q| && q[j].id == x;
      assert j < n ==> p[j].id == x;
    }
  }

  /** A task that is not pinned, or whose robot is gone, changes nothing. */
  lemma PinSkip(tasks: seq<Task>, n: nat, all: set<RobotId>, a: Given)
    requires DistinctIds(tasks) && n < |tasks| && Pinned(tasks, n, all, a)
    requires tasks[n].pin.Some? && tasks[n].pin.value in all ==> Taken(a, tasks[n].pin.value)
    ensures Pinned(tasks, n + 1, all, a)
  {
    PinnedFresh(tasks, n, all, a);
    PrefixMembers(tasks, n);
    forall j | 0 <= j < n + 1 && tasks[j].pin.Some? && tasks[j].pin.value in all
      ensures PinServed(tasks[..n + 1], a, tasks[j].pin.value)
    {
      if j == n {
        var t :| t in a && a[t] == tasks[n].pin.value;
        var i :| 0 <= i < |tasks[..n]| && tasks[..n][i].id == t;
        assert tasks[i] in tasks[..n + 1] && tasks[i].pin == Some(a[t]);
      } else {
        var u :| u in tasks[..n] && u.pin == Some(tasks[j].pin.value) && u.id in a;
        assert u in tasks[..n + 1];
      }
    }
  }

  lemma PinGive(tasks: seq<Task>, n: nat, all: set<RobotId>, a: Given)
    requires DistinctIds(tasks) && n < |tasks| && Pinned(tasks, n, all, a)
    requires tasks[n].pin.Some? && tasks[n].pin.value in all
    ensures Pinned(tasks, n + 1, all, a[tasks[n].id := tasks[n].pin.value])
  {
    PinnedFresh(tasks, n, all, a);
    PrefixMembers(tasks, n);
    var b := a[tasks[n].id := tasks[n].pin.value];
    forall j | 0 <= j < n + 1 && tasks[j].pin.Some? && tasks[j].pin.value in all
      ensures PinServed(tasks[..n + 1], b, tasks[j].pin.value)
    {
      if j == n {
        assert tasks[n] in tasks[..n + 1];
      } else {
        var u :| u in tasks[..n] && u.pin == Some(tasks[j].pin.value) && u.id in a;
        assert u in tasks[..n + 1];
      }
    }
  }

  function IdsInOrder(tasks: seq<Task>): seq<TaskId> {
    seq(|tasks|, i requires 0 <= i < |tasks| => tasks[i].id)
  }

  function TasksInOrder(plan: Plan): seq<TaskId> {
    seq(|plan|, i requires 0 <= i < |plan| => plan[i].0)
  }

  function RobotsInOrder(plan: Plan): seq<RobotId> {
    seq(|plan|, i requires 0 <= i < |plan| => plan[i].1)
  }

  /** A plan with as many entries as tasks covers every task; with as many as robots, every robot. */
  lemma PlanCovers(tasks: seq<Task>, pool: seq<RobotId>, plan: Plan)
    requires IsPlan(tasks, pool, plan) && DistinctIds(tasks) && DistinctRobots(pool)
    ensures (forall t :: t in tasks ==> t.id in TasksInOrder(plan)) ||
            (forall r :: r in pool ==> r in RobotsInOrder(plan))
  {
    var ts, rs, ids := TasksInOrder(plan), RobotsInOrder(plan), IdsInOrder(tasks);
    forall x | x in ts ensures x in ids {
      var i :| 0 <= i < |ts| && ts[i] == x;
      var j :| 0 <= j < |tasks| && tasks[j].id == plan[i].0;
      assert ids[j] == x;
    }
    if |plan| == |tasks| {
      SameMembers(ts, ids);
      forall t | t in tasks ensures t.id in ts {
        var j :| 0 <= j < |tasks| && tasks[j] == t;
        assert ids[j] in ids;
      }
    } else {
      SameMembers(rs, pool);
    }
  }

  /** As many different members among others. */
  lemma SameMembers(s: seq<int>, t: seq<int>)
    requires DistinctRobots(s) && DistinctRobots(t) && |s| == |t| && forall x :: x in s ==> x in t
    ensures forall x :: x in t ==> x in s
  {
    DistinctSize(s);
    DistinctSize(t);
    var a, b := Members(s), Members(t);
    assert b == a + (b - a);
    assert |b - a| == 0;
    assert a == b;
  }

  lemma {:induction false} DistinctSize(s: seq<int>)
    requires DistinctRobots(s)
    ensures |Members(s)| == |s|
  {
    if s == [] {
      assert Members(s) == {};
    } else {
      var n := |s| - 1;
      DistinctSize(s[..n]);
      assert Members(s) == Members(s[..n]) + {s[n]};
      assert s[n] !in s[..n];
    }
  }

  /** Adds the first n entries of the plan to what has been given out. */
  ghost predicate Added(base: Given, plan: Plan, n: nat, all: set<RobotId>, free: set<RobotId>, a: Given) {
    && n <= |plan| && OneEach(a) && StillFree(a, all, free)
    && (forall t :: t in base ==> t in a && a[t] == base[t])
    && (forall i :: 0 <= i < n ==> plan[i].0 in a && a[plan[i].0] == plan[i].1)
    && (forall t :: t in a ==> t in base || exists i :: 0 <= i < n && plan[i].0 == t)
    && (forall i :: n <= i < |plan| ==> plan[i].1 in free && plan[i].0 !in a)
  }

  lemma AddNext(base: Given, plan: Plan, n: nat, all: set<RobotId>, free: set<RobotId>, a: Given)
    requires Added(base, plan, n, all, free, a) && n < |plan|
    requires forall i, j :: 0 <= i < j < |plan| ==> plan[i].0 != plan[j].0 && plan[i].1 != plan[j].1
    ensures Added(base, plan, n + 1, all, free - {plan[n].1}, a[plan[n].0 := plan[n].1])
  {
    GiveOne(a, all, free, plan[n].0, plan[n].1);
  }

  /** One round: pinned tasks to their robots, the others as the strategy plans. */
  method Allocate(s: Strategy, tasks: seq<Task>, robots: map<RobotId, Info>, dist: Distance) returns (a: Given)
    requires DistinctIds(tasks) && (s.Optimum? ==> s.speed > 0.0)
    ensures IsRound(tasks, Free(robots), a)
    ensures exists pool, plan :: Follows(s, tasks, robots, dist, pool, plan, a)
  {
    hide OneEach, StillFree, Pinned, IsPlan, Greedy, Cheapest, Added, IsRound, UnpinnedPool, PlannedOnly;
    var all := Free(robots);
    var free := all;
    a := map[];
    NothingGiven(tasks, all);
    for n := 0 to |tasks|
      invariant Pinned(tasks, n, all, a) && OneEach(a) && StillFree(a, all, free)
    {
      var task := tasks[n];
      PinnedFresh(tasks, n, all, a);
      if task.pin.Some? {
        FreeMeaning(a, all, free, task.pin.value);
      }
      if task.pin.Some? && task.pin.value in free {
        PinGive(tasks, n, all, a);
        GiveOne(a, all, free, task.id, task.pin.value);
        a := a[task.id := task.pin.value];
        free := free - {task.pin.value};
      } else {
        PinSkip(tasks, n, all, a);
      }
    }
    var unpinned, pool := Unpinned(tasks), Sorted(free);
    UnpinnedDistinct(tasks);
    assert DistinctRobots(pool);
    var plan := Assign(s, unpinned, pool, robots, dist);
    ghost var base, free0 := a, free;
    NothingAdded(tasks, base, plan, all, free, unpinned, pool);
    for n := 0 to |plan|
      invariant Added(base, plan, n, all, free, a)
    {
      StillToAdd(base, plan, n, all, free, a);
      PlanApart(unpinned, pool, plan);
      if plan[n].1 in free && plan[n].0 !in a {
        AddNext(base, plan, n, all, free, a);
        a := a[plan[n].0 := plan[n].1];
        free := free - {plan[n].1};
      }
    }
    RoundDone(tasks, base, plan, all, free0, free, unpinned, pool, a);
    PoolIsUnpinned(tasks, all, base, free0, pool);
    OnlyPlanned(tasks, all, base, plan, free, a);
    PlanFollowed(s, tasks, robots, dist, base, plan, free, pool, a);
  }

  /** The robots that no task is pinned to. */
  ghost predicate UnpinnedPool(tasks: seq<Task>, all: set<RobotId>, pool: seq<RobotId>) {
    forall r :: r in pool <==> r in all && r !in PinsOf(tasks)
  }

  /** Unpinned tasks are given out by the plan only. */
  ghost predicate PlannedOnly(tasks: seq<Task>, plan: Plan, a: Given) {
    forall t :: t in tasks && t.pin == None && t.id in a ==> exists i :: 0 <= i < |plan| && plan[i].0 == t.id
  }

  lemma PoolIsUnpinned(tasks: seq<Task>, all: set<RobotId>, base: Given, free: set<RobotId>, pool: seq<RobotId>)
    requires Pinned(tasks, |tasks|, all, base) && StillFree(base, all, free) && pool == Sorted(free)
    ensures UnpinnedPool(tasks, all, pool)
  {
    hide PinsOf, Sorted;
    assert tasks[..|tasks|] == tasks;
    forall r | r in all ensures Taken(base, r) <==> r in PinsOf(tasks) {
      if Taken(base, r) {
        var t :| t in base && base[t] == r;
        var j :| 0 <= j < |tasks| && tasks[j].id == t;
      }
      if r in PinsOf(tasks) {
        var j :| 0 <= j < |tasks| && tasks[j].pin == Some(r);
        var u :| u in tasks && u.pin == Some(r) && u.id in base;
        assert base[u.id] == r;
      }
    }
  }

  lemma OnlyPlanned(tasks: seq<Task>, all: set<RobotId>, base: Given, plan: Plan, free: set<RobotId>, a: Given)
    requires Pinned(tasks, |tasks|, all, base) && Added(base, plan, |plan|, all, free, a)
    ensures PlannedOnly(tasks, plan, a)
  {
    hide StillFree, OneEach, PinServed;
    forall t | t in tasks && t.pin == None && t.id in a ensures exists i :: 0 <= i < |plan| && plan[i].0 == t.id {
      var j :| 0 <= j < |tasks| && tasks[j] == t;
      assert t.id !in base;
    }
  }

  /** The unpinned tasks are given out as the strategy plans them for the robots that no task is pinned to. */
  ghost predicate Follows(s: Strategy, tasks: seq<Task>, robots: map<RobotId, Info>, dist: Distance, pool: seq<RobotId>,
                          plan: Plan, a: Given)
  {
    && IsPlan(Unpinned(tasks), pool, plan) && UnpinnedPool(tasks, Free(robots), pool) && PlannedOnly(tasks, plan, a)
    && (forall i :: 0 <= i < |plan| ==> plan[i].0 in a && a[plan[i].0] == plan[i].1)
    && (match s
        case Optimum(speed) => speed > 0.0 && (plan != [] ==> Cheapest(speed, Unpinned(tasks), pool, dist, plan))
        case _ => Greedy(s, robots, dist, Unpinned(tasks), pool, plan))
  }

  lemma PlanFollowed(s: Strategy, tasks: seq<Task>, robots: map<RobotId, Info>, dist: Distance, base: Given, plan: Plan,
                     free: set<RobotId>, pool: seq<RobotId>, a: Given)
    requires IsPlan(Unpinned(tasks), pool, plan) && Added(base, plan, |plan|, Free(robots), free, a)
    requires UnpinnedPool(tasks, Free(robots), pool) && PlannedOnly(tasks, plan, a)
    requires match s
             case Optimum(speed) =>
               speed > 0.0 &&
               (Unpinned(tasks) != [] && pool != [] ==> Cheapest(speed, Unpinned(tasks), pool, dist, plan))
             case _ => Greedy(s, robots, dist, Unpinned(tasks), pool, plan)
    ensures Follows(s, tasks, robots, dist, pool, plan, a)
  {
    hide Cheapest, Greedy, UnpinnedPool, PlannedOnly;
  }

  lemma NothingGiven(tasks: seq<Task>, all: set<RobotId>)
    ensures Pinned(tasks, 0, all, map[]) && OneEach(map[]) && StillFree(map[], all, all)
  {
  }

  lemma FreeMeaning(a: Given, all: set<RobotId>, free: set<RobotId>, r: RobotId)
    requires StillFree(a, all, free)
    ensures r in free <==> r in all && !Taken(a, r)
  {
  }

  lemma {:induction false} UnpinnedDistinct(tasks: seq<Task>)
    requires DistinctIds(tasks)
    ensures DistinctIds(Unpinned(tasks))
  {
    if tasks != [] {
      var before, last := tasks[..|tasks| - 1], tasks[|tasks| - 1];
      UnpinnedDistinct(before);
      forall t | t in Unpinned(before) ensures t.id != last.id {
        var j :| 0 <= j < |before| && before[j] == t;
        assert tasks[j] == t;
      }
    }
  }

  lemma PlanApart(tasks: seq<Task>, pool: seq<RobotId>, plan: Plan)
    requires IsPlan(tasks, pool, plan)
    ensures forall i, j :: 0 <= i < j < |plan| ==> plan[i].0 != plan[j].0 && plan[i].1 != plan[j].1
  {
  }

  lemma StillToAdd(base: Given, plan: Plan, n: nat, all: set<RobotId>, free: set<RobotId>, a: Given)
    requires Added(base, plan, n, all, free, a) && n < |plan|
    ensures plan[n].1 in free && plan[n].0 !in a
  {
  }

  lemma NothingAdded(tasks: seq<Task>, base: Given, plan: Plan, all: set<RobotId>, free: set<RobotId>, unpinned: seq<Task>,
                     pool: seq<RobotId>)
    requires Pinned(tasks, |tasks|, all, base) && OneEach(base) && StillFree(base, all, free) && DistinctIds(tasks)
    requires unpinned == Unpinned(tasks) && pool == Sorted(free) && IsPlan(unpinned, pool, plan)
    ensures Added(base, plan, 0, all, free, base)
  {
    forall i | 0 <= i < |plan| ensures plan[i].0 !in base {
      var j :| 0 <= j < |unpinned| && unpinned[j].id == plan[i].0;
      assert unpinned[j] in tasks;
      var k :| 0 <= k < |tasks| && tasks[k] == unpinned[j];
    }
  }

  lemma RoundDone(tasks: seq<Task>, base: Given, plan: Plan, all: set<RobotId>, free0: set<RobotId>, free: set<RobotId>,
                  unpinned: seq<Task>, pool: seq<RobotId>, a: Given)
    requires Pinned(tasks, |tasks|, all, base) && StillFree(base, all, free0) && DistinctIds(tasks)
    requires unpinned == Unpinned(tasks) && pool == Sorted(free0) && IsPlan(unpinned, pool, plan)
    requires Added(base, plan, |plan|, all, free, a)
    ensures IsRound(tasks, all, a)
  {
    hide Pinned, IsPlan, Added, Unpinned, Sorted, StillFree, PinServed;
    forall r ensures r in free0 <==> r in all && !Taken(base, r) {
      FreeMeaning(base, all, free0, r);
    }
    UnpinnedDistinct(tasks);
    assert DistinctRobots(pool);
    PlanCovers(unpinned, pool, plan);
    OnlyTasks(tasks, base, plan, all, free, unpinned, pool, a);
    PinsKept(tasks, base, plan, all, free, unpinned, pool, a);
    PinsServed(tasks, base, plan, all, free, a);
    if forall t :: t in unpinned ==> t.id in TasksInOrder(plan) {
      forall t | t in tasks && t.pin == None ensures t.id in a {
        assert t in unpinned;
        TaskAdded(base, plan, all, free, a, t.id);
      }
    } else {
      forall r | r in all ensures Taken(a, r) {
        RobotAdded(base, plan, all, free, a, r);
      }
    }
  }

  lemma TaskAdded(base: Given, plan: Plan, all: set<RobotId>, free: set<RobotId>, a: Given, t: TaskId)
    requires Added(base, plan, |plan|, all, free, a) && t in TasksInOrder(plan)
    ensures t in a
  {
    var i :| 0 <= i < |TasksInOrder(plan)| && TasksInOrder(plan)[i] == t;
    assert plan[i].0 == t;
  }

  lemma RobotAdded(base: Given, plan: Plan, all: set<RobotId>, free: set<RobotId>, a: Given, r: RobotId)
    requires Added(base, plan, |plan|, all, free, a) && (Taken(base, r) || r in RobotsInOrder(plan))
    ensures Taken(a, r)
  {
    if Taken(base, r) {
      var t :| t in base && base[t] == r;
      assert a[t] == r;
    } else {
      var i :| 0 <= i < |RobotsInOrder(plan)| && RobotsInOrder(plan)[i] == r;
      var t := plan[i].0;
      assert t in a && a[t] == r;
    }
  }

  lemma OnlyTasks(tasks: seq<Task>, base: Given, plan: Plan, all: set<RobotId>, free: set<RobotId>, unpinned: seq<Task>,
                  pool: seq<RobotId>, a: Given)
    requires Pinned(tasks, |tasks|, all, base) && unpinned == Unpinned(tasks) && IsPlan(unpinned, pool, plan)
    requires Added(base, plan, |plan|, all, free, a) && forall r :: r in pool ==> r in all
    ensures OneEach(a) && a.Keys <= Ids(tasks) && forall t :: t in a ==> a[t] in all
  {
    assert tasks[..|tasks|] == tasks;
    forall t | t in a ensures t in Ids(tasks) && a[t] in all {
      if t !in base {
        var i :| 0 <= i < |plan| && plan[i].0 == t;
        var j :| 0 <= j < |unpinned| && unpinned[j].id == plan[i].0;
        assert unpinned[j] in tasks;
        var k :| 0 <= k < |tasks| && tasks[k] == unpinned[j];
      }
    }
  }

  lemma PinsServed(tasks: seq<Task>, base: Given, plan: Plan, all: set<RobotId>, free: set<RobotId>, a: Given)
    requires Pinned(tasks, |tasks|, all, base) && Added(base, plan, |plan|, all, free, a)
    ensures forall t :: t in tasks && t.pin.Some? && t.pin.value in all ==> PinServed(tasks, a, t.pin.value)
  {
    assert tasks[..|tasks|] == tasks;
    forall t | t in tasks && t.pin.Some? && t.pin.value in all ensures PinServed(tasks, a, t.pin.value) {
      var k :| 0 <= k < |tasks| && tasks[k] == t;
      var u :| u in tasks && u.pin == Some(t.pin.value) && u.id in base;
      assert u.id in a;
    }
  }

  lemma PinsKept(tasks: seq<Task>, base: Given, plan: Plan, all: set<RobotId>, free: set<RobotId>, unpinned: seq<Task>,
                 pool: seq<RobotId>, a: Given)
    requires Pinned(tasks, |tasks|, all, base) && DistinctIds(tasks) && unpinned == Unpinned(tasks)
    requires IsPlan(unpinned, pool, plan)
    requires Added(base, plan, |plan|, all, free, a)
    ensures forall t :: t in tasks && t.pin.Some? && t.id in a ==> a[t.id] == t.pin.value
  {
    forall t | t in tasks && t.pin.Some? && t.id in a ensures a[t.id] == t.pin.value {
      var k :| 0 <= k < |tasks| && tasks[k] == t;
      if t.id !in base {
        var i :| 0 <= i < |plan| && plan[i].0 == t.id;
        var j :| 0 <= j < |unpinned| && unpinned[j].id == plan[i].0;
        SameIdSameTask(tasks, t, unpinned[j]);
        assert false;
      }
    }
  }

  lemma SameIdSameTask(tasks: seq<Task>, t: Task, u: Task)
    requires DistinctIds(tasks) && t in tasks && u in tasks && t.id == u.id
    ensures t == u
  {
    var j :| 0 <= j < |tasks| && tasks[j] == t;
    var k :| 0 <= k < |tasks| && tasks[k] == u;
  }

  // ---------------------------------------------------------------- what a round achieves

  /** The robots that are given something. */
  ghost function RobotsOf(a: Given): (s: set<RobotId>)
    ensures forall r :: r in s <==> Taken(a, r)
  {
    set t | t in a :: a[t]
  }

  lemma NoRobots(a: Given)
    requires a.Keys == {}
    ensures RobotsOf(a) == {}
  {
  }

  lemma {:induction false} RobotCount(a: Given)
    requires OneEach(a)
    ensures |RobotsOf(a)| == |a.Keys|
    decreases a.Keys
  {
    hide RobotsOf, OneEach, Taken;
    if a.Keys == {} {
      NoRobots(a);
    } else {
      var t := Pick(a.Keys);
      var b := a - {t};
      RobotsWithout(a, t);
      RobotCount(b);
      assert a.Keys == b.Keys + {t};
    }
  }

  lemma RobotsWithout(a: Given, t: TaskId)
    requires OneEach(a) && t in a
    ensures RobotsOf(a) == RobotsOf(a - {t}) + {a[t]} && a[t] !in RobotsOf(a - {t}) && OneEach(a - {t})
  {
    var b := a - {t};
    forall r ensures r in RobotsOf(a) <==> r in RobotsOf(b) || r == a[t] {
      if Taken(a, r) {
        var u :| u in a && a[u] == r;
        assert u != t ==> u in b && b[u] == r;
      }
      if Taken(b, r) {
        var u :| u in b && b[u] == r;
        assert a[u] == r;
      }
    }
    assert !Taken(b, a[t]);
  }

  lemma {:induction false} IdsSize(tasks: seq<Task>)
    requires DistinctIds(tasks)
    ensures |Ids(tasks)| == |tasks|
  {
    DistinctSize(IdsInOrder(tasks));
    var s := IdsInOrder(tasks);
    forall x | x in Ids(tasks) ensures x in Members(s) {
      var j :| 0 <= j < |tasks| && tasks[j].id == x;
      assert s[j] == x;
    }
    forall x | x in Members(s) ensures x in Ids(tasks) {
      var j :| 0 <= j < |s| && s[j] == x;
      assert tasks[j].id == x;
    }
    assert Members(s) == Ids(tasks);
  }

  /** The tasks of a batch pinned somewhere are pinned to different free robots. */
  lemma BatchPins(tasks: seq<Task>, free: set<RobotId>, limit: int, batch: seq<Task>)
    requires IsBatch(tasks, free, limit, batch)
    ensures forall i :: 0 <= i < |batch| && batch[i].pin.Some? ==> batch[i].pin.value in free
    ensures forall i, j :: 0 <= i < j < |batch| && batch[i].pin.Some? ==> batch[i].pin != batch[j].pin
    ensures forall t :: t in batch ==> t in tasks
    ensures |batch| <= limit
  {
    var picks :| Picks(tasks, |tasks|, free, limit, picks, batch);
    forall i, j | 0 <= i < j < |batch| && batch[i].pin.Some? ensures batch[i].pin != batch[j].pin {
      assert !Blocked(tasks, free, picks, picks[j]) && picks[i] < picks[j] && picks[i] in picks;
    }
  }

  lemma BatchDistinct(tasks: seq<Task>, free: set<RobotId>, limit: int, batch: seq<Task>)
    requires IsBatch(tasks, free, limit, batch) && DistinctIds(tasks)
    ensures DistinctIds(batch) && forall t :: t in batch ==> t in tasks
  {
    BatchPins(tasks, free, limit, batch);
    var picks :| Picks(tasks, |tasks|, free, limit, picks, batch);
    forall i, j | 0 <= i < j < |batch| ensures batch[i].id != batch[j].id {
      assert picks[i] < picks[j];
    }
  }

  /** With no more tasks than free robots, every chosen task is given to a robot. */
  lemma AllServed(tasks: seq<Task>, free: set<RobotId>, limit: int, batch: seq<Task>, a: Given)
    requires IsBatch(tasks, free, limit, batch) && limit <= |free| && DistinctIds(batch) && IsRound(batch, free, a)
    ensures forall t :: t in batch ==> t.id in a
    ensures |a.Keys| == |batch|
  {
    hide IsBatch, Ids, RobotsOf;
    BatchPins(tasks, free, limit, batch);
    forall t | t in batch ensures t.id in a {
      if t.pin.Some? {
        var u :| u in batch && u.pin == t.pin && u.id in a;
        var i :| 0 <= i < |batch| && batch[i] == t;
        var j :| 0 <= j < |batch| && batch[j] == u;
      } else if t.id !in a {
        NotAllTaken(batch, free, a, t);
        assert false;
      }
    }
    IdsSize(batch);
    assert a.Keys == Ids(batch);
  }

  /** While a task of a batch no larger than the free robots has none, a free robot is left. */
  lemma NotAllTaken(batch: seq<Task>, free: set<RobotId>, a: Given, t: Task)
    requires DistinctIds(batch) && |batch| <= |free| && IsRound(batch, free, a) && t in batch && t.id !in a
    ensures !forall r :: r in free ==> Taken(a, r)
  {
    hide DistinctIds, OneEach, PinServed, RobotsOf, Ids;
    RobotCount(a);
    IdsSize(batch);
    var j :| 0 <= j < |batch| && batch[j] == t;
    SubsetSize(a.Keys + {t.id}, Ids(batch));
    if forall r :: r in free ==> Taken(a, r) {
      AllInRobotsOf(a, free);
      SubsetSize(free, RobotsOf(a));
      assert false;
    }
  }

  lemma AllInRobotsOf(a: Given, free: set<RobotId>)
    requires forall r :: r in free ==> Taken(a, r)
    ensures free <= RobotsOf(a)
  {
    forall r | r in free ensures r in RobotsOf(a) {
      assert Taken(a, r);
    }
  }

  /**
   Under the default limit a free robot is left without a task only if every unpinned task is
   given to a robot, and of every free robot that tasks are pinned to, one such task.
   */
  lemma IdleOnlyIfServed(tasks: seq<Task>, free: set<RobotId>, batch: seq<Task>, a: Given, idle: RobotId)
    requires IsBatch(tasks, free, |free|, batch) && DistinctIds(batch) && IsRound(batch, free, a)
    requires idle in free && !Taken(a, idle)
    ensures forall t :: t in tasks && t.pin == None ==> t.id in a
    ensures forall t :: t in tasks && t.pin.Some? && t.pin.value in free ==> PinServed(tasks, a, t.pin.value)
  {
    hide IsBatch, DistinctIds, IsRound, Taken;
    AllServed(tasks, free, |free|, batch, a);
    RoomLeft(batch, free, a, idle);
    BatchPins(tasks, free, |free|, batch);
    forall t | t in tasks && t.pin == None ensures t.id in a {
      InBatchOrPinned(tasks, free, |free|, batch, t);
    }
    forall t | t in tasks && t.pin.Some? && t.pin.value in free ensures PinServed(tasks, a, t.pin.value) {
      InBatchOrPinned(tasks, free, |free|, batch, t);
      var u :| u in batch && u.pin == t.pin;
      assert u in tasks && u.id in a;
    }
  }

  lemma RoomLeft(batch: seq<Task>, free: set<RobotId>, a: Given, idle: RobotId)
    requires IsRound(batch, free, a) && |a.Keys| == |batch| && idle in free && !Taken(a, idle)
    ensures |batch| < |free|
  {
    RobotCount(a);
    SubsetSize(RobotsOf(a) + {idle}, free);
  }

  /** With room left in the batch, a task is in it or its robot is not free or taken by a task of the batch. */
  lemma InBatchOrPinned(tasks: seq<Task>, free: set<RobotId>, limit: int, batch: seq<Task>, t: Task)
    requires IsBatch(tasks, free, limit, batch) && |batch| < limit && t in tasks
    ensures t in batch || (t.pin.Some? && (t.pin.value in free ==> exists u :: u in batch && u.pin == t.pin))
  {
    var picks :| Picks(tasks, |tasks|, free, limit, picks, batch);
    var j: nat :| j < |tasks| && tasks[j] == t;
    if j in picks {
      var i :| 0 <= i < |picks| && picks[i] == j;
      assert batch[i] == t;
    } else if t.pin.Some? && t.pin.value in free {
      var p :| p in picks && p < j && tasks[p].pin == tasks[j].pin;
      var i :| 0 <= i < |picks| && picks[i] == p;
      assert batch[i] in batch && batch[i].pin == t.pin;
    }
  }
}
