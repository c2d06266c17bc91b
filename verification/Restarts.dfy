/** What becomes of an allocation that starts over with the robots and tasks it did not call. */
module Restarts {
  import opened Allocation
  import opened Options
  import opened Sorting

  /** One allocation: the tasks in order, the robots, who took part, who got what and how it was planned. */
  datatype Try = Try(tasks: seq<Task>, robots: map<RobotId, Info>, batch: seq<Task>, given: Given, pool: seq<RobotId>,
                     plan: Plan)

  function Bound(k: int, o: Try): int {
    Limit(k, Free(o.robots))
  }

  ghost predicate Made(s: Strategy, dist: Distance, k: int, o: Try) {
    && DistinctIds(o.tasks) && IsBatch(o.tasks, Free(o.robots), Bound(k, o), o.batch)
    && IsRound(o.batch, Free(o.robots), o.given)
    && Follows(s, o.batch, o.robots, dist, o.pool, o.plan, o.given)
  }

  /** Some task is given to a robot that is not ready. */
  ghost predicate Misses(a: Given, ready: set<RobotId>) {
    exists x :: x in a && a[x] !in ready
  }

  /** The task has been given to a ready robot. */
  ghost predicate Reached(a: Given, ready: set<RobotId>, x: TaskId) {
    x in a && a[x] in ready
  }

  /** pos tells the order of the tasks. */
  ghost predicate InOrder(tasks: seq<Task>, pos: TaskId -> int) {
    forall i, j :: 0 <= i < j < |tasks| ==> pos(tasks[i].id) < pos(tasks[j].id)
  }

  /** o' starts over from o: tasks given to ready robots are gone, and so are those robots. */
  ghost predicate StartsOver(o: Try, ready: set<RobotId>, o': Try, pos: TaskId -> int) {
    && InOrder(o.tasks, pos) && InOrder(o'.tasks, pos) && TasksLeft(o.tasks, o.given, ready, o'.tasks)
    && RobotsLeft(o.robots, o.given, ready, o'.robots) && SameInfos(o.robots, o'.robots)
  }

  ghost predicate TasksLeft(tasks: seq<Task>, given: Given, ready: set<RobotId>, left: seq<Task>) {
    forall q :: q in left <==> q in tasks && !Reached(given, ready, q.id)
  }

  ghost predicate RobotsLeft(robots: map<RobotId, Info>, given: Given, ready: set<RobotId>, left: map<RobotId, Info>) {
    forall r :: r in Free(left) <==> r in Free(robots) && !(r in ready && Taken(given, r))
  }

  ghost predicate SameInfos(a: map<RobotId, Info>, b: map<RobotId, Info>) {
    forall r :: r in b && r in a ==> b[r] == a[r]
  }

  // ---------------------------------------------------------------- batches, by order

  /** Task q does not take part although it waits: its robot is not free or taken before, or the batch is full before it. */
  ghost predicate Skipped(o: Try, k: int, pos: TaskId -> int, q: Task) {
    || (q.pin.Some? && (q.pin.value !in Free(o.robots) ||
                        exists z :: z in o.batch && z.pin == q.pin && pos(z.id) < pos(q.id)))
    || (|o.batch| == Bound(k, o) && forall b :: b in o.batch ==> pos(b.id) < pos(q.id))
  }

  lemma BatchOrSkipped(o: Try, k: int, pos: TaskId -> int, q: Task)
    requires InOrder(o.tasks, pos) && IsBatch(o.tasks, Free(o.robots), Bound(k, o), o.batch) && q in o.tasks
    ensures q in o.batch || Skipped(o, k, pos, q)
  {
    hide Free, Bound;
    var free, limit := Free(o.robots), Bound(k, o);
    var picks :| Picks(o.tasks, |o.tasks|, free, limit, picks, o.batch);
    var j: nat :| j < |o.tasks| && o.tasks[j] == q;
    if j in picks {
      var i :| 0 <= i < |picks| && picks[i] == j;
      assert o.batch[i] == q;
    } else if Blocked(o.tasks, free, picks, j) {
      if q.pin.value in free {
        var p :| p in picks && p < j && o.tasks[p].pin == q.pin;
        PickedBefore(o, free, limit, picks, pos, p, j);
      }
    } else {
      forall b | b in o.batch ensures pos(b.id) < pos(q.id) {
        var i :| 0 <= i < |o.batch| && o.batch[i] == b;
        assert picks[i] < j;
      }
    }
  }

  lemma PickedBefore(o: Try, free: set<RobotId>, limit: int, picks: seq<nat>, pos: TaskId -> int, p: nat, j: nat)
    requires Picks(o.tasks, |o.tasks|, free, limit, picks, o.batch) && InOrder(o.tasks, pos)
    requires p in picks && p < j < |o.tasks|
    ensures o.tasks[p] in o.batch && pos(o.tasks[p].id) < pos(o.tasks[j].id)
  {
    hide Blocked;
    var i :| 0 <= i < |picks| && picks[i] == p;
    assert o.batch[i] == o.tasks[p];
  }

  /** The pins of a batch are free and different; whoever is pinned in it gets that robot. */
  lemma PinnedGets(o: Try, k: int, z: Task)
    requires IsBatch(o.tasks, Free(o.robots), Bound(k, o), o.batch) && IsRound(o.batch, Free(o.robots), o.given)
    requires z in o.batch && z.pin.Some?
    ensures z.pin.value in Free(o.robots) && z.id in o.given && o.given[z.id] == z.pin.value
    ensures forall y :: y in o.batch && y.pin == z.pin ==> y == z
  {
    hide IsBatch, Free, Bound, Ids, OneEach, Taken;
    BatchPins(o.tasks, Free(o.robots), Bound(k, o), o.batch);
    var i :| 0 <= i < |o.batch| && o.batch[i] == z;
    forall y | y in o.batch && y.pin == z.pin ensures y == z {
      var j :| 0 <= j < |o.batch| && o.batch[j] == y;
      assert i < j || j < i || i == j;
    }
    var u :| u in o.batch && u.pin == Some(z.pin.value) && u.id in o.given;
    assert u == z;
  }

  lemma InBatch(o: Try, k: int, b: Task)
    requires IsBatch(o.tasks, Free(o.robots), Bound(k, o), o.batch) && b in o.batch
    ensures b in o.tasks && |o.batch| <= Bound(k, o)
  {
    BatchPins(o.tasks, Free(o.robots), Bound(k, o), o.batch);
  }

  lemma GivenFromBatch(o: Try, x: TaskId) returns (t: Task)
    requires IsRound(o.batch, Free(o.robots), o.given) && x in o.given
    ensures t in o.batch && t.id == x && (t.pin.Some? ==> t.pin.value == o.given[x])
    ensures o.given[x] in Free(o.robots)
  {
    assert x in Ids(o.batch);
    var j :| 0 <= j < |o.batch| && o.batch[j].id == x;
    t := o.batch[j];
  }

  // ---------------------------------------------------------------- starting over

  ghost predicate Allocated(k: int, o: Try) {
    DistinctIds(o.tasks) && IsBatch(o.tasks, Free(o.robots), Bound(k, o), o.batch) && IsRound(o.batch, Free(o.robots), o.given)
  }

  /** A robot given to somebody is free in the next try exactly if it was not ready. */
  lemma StaysFree(o: Try, o': Try, ready: set<RobotId>, pos: TaskId -> int, x: TaskId)
    requires StartsOver(o, ready, o', pos) && x in o.given && o.given[x] in Free(o.robots)
    ensures o.given[x] in Free(o'.robots) <==> o.given[x] !in ready
  {
    hide Free;
    assert Taken(o.given, o.given[x]);
  }

  lemma StillWaits(o: Try, o': Try, ready: set<RobotId>, pos: TaskId -> int, q: Task)
    requires StartsOver(o, ready, o', pos) && q in o.tasks && !Reached(o.given, ready, q.id)
    ensures q in o'.tasks
  {
  }

  /** In the next try nobody takes part before a left task who did not before. */
  lemma TookPart(k: int, o: Try, o': Try, ready: set<RobotId>, pos: TaskId -> int, x: Task, q: Task)
    requires Allocated(k, o) && Allocated(k, o') && StartsOver(o, ready, o', pos)
    requires x in o.batch && q in o'.batch && pos(q.id) < pos(x.id)
    ensures q in o.batch
  {
    hide IsBatch, IsRound, Free, Bound, DistinctIds;
    InBatch(o', k, q);
    BatchOrSkipped(o, k, pos, q);
    if q !in o.batch {
      if q.pin.Some? {
        PinnedGets(o', k, q);
      }
      var z :| z in o.batch && z.pin == q.pin && pos(z.id) < pos(q.id);
      PinnedGets(o, k, z);
      StaysFree(o, o', ready, pos, z.id);
      InBatch(o, k, z);
      StillWaits(o, o', ready, pos, z);
      BatchOrSkipped(o', k, pos, z);
      assert false;
    }
  }

  /** The next batch is not full before a task that was given to an unready robot, unless it misses again. */
  lemma NotFullBefore(k: int, o: Try, o': Try, ready: set<RobotId>, pos: TaskId -> int, x: Task)
    requires Allocated(k, o) && Allocated(k, o') && StartsOver(o, ready, o', pos)
    requires x in o.batch && x.id in o.given && o.given[x.id] !in ready && o.given[x.id] in Free(o.robots)
    requires !Misses(o'.given, ready)
    ensures !(|o'.batch| == Bound(k, o') && forall b :: b in o'.batch ==> pos(b.id) < pos(x.id))
  {
    hide IsBatch, IsRound, Free, DistinctIds;
    var u := o.given[x.id];
    StaysFree(o, o', ready, pos, x.id);
    if |o'.batch| == Bound(k, o') && forall b :: b in o'.batch ==> pos(b.id) < pos(x.id) {
      forall q | q in o'.batch ensures q in o.batch && q.id != x.id {
        TookPart(k, o, o', ready, pos, x, q);
      }
      SmallerBatch(k, o, o', x);
      InBatch(o, k, x);
      if k <= 0 {
        NoneLeft(k, o', u);
        assert false;
      } else {
        assert false;
      }
    }
  }

  lemma SmallerBatch(k: int, o: Try, o': Try, x: Task)
    requires Allocated(k, o) && Allocated(k, o') && x in o.batch && forall q :: q in o'.batch ==> q in o.batch && q.id != x.id
    ensures |o'.batch| < |o.batch|
  {
    BatchDistinct(o.tasks, Free(o.robots), Bound(k, o), o.batch);
    BatchDistinct(o'.tasks, Free(o'.robots), Bound(k, o'), o'.batch);
    hide IsBatch, IsRound, Free, Bound, DistinctIds;
    FewerTasks(o.batch, o'.batch, x);
  }

  lemma FewerTasks(a: seq<Task>, b: seq<Task>, x: Task)
    requires DistinctIds(a) && DistinctIds(b) && x in a && forall q :: q in b ==> q in a && q.id != x.id
    ensures |b| < |a|
  {
    hide DistinctIds, Ids;
    IdsSize(a);
    IdsSize(b);
    var j :| 0 <= j < |a| && a[j] == x;
    forall i | i in Ids(b) ensures i in Ids(a) && i != x.id {
      var h :| 0 <= h < |b| && b[h].id == i;
      assert b[h] in b;
      var g :| 0 <= g < |a| && a[g] == b[h];
    }
    SubsetSize(Ids(b) + {x.id}, Ids(a));
  }

  /** If as many take part as robots are free, every free robot is given to somebody. */
  lemma NoneLeft(k: int, o: Try, u: RobotId)
    requires Allocated(k, o) && |o.batch| == Bound(k, o) && k <= 0 && u in Free(o.robots)
    ensures Taken(o.given, u)
  {
    BatchDistinct(o.tasks, Free(o.robots), Bound(k, o), o.batch);
    hide IsBatch, IsRound, Free, DistinctIds;
    AllServed(o.tasks, Free(o.robots), Bound(k, o), o.batch, o.given);
    if !Taken(o.given, u) {
      RoomLeft(o.batch, Free(o.robots), o.given, u);
    }
  }

  // ---------------------------------------------------------------- the greedy strategies miss again

  /** Who took u before the pinned tasks or in the plan: nobody but the unready keep it from being chosen again. */
  lemma InPool(s: Strategy, dist: Distance, k: int, o: Try, r: RobotId, j: nat)
    requires Made(s, dist, k, o) && r in Free(o.robots) && j < |o.plan|
    requires forall x :: x in o.given && o.given[x] == r ==> o.plan[j].0 == x
    requires forall t :: t in o.batch && t.pin == Some(r) ==> t.id !in o.given
    ensures r in o.pool && UnusedBefore(o.plan, j, r)
  {
    hide IsBatch, Free, Bound, DistinctIds;
    if r in PinsOf(o.batch) {
      var i :| 0 <= i < |o.batch| && o.batch[i].pin == Some(r);
      PinnedGets(o, k, o.batch[i]);
      assert false;
    }
    forall i | 0 <= i < j && i < |o.plan| ensures o.plan[i].1 != r {
    }
  }

  lemma BestOf(s: Strategy, dist: Distance, k: int, o: Try, t: Task, r: RobotId)
    requires Made(s, dist, k, o) && !s.Optimum? && t in o.batch && t.pin == None && t.id in o.given
    requires r in Free(o.robots) && r != o.given[t.id] && !Taken(o.given, r)
    ensures !Better(s, o.robots, dist, t.id, r, o.given[t.id])
  {
    hide IsBatch, Free, Bound, DistinctIds, Better;
    var j :| 0 <= j < |o.plan| && o.plan[j].0 == t.id;
    InPool(s, dist, k, o, r, j);
    assert BestLeft(s, o.robots, dist, o.pool, o.plan, j, o.plan[j].1);
  }

  lemma BetterTotal(s: Strategy, a: map<RobotId, Info>, b: map<RobotId, Info>, dist: Distance, t: TaskId, u: RobotId, v: RobotId)
    requires u != v && u in a && u in b && v in a && v in b && a[u] == b[u] && a[v] == b[v]
    ensures Better(s, a, dist, t, u, v) || Better(s, b, dist, t, v, u)
  {
  }

  /** An unpinned task left over gets the same robot again, or another unready one is given to somebody. */
  lemma UnpinnedAgain(s: Strategy, dist: Distance, k: int, o: Try, o': Try, ready: set<RobotId>, pos: TaskId -> int, x: Task)
    requires Made(s, dist, k, o) && Made(s, dist, k, o') && StartsOver(o, ready, o', pos) && !s.Optimum?
    requires x in o.batch && x.pin == None && x.id in o.given && o.given[x.id] !in ready && x in o'.batch
    ensures Misses(o'.given, ready)
  {
    hide IsBatch, Bound, DistinctIds, Follows, Better;
    var u := o.given[x.id];
    StaysFree(o, o', ready, pos, x.id);
    if !Misses(o'.given, ready) {
      assert !Taken(o'.given, u);
      assert x.id in o'.given;
      var v := o'.given[x.id];
      assert !Taken(o.given, v);
      BestOf(s, dist, k, o, x, v);
      BestOf(s, dist, k, o', x, u);
      BetterTotal(s, o.robots, o'.robots, dist, x.id, v, u);
      assert false;
    }
  }

  /**
   A try of a greedy strategy that gives a task to an unready robot is followed, when it starts
   over, by another such try.
   */
  lemma MissesAgain(s: Strategy, dist: Distance, k: int, o: Try, o': Try, ready: set<RobotId>, pos: TaskId -> int)
    requires Made(s, dist, k, o) && Made(s, dist, k, o') && StartsOver(o, ready, o', pos) && !s.Optimum?
    requires Misses(o.given, ready)
    ensures Misses(o'.given, ready)
  {
    hide IsBatch, IsRound, Free, Bound, DistinctIds, Follows;
    var i :| i in o.given && o.given[i] !in ready;
    var x := GivenFromBatch(o, i);
    InBatch(o, k, x);
    StaysFree(o, o', ready, pos, i);
    StillWaits(o, o', ready, pos, x);
    BatchOrSkipped(o', k, pos, x);
    if !Misses(o'.given, ready) {
      NotFullBefore(k, o, o', ready, pos, x);
      if x.pin.Some? {
        PinAgain(k, o', x, pos);
        assert false;
      } else {
        UnpinnedAgain(s, dist, k, o, o', ready, pos, x);
      }
    }
  }

  lemma PinAgain(k: int, o: Try, x: Task, pos: TaskId -> int)
    requires Allocated(k, o) && x.pin.Some? && x.pin.value in Free(o.robots)
    requires x in o.batch || exists z :: z in o.batch && z.pin == x.pin && pos(z.id) < pos(x.id)
    ensures exists i :: i in o.given && o.given[i] == x.pin.value
  {
    hide IsBatch, IsRound, Free, Bound, DistinctIds;
    var z :| z in o.batch && z.pin == x.pin;
    PinnedGets(o, k, z);
  }
}
