/** The life of a task, as its status events tell it. */
module TaskLife {
  import opened Options

  type Task = int
  type Robot = int

  datatype Status = Pending | InProgress | Completed | Failed

  /** owner: the robot that runs the task, or the one it is pinned to while it waits. */
  datatype Record = Record(status: Status, owner: Option<Robot>, pinned: Option<Robot>, attempts: nat, failures: nat,
                           startTime: Option<real>, commandTime: Option<real>)

  /** One status event. */
  datatype Change = Change(task: Task, before: Status, after: Status, robot: Option<Robot>)

  /** What the events so far say of one task; failures counts its failed events. */
  datatype Life =
    | NotYet
    | Waiting(failures: nat)
    | Running(owner: Robot, failures: nat)
    | Done
    | Dead(failures: nat)
    | Impossible

  /**
   The legal events: a running task is completed or failed by the robot that runs it, and a failed
   one waits again at most as often as retries are allowed.
   */
  function Live(l: Life, e: Change, maxRetries: nat): Life {
    match l
    case NotYet => if e.before == Pending && e.after == Pending then Waiting(0) else Impossible
    case Waiting(f) =>
      if e.before != Pending then Impossible
      else if e.after == InProgress && e.robot.Some? then Running(e.robot.value, f)
      else if e.after == Failed then Dead(f + 1)
      else Impossible
    case Running(owner, f) =>
      if e.before != InProgress || e.robot != Some(owner) then Impossible
      else if e.after == Completed then Done
      else if e.after == Failed then Dead(f + 1)
      else Impossible
    case Dead(f) => if e.before == Failed && e.after == Pending && f <= maxRetries then Waiting(f) else Impossible
    case _ => Impossible
  }

  function LifeOf(log: seq<Change>, t: Task, maxRetries: nat): Life {
    if log == [] then NotYet
    else
      var l, e := LifeOf(log[..|log| - 1], t, maxRetries), log[|log| - 1];
      if e.task == t then Live(l, e, maxRetries) else l
  }

  lemma LifeOn(log: seq<Change>, e: Change, t: Task, maxRetries: nat)
    ensures LifeOf(log + [e], t, maxRetries) ==
              (if e.task == t then Live(LifeOf(log, t, maxRetries), e, maxRetries) else LifeOf(log, t, maxRetries))
  {
    assert (log + [e])[..|log|] == log;
  }

  /** The life the record of a task stands for. */
  function RecordedLife(records: map<Task, Record>, t: Task): Life {
    if t !in records then NotYet
    else
      var r := records[t];
      match r.status
      case Pending => Waiting(r.failures)
      case InProgress => if r.owner.Some? then Running(r.owner.value, r.failures) else Impossible
      case Completed => Done
      case Failed => Dead(r.failures)
  }

  /** The events tell exactly what the records say. */
  ghost predicate Told(records: map<Task, Record>, log: seq<Change>, maxRetries: nat) {
    forall t: Task :: LifeOf(log, t, maxRetries) == RecordedLife(records, t)
  }

  /** A record changed along a legal event keeps the telling right. */
  lemma ToldOn(records: map<Task, Record>, log: seq<Change>, maxRetries: nat, t: Task, r: Record, e: Change)
    requires Told(records, log, maxRetries) && e.task == t
    requires Live(RecordedLife(records, t), e, maxRetries) == RecordedLife(records[t := r], t)
    ensures Told(records[t := r], log + [e], maxRetries)
  {
    forall u: Task ensures LifeOf(log + [e], u, maxRetries) == RecordedLife(records[t := r], u) {
      LifeOn(log, e, u, maxRetries);
      assert LifeOf(log, u, maxRetries) == RecordedLife(records, u);
    }
  }

  // ---------------------------------------------------------------- what a legal life excludes

  function Count(log: seq<Change>, t: Task, before: Status, after: Status): nat {
    if log == [] then 0
    else
      var e := log[|log| - 1];
      Count(log[..|log| - 1], t, before, after) + if e.task == t && e.before == before && e.after == after then 1 else 0
  }

  /** The failures counted by a life that has not gone wrong. */
  function FailuresOf(l: Life): nat {
    match l
    case Waiting(f) => f
    case Running(_, f) => f
    case Dead(f) => f
    case _ => 0
  }

  lemma {:induction false} ImpossibleStays(log: seq<Change>, t: Task, maxRetries: nat, n: nat)
    requires n <= |log| && LifeOf(log, t, maxRetries) != Impossible
    ensures LifeOf(log[..n], t, maxRetries) != Impossible
    decreases |log|
  {
    if n == |log| {
      assert log[..n] == log;
    } else {
      assert log[..|log| - 1][..n] == log[..n];
      ImpossibleStays(log[..|log| - 1], t, maxRetries, n);
    }
  }

  /** In a legal life a task is retried at most maxRetries times. */
  lemma {:induction false} RetriesBounded(log: seq<Change>, t: Task, maxRetries: nat)
    requires LifeOf(log, t, maxRetries) != Impossible
    ensures Count(log, t, Failed, Pending) <= maxRetries
    ensures match LifeOf(log, t, maxRetries)
            case NotYet => Count(log, t, Failed, Pending) == 0
            case Waiting(f) => Count(log, t, Failed, Pending) == f
            case Running(_, f) => Count(log, t, Failed, Pending) == f
            case Dead(f) => f > 0 && Count(log, t, Failed, Pending) == f - 1
            case _ => true
    ensures !LifeOf(log, t, maxRetries).Dead? ==> FailuresOf(LifeOf(log, t, maxRetries)) <= maxRetries
    ensures LifeOf(log, t, maxRetries).Dead? ==> LifeOf(log, t, maxRetries).failures <= maxRetries + 1
  {
    if log != [] {
      ImpossibleStays(log, t, maxRetries, |log| - 1);
      RetriesBounded(log[..|log| - 1], t, maxRetries);
    }
  }

  /** Between two starts of a task on different robots lies a retry. */
  lemma {:induction false} OwnerChangesByRetry(log: seq<Change>, t: Task, maxRetries: nat, i: nat)
    requires LifeOf(log, t, maxRetries) != Impossible && i <= |log|
    requires LifeOf(log, t, maxRetries).Running? && LifeOf(log[..i], t, maxRetries).Running?
    requires LifeOf(log, t, maxRetries).owner != LifeOf(log[..i], t, maxRetries).owner
    ensures RetriedSince(log, t, i)
  {
    if !RetriedSince(log, t, i) {
      WaitsBetween(log, t, maxRetries, i);
    }
  }

  /** After the first i events, task t went from failed back to waiting. */
  ghost predicate RetriedSince(log: seq<Change>, t: Task, i: nat) {
    exists k :: i <= k < |log| && log[k].task == t && log[k].before == Failed && log[k].after == Pending
  }

  lemma {:induction false} WaitsBetween(log: seq<Change>, t: Task, maxRetries: nat, i: nat)
    requires LifeOf(log, t, maxRetries) != Impossible && i <= |log| && LifeOf(log[..i], t, maxRetries).Running?
    requires !RetriedSince(log, t, i)
    ensures var l := LifeOf(log, t, maxRetries);
            l == LifeOf(log[..i], t, maxRetries) || l.Done? || l.Dead?
    decreases |log|
  {
    if i == |log| {
      assert log[..i] == log;
    } else {
      var n := |log| - 1;
      ImpossibleStays(log, t, maxRetries, n);
      assert log[..n][..i] == log[..i];
      assert forall k :: 0 <= k < n ==> log[..n][k] == log[k];
      WaitsBetween(log[..n], t, maxRetries, i);
      assert !(log[n].task == t && log[n].before == Failed && log[n].after == Pending);
    }
  }

  ghost predicate StartsAt(log: seq<Change>, t: Task, i: nat) {
    i < |log| && log[i].task == t && log[i].before == Pending && log[i].after == InProgress
  }

  /** Between two starts of a task lies a retry, whichever robots start it. */
  lemma StartsApart(log: seq<Change>, t: Task, maxRetries: nat, i: nat, j: nat)
    requires LifeOf(log, t, maxRetries) != Impossible && i < j && StartsAt(log, t, i) && StartsAt(log, t, j)
    ensures RetriedSince(log[..j], t, i + 1)
  {
    ImpossibleStays(log, t, maxRetries, j + 1);
    ImpossibleStays(log, t, maxRetries, j);
    ImpossibleStays(log, t, maxRetries, i + 1);
    assert log[..i + 1][..i] == log[..i] && log[..j + 1][..j] == log[..j] && log[..j][..i + 1] == log[..i + 1];
    assert LifeOf(log[..i + 1], t, maxRetries).Running?;
    assert LifeOf(log[..j], t, maxRetries).Waiting?;
    if !RetriedSince(log[..j], t, i + 1) {
      WaitsBetween(log[..j], t, maxRetries, i + 1);
    }
  }

  /** The task starts at k and nothing is told of it between that and i. */
  ghost predicate LastStart(log: seq<Change>, t: Task, k: nat, i: nat) {
    k < i <= |log| && StartsAt(log, t, k) && forall j :: k < j < i ==> log[j].task != t
  }

  ghost predicate EndsAt(log: seq<Change>, t: Task, i: nat) {
    i < |log| && log[i].task == t && log[i].before == InProgress
  }

  lemma {:induction false} RunningSince(log: seq<Change>, t: Task, maxRetries: nat) returns (k: nat)
    requires LifeOf(log, t, maxRetries).Running?
    ensures LastStart(log, t, k, |log|) && log[k].robot == Some(LifeOf(log, t, maxRetries).owner)
  {
    var n := |log| - 1;
    if log[n].task == t {
      k := n;
    } else {
      k := RunningSince(log[..n], t, maxRetries);
      assert forall j :: 0 <= j < n ==> log[..n][j] == log[j];
    }
  }

  /** In a legal life a running task is completed or failed by the robot that started it last. */
  lemma EndedByStarter(log: seq<Change>, t: Task, maxRetries: nat, i: nat)
    requires LifeOf(log, t, maxRetries) != Impossible && EndsAt(log, t, i)
    ensures log[i].after == Completed || log[i].after == Failed
    ensures exists k: nat :: LastStart(log, t, k, i) && log[k].robot == log[i].robot
  {
    ImpossibleStays(log, t, maxRetries, i + 1);
    assert log[..i + 1][..i] == log[..i];
    assert LifeOf(log[..i], t, maxRetries).Running?;
    var k := RunningSince(log[..i], t, maxRetries);
    assert LastStart(log, t, k, i);
  }
}
