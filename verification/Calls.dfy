/** Open calls: how rounds add to them, and what a sweep over those that are due makes of them. */
module Calls {
  import opened Dispatch
  import opened Options
  import opened Rounds
  import opened TaskLife

  /** The open calls carry numbers below n. */
  ghost predicate Numbered(inflight: map<Task, Call>, n: int) {
    forall x :: x in inflight ==> inflight[x].serial < n
  }

  /** Open calls stay as they are, new ones are numbered from n on, and robots are at most backed off now. */
  ghost predicate OnlyCalls(c: Config, env: Env, a: Tables, b: Tables, n: int) {
    && b.records == a.records && b.queue == a.queue && SightsKept(a.robots, b.robots)
    && (forall x :: x in a.inflight ==> x in b.inflight && b.inflight[x] == a.inflight[x])
    && (forall x :: x in b.inflight ==> x in a.inflight || b.inflight[x].serial >= n)
    && (forall r :: r in a.robots ==> b.robots[r].backoffUntil == a.robots[r].backoffUntil ||
                                      b.robots[r].backoffUntil == env.now + c.backoff)
  }

  lemma NothingCalled(c: Config, env: Env, t: Tables, n: int)
    ensures OnlyCalls(c, env, t, t, n)
  {
  }

  lemma CallsJoin(c: Config, env: Env, a: Tables, b: Tables, d: Tables, n: int, m: int)
    requires OnlyCalls(c, env, a, b, n) && OnlyCalls(c, env, b, d, m) && n <= m
    ensures OnlyCalls(c, env, a, d, n)
  {
  }

  lemma AttemptCalls(c: Config, t: Tables, env: Env, x: Task, r: Robot, number: int)
    requires ToCall(t, (x, r))
    ensures OnlyCalls(c, env, t, Attempt(c, t, env, x, r, number), number) && NextNumber(env, x, r, number) > number
  {
    AttemptMeaning(c, t, env, x, r, number);
    AttemptSights(c, t, env, x, r, number);
    AttemptNumber(c, t, env, x, r, number);
    hide Attempt, Unreached, ToCall;
  }

  lemma AttemptNumber(c: Config, t: Tables, env: Env, x: Task, r: Robot, number: int)
    requires ToCall(t, (x, r))
    ensures var u := Attempt(c, t, env, x, r, number); x in u.inflight ==> u.inflight[x].serial == number
  {
  }

  // ---------------------------------------------------------------- a sweep

  /** The time for the call has run out. */
  ghost predicate Due(env: Env, d: Call) {
    env.now > d.timeoutAt
  }

  /**
   A call that is made and not taken back: when it will be due, and whether a sweep finds it unsent.
   delayed: it waits for the simulated link, or is lost there.
   */
  lemma CallMade(c: Config, env: Env, t: Tables, x: Task, r: Robot, number: int, later: Env)
    requires ToCall(t, (x, r)) && !Unreached(env, x, r)
    ensures var u := Attempt(c, t, env, x, r, number);
            var delay := if env.delay(x).Some? then env.delay(x).value else 0.0;
            var delayed := env.latency || env.delay(x) == None;
            && x in u.inflight && u.inflight[x].robot == r && u.robots[r].inflight == Some(x)
            && (Due(later, u.inflight[x]) <==> later.now - env.now > delay + c.assignTimeout)
            && (u.inflight[x].sentAs == None <==> delayed)
            && (GivenUp(c, later, u, x) <==> delayed && Due(later, u.inflight[x]))
            && (SentTime(u, x, r) == if delayed then SentTime(t, x, r) else Some(env.now))
  {
  }

  /** Sent, not answered, and not known to be so before. */
  ghost predicate NewlyUnanswered(env: Env, d: Call) {
    Due(env, d) && d.sentAs.Some? && d.sentAs.value !in env.done && !d.unconfirmed
  }

  /**
   The call is given up: it was never sent; or it was not answered, and its robot has said, later than the
   time allowed for it to show up, that it has another task or none.
   */
  ghost predicate GivenUp(c: Config, env: Env, t: Tables, x: Task)
    requires x in t.inflight
  {
    var d := t.inflight[x];
    && Due(env, d) && d.robot in t.robots
    && (d.sentAs == None ||
        (d.sentAs.value !in env.done && d.unconfirmed && t.robots[d.robot].report.Some? &&
         t.robots[d.robot].lastSeen >= d.timeoutAt + c.reconcile && t.robots[d.robot].report.value.current != Some(x)))
  }

  /** What has become of the call for x: given up and its robot left alone, held as unanswered, or as it was. */
  ghost predicate Decided(c: Config, env: Env, t: Tables, u: Tables, n: int, x: Task)
    requires x in t.inflight
  {
    var d := t.inflight[x];
    if GivenUp(c, env, t, x) then
      && (x in u.inflight ==> u.inflight[x].serial >= n)
      && d.robot in u.robots && u.robots[d.robot].backoffUntil == env.now + c.backoff
    else x in u.inflight && u.inflight[x] == if NewlyUnanswered(env, d) then d.(unconfirmed := true) else d
  }

  /** The calls of the list, open in t, have been decided; the others are as they were; new ones are numbered from n on. */
  ghost predicate Checked(c: Config, env: Env, t: Tables, u: Tables, n: int, done: seq<Task>) {
    && u.records == t.records && u.queue == t.queue && SightsKept(t.robots, u.robots)
    && (forall x :: x in t.inflight && x in done ==> Decided(c, env, t, u, n, x))
    && (forall x :: x in t.inflight && x !in done ==> x in u.inflight && u.inflight[x] == t.inflight[x])
    && (forall x :: x in u.inflight && x !in t.inflight ==> u.inflight[x].serial >= n)
    && ((forall x :: x in t.inflight && x in done ==> !GivenUp(c, env, t, x)) ==>
          u.robots == t.robots && u.sent == t.sent && u.inflight.Keys == t.inflight.Keys)
  }

  /** After the sweep every open call has been decided. */
  ghost predicate AllChecked(c: Config, env: Env, t: Tables, u: Tables, n: int) {
    && u.records == t.records && u.queue == t.queue && SightsKept(t.robots, u.robots)
    && (forall x :: x in t.inflight ==> Decided(c, env, t, u, n, x))
    && (forall x :: x in u.inflight && x !in t.inflight ==> u.inflight[x].serial >= n)
    && ((forall x :: x in t.inflight ==> !GivenUp(c, env, t, x)) ==>
          u.robots == t.robots && u.sent == t.sent && u.inflight.Keys == t.inflight.Keys)
  }

  lemma NoneChecked(c: Config, env: Env, t: Tables, n: int)
    ensures Checked(c, env, t, t, n, [])
  {
  }

  lemma CheckEnds(c: Config, env: Env, t: Tables, u: Tables, n: int, done: seq<Task>)
    requires Checked(c, env, t, u, n, done) && forall x :: x in t.inflight ==> x in done
    ensures AllChecked(c, env, t, u, n)
  {
  }

  /** What one check of the call for x makes of u. */
  ghost predicate CheckedOne(c: Config, env: Env, u: Tables, v: Tables, n: int, x: Task)
    requires x in u.inflight
  {
    var d := u.inflight[x];
    if GivenUp(c, env, u, x) then OnlyCalls(c, env, Aborted(c, u, x, d.robot, env.now), v, n)
    else if NewlyUnanswered(env, d) then v == u.(inflight := u.inflight[x := d.(unconfirmed := true)])
    else v == u
  }

  lemma GivenUpThen(c: Config, env: Env, t: Tables, u: Tables, x: Task)
    requires x in t.inflight && x in u.inflight && u.inflight[x] == t.inflight[x] && SightsKept(t.robots, u.robots)
    ensures GivenUp(c, env, u, x) <==> GivenUp(c, env, t, x)
  {
  }

  lemma OneChecked(c: Config, env: Env, t: Tables, u: Tables, v: Tables, n: int, m: int, done: seq<Task>, x: Task)
    requires Checked(c, env, t, u, n, done) && x in t.inflight && x !in done && n <= m
    requires Ok(u) && x in u.inflight && CheckedOne(c, env, u, v, m, x)
    ensures Checked(c, env, t, v, n, done + [x])
  {
    hide Ok, Aborted, GivenUp;
    GivenUpThen(c, env, t, u, x);
    if GivenUp(c, env, u, x) {
      AbortChecked(c, env, t, u, v, n, m, done, x);
    } else {
      hide Due;
      MarkChecked(c, env, t, u, v, n, done, x);
    }
  }

  lemma MarkChecked(c: Config, env: Env, t: Tables, u: Tables, v: Tables, n: int, done: seq<Task>, x: Task)
    requires Checked(c, env, t, u, n, done) && x in t.inflight && x !in done && x in u.inflight && !GivenUp(c, env, t, x)
    requires v == if NewlyUnanswered(env, u.inflight[x]) then u.(inflight := u.inflight[x := u.inflight[x].(unconfirmed := true)])
                  else u
    ensures Checked(c, env, t, v, n, done + [x])
  {
    hide GivenUp, NewlyUnanswered;
  }

  lemma AbortChecked(c: Config, env: Env, t: Tables, u: Tables, v: Tables, n: int, m: int, done: seq<Task>, x: Task)
    requires Checked(c, env, t, u, n, done) && x in t.inflight && x !in done && n <= m && GivenUp(c, env, t, x)
    requires Ok(u) && x in u.inflight && GivenUp(c, env, u, x)
    requires OnlyCalls(c, env, Aborted(c, u, x, u.inflight[x].robot, env.now), v, m)
    ensures Checked(c, env, t, v, n, done + [x])
  {
    hide GivenUp, NewlyUnanswered, Due;
    AbortParts(c, env, u, x);
    hide Aborted, Ok;
  }

  lemma AbortParts(c: Config, env: Env, u: Tables, x: Task)
    requires Ok(u) && x in u.inflight
    ensures var r := u.inflight[x].robot;
            && r in u.robots
            && var a := Aborted(c, u, x, r, env.now);
               && a.records == u.records && a.queue == u.queue && a.inflight == u.inflight - {x}
               && a.robots == u.robots[r := BackedOff(c, u.robots[r], env.now)]
               && SightsKept(u.robots, a.robots)
  {
    AbortedOk(c, u, x, u.inflight[x].robot, env.now);
  }
}
