/**
 The escalation ladder of one deadlock incident: let a victim give way, else send it around,
 else take the next victim.
 */
module Ladder {
  import opened Options

  type Robot = int
  type Pocket = int
  type Mask = int

  datatype Settings = Settings(pocketIntoZone: bool, escalateAfter: real, yieldTimeout: real, altPathTimeout: real,
                               replanGrace: real, deadlockMax: real, cooldown: real, maxAttempts: int,
                               progressReset: real)

  /** What is known of a robot.  path: what tells its current path from another one. */
  datatype View = View(active: bool, mobile: bool, priority: int, deadline: Option<real>, remaining: Option<real>,
                       path: Option<int>)

  /** The geometry is answered from outside: where a robot can give way, and which mask leaves it a route. */
  datatype World = World(views: map<Robot, View>, hasGrid: bool,
                         pocketFor: (Robot, set<Pocket>, bool) -> Option<Pocket>,
                         maskFor: (int, Robot) -> Option<Mask>) {
    predicate Active(r: Robot) {
      r in views && views[r].active
    }

    predicate Mobile(r: Robot) {
      r in views && views[r].mobile
    }

    /** The path a robot is seen to follow. */
    function PathOf(r: Robot): Option<int> {
      if r in views then views[r].path else None
    }
  }

  /** What is seen of an incident in one cycle. */
  datatype Sight = Sight(othersPassed: bool, releaseOk: bool, othersMoved: bool, planClear: bool, victimPassed: bool)

  datatype Strategy = Undecided | Yield | AltPath

  datatype Reason =
    | OthersParked | NoPocket | Persist | YieldTimeout | NoAltPath | AltTimeout
    | NoRoute(after: Reason) | Exhausted(last: Reason) | DeadlockMax | NoMobileVictim | TooManyAttempts

  datatype Attempt =
    | IntoZone(victim: Robot)
    | GiveWay(victim: Robot)
    | GoAround(victim: Robot, reason: Reason, found: bool)

  datatype Kind = Deadlock | Escalated | Resolved | Unresolved(reason: Reason)

  datatype Event = Event(kind: Kind, id: int, victim: Robot)

  datatype Incident = Incident(id: int, robots: seq<Robot>, detectedAt: real, victims: seq<Robot>, immobile: set<Robot>,
                               index: nat, strategy: Strategy, stepStarted: real, pocket: Option<Pocket>,
                               mask: Option<Mask>, attempts: seq<Attempt>, path: Option<int>, replanned: bool) {
    /** The robot that has to give way now. */
    function Victim(): Robot
      requires victims != []
    {
      victims[if index < |victims| then index else |victims| - 1]
    }

    function Tell(kind: Kind): Event
      requires victims != []
    {
      Event(kind, id, Victim())
    }

    predicate OthersActive(w: World)
      requires victims != []
    {
      exists r :: r in robots && r != Victim() && w.Active(r)
    }
  }

  /** How a step of the ladder leaves the incident. */
  datatype End = Going | Solved | GivenUp

  datatype Rung = Rung(inc: Incident, events: seq<Event>, end: End)

  // ---------------------------------------------------------------- the ladder

  function GiveUp(inc: Incident, reason: Reason): Rung
    requires inc.victims != []
  {
    Rung(inc, [inc.Tell(Unresolved(reason))], GivenUp)
  }

  function Solve(inc: Incident): Rung
    requires inc.victims != []
  {
    Rung(inc, [inc.Tell(Resolved)], Solved)
  }

  /** Where the victim may give way outside the zones, or inside as a last resort. */
  function PocketOf(c: Settings, w: World, victim: Robot, reserved: set<Pocket>): (Option<Pocket>, bool) {
    if !w.hasGrid || victim !in w.views then (None, false)
    else
      var outside := w.pocketFor(victim, reserved, false);
      if outside.Some? || !c.pocketIntoZone then (outside, false)
      else
        var inside := w.pocketFor(victim, reserved, true);
        (inside, inside.Some?)
  }

  function MaskOf(w: World, inc: Incident): Option<Mask>
    requires inc.victims != []
  {
    if w.Active(inc.Victim()) then w.maskFor(inc.id, inc.Victim()) else None
  }

  function StartYield(c: Settings, w: World, t: real, reserved: set<Pocket>, inc: Incident): (r: Rung)
    requires inc.index < |inc.victims|
    ensures r.inc.victims == inc.victims
    decreases |inc.victims| - inc.index, 2
  {
    if !inc.OthersActive(w) then StartAlt(c, w, t, reserved, inc, OthersParked, false)
    else
      var (pocket, within) := PocketOf(c, w, inc.Victim(), reserved);
      var noted := if within then Note(inc, IntoZone(inc.Victim())) else inc;
      if pocket == None then StartAlt(c, w, t, reserved, noted, NoPocket, true)
      else
        Rung(Note(noted, GiveWay(inc.Victim())).(strategy := Yield, stepStarted := t, pocket := pocket, mask := None), [],
             Going)
  }

  function StartAlt(c: Settings, w: World, t: real, reserved: set<Pocket>, inc: Incident, reason: Reason,
                    announce: bool): (r: Rung)
    requires inc.index < |inc.victims|
    ensures r.inc.victims == inc.victims
    decreases |inc.victims| - inc.index, 1
  {
    var mask := MaskOf(w, inc);
    var tried := Note(inc, GoAround(inc.Victim(), reason, mask.Some?));
    if mask == None then NextVictim(c, w, t, reserved, tried, NoRoute(reason))
    else
      var started := tried.(strategy := AltPath, stepStarted := t, pocket := None, mask := mask);
      if announce && (inc.strategy == Yield || reason == NoPocket)
      then Rung(started, [started.Tell(Escalated)], Going)
      else Rung(started, [], Going)
  }

  function NextVictim(c: Settings, w: World, t: real, reserved: set<Pocket>, inc: Incident, reason: Reason): (r: Rung)
    requires inc.index < |inc.victims|
    ensures r.inc.victims == inc.victims
    decreases |inc.victims| - inc.index, 0
  {
    if (reason == NoAltPath || reason == AltTimeout) && |inc.victims| == 1 && inc.replanned then
      if t - inc.detectedAt < c.deadlockMax then Rung(inc.(stepStarted := t), [], Going)
      else GiveUp(inc, Exhausted(reason))
    else
      var next := inc.(pocket := None, mask := None, index := inc.index + 1);
      if next.index >= |next.victims| then GiveUp(next, Exhausted(reason))
      else
        var rest := StartYield(c, w, t, reserved, next);
        if rest.end != Going || rest.inc.Victim() != next.Victim() then rest
        else rest.(events := [rest.inc.Tell(Escalated)] + rest.events)
  }

  /** One cycle of an open incident. */
  function StepOne(c: Settings, w: World, t: real, reserved: set<Pocket>, sight: Sight, inc: Incident): (r: Rung)
    requires inc.index < |inc.victims|
    ensures r.inc.victims == inc.victims
  {
    if t - inc.detectedAt > c.deadlockMax then GiveUp(inc, DeadlockMax)
    else if inc.strategy == Yield then
      if sight.othersPassed && sight.releaseOk then Solve(inc)
      else if t - inc.stepStarted >= c.escalateAfter && !sight.othersMoved then
        StartAlt(c, w, t, reserved, inc, Persist, true)
      else if t - inc.stepStarted >= c.yieldTimeout then StartAlt(c, w, t, reserved, inc, YieldTimeout, true)
      else Rung(inc, [], Going)
    else
      var seen := SeePath(w, inc);
      if sight.planClear && DetourDone(w, seen, sight) then Solve(seen)
      else if !sight.planClear && t - inc.stepStarted >= c.replanGrace then
        NextVictim(c, w, t, reserved, seen, NoAltPath)
      else if t - inc.stepStarted >= c.altPathTimeout then NextVictim(c, w, t, reserved, seen, AltTimeout)
      else Rung(seen, [], Going)
  }

  /** Remembers the victim's path, and whether the planner has produced another one. */
  function SeePath(w: World, inc: Incident): Incident
    requires inc.victims != []
  {
    var v := inc.Victim();
    if v in w.views && w.views[v].path.Some? then
      inc.(replanned := inc.replanned || (inc.path.Some? && inc.path != w.views[v].path), path := w.views[v].path)
    else inc
  }

  predicate DetourDone(w: World, inc: Incident, sight: Sight)
    requires inc.victims != []
  {
    if exists r :: r in inc.robots && r != inc.Victim() && w.Active(r) && w.Mobile(r)
    then sight.othersPassed && sight.releaseOk
    else sight.victimPassed
  }

  // ---------------------------------------------------------------- order of the attempts

  function Note(inc: Incident, a: Attempt): Incident {
    inc.(attempts := inc.attempts + [a])
  }

  function IndexOf(victims: seq<Robot>, v: Robot): (k: nat)
    ensures k <= |victims| && (v in victims ==> k < |victims| && victims[k] == v)
  {
    if victims == [] || victims[0] == v then 0 else 1 + IndexOf(victims[1..], v)
  }

  /** Position of an attempt: by victim, and for one victim giving way into a zone, giving way, going around. */
  function Position(victims: seq<Robot>, a: Attempt): nat {
    3 * IndexOf(victims, a.victim) + (match a case IntoZone(_) => 0 case GiveWay(_) => 1 case GoAround(_, _, _) => 2)
  }

  ghost predicate Distinct(s: seq<Robot>) {
    forall i, j :: 0 <= i < j < |s| ==> s[i] != s[j]
  }

  /** The attempts so far went through the victims in order, none twice, and stay below the bound. */
  ghost predicate InOrder(victims: seq<Robot>, attempts: seq<Attempt>, bound: int) {
    && (forall i, j :: 0 <= i < j < |attempts| ==> Position(victims, attempts[i]) < Position(victims, attempts[j]))
    && (forall i :: 0 <= i < |attempts| ==> Position(victims, attempts[i]) < bound)
  }

  ghost predicate Shape(inc: Incident) {
    && inc.index < |inc.victims| && Distinct(inc.victims)
    && (forall v :: v in inc.victims ==> v in inc.robots)
  }

  /** The incident is about to try something at the given position for its current victim. */
  ghost predicate Climbing(inc: Incident, position: nat) {
    Shape(inc) && InOrder(inc.victims, inc.attempts, 3 * inc.index + position)
  }

  /** The victim has either a place to give way or a mask to go around, as its strategy says. */
  ghost predicate Committed(inc: Incident) {
    (inc.strategy == Yield && inc.pocket.Some? && inc.mask == None) ||
    (inc.strategy == AltPath && inc.pocket == None && inc.mask.Some?)
  }

  /** What holds of every open incident between cycles. */
  ghost predicate Open(inc: Incident) {
    Committed(inc) && Climbing(inc, if inc.strategy == Yield then 2 else 3)
  }

  // ---------------------------------------------------------------- the event trace

  /** What the events say of one incident. */
  datatype Story = Unseen | Running | Ended | Broken

  function Tell(s: Story, k: Kind): Story {
    match k
    case Deadlock => if s == Unseen then Running else Broken
    case Escalated => if s == Running then Running else Broken
    case _ => if s == Running then Ended else Broken
  }

  /** The story of incident id after the events, from s. */
  function TellAll(s: Story, id: int, events: seq<Event>): Story
    decreases events
  {
    if events == [] then s
    else TellAll(if events[0].id == id then Tell(s, events[0].kind) else s, id, events[1..])
  }

  /** The same incident further up its ladder; its events end its story exactly if it is closed. */
  ghost predicate Sound(inc: Incident, r: Rung) {
    && r.inc.id == inc.id && r.inc.robots == inc.robots && r.inc.victims == inc.victims && r.inc.immobile == inc.immobile
    && r.inc.detectedAt == inc.detectedAt && r.inc.index >= inc.index
    && inc.attempts <= r.inc.attempts
    && InOrder(r.inc.victims, r.inc.attempts, 3 * |inc.victims|)
    && (r.end == Going ==> Open(r.inc))
    && (forall e :: e in r.events ==> e.id == inc.id)
    && TellAll(Running, inc.id, r.events) == (if r.end == Going then Running else Ended)
  }

  // ---------------------------------------------------------------- what every rung keeps

  lemma {:induction false} IndexOfAt(victims: seq<Robot>, k: nat)
    requires Distinct(victims) && k < |victims|
    ensures IndexOf(victims, victims[k]) == k
  {
    if k > 0 {
      assert victims[1..][k - 1] == victims[k];
      assert victims[0] != victims[k];
      IndexOfAt(victims[1..], k - 1);
    }
  }

  lemma NoteInOrder(inc: Incident, a: Attempt, bound: int)
    requires InOrder(inc.victims, inc.attempts, bound) && bound <= Position(inc.victims, a)
    ensures InOrder(inc.victims, Note(inc, a).attempts, Position(inc.victims, a) + 1)
  {
    hide Position;
  }

  /** The attempts of the current victim take the next positions. */
  lemma NoteClimbs(inc: Incident, a: Attempt, position: nat)
    requires Climbing(inc, position) && a.victim == inc.Victim()
    requires position <= (match a case IntoZone(_) => 0 case GiveWay(_) => 1 case GoAround(_, _, _) => 2)
    ensures Climbing(Note(inc, a), (match a case IntoZone(_) => 1 case GiveWay(_) => 2 case GoAround(_, _, _) => 3))
  {
    IndexOfAt(inc.victims, inc.index);
    hide IndexOf;
    NoteInOrder(inc, a, 3 * inc.index + position);
  }

  lemma ClimbsOn(inc: Incident, position: nat, further: nat)
    requires Climbing(inc, position) && position <= further
    ensures Climbing(inc, further)
  {
    hide Position;
  }

  lemma OneEvent(inc: Incident, kind: Kind)
    requires inc.victims != [] && kind != Deadlock
    ensures TellAll(Running, inc.id, [inc.Tell(kind)]) == if kind == Escalated then Running else Ended
  {
  }

  lemma GiveUpSound(inc: Incident, reason: Reason)
    requires inc.victims != [] && InOrder(inc.victims, inc.attempts, 3 * |inc.victims|)
    ensures Sound(inc, GiveUp(inc, reason))
  {
    hide InOrder, Open;
    OneEvent(inc, Unresolved(reason));
  }

  lemma SolveSound(inc: Incident)
    requires inc.victims != [] && InOrder(inc.victims, inc.attempts, 3 * |inc.victims|)
    ensures Sound(inc, Solve(inc))
  {
    hide InOrder, Open;
    OneEvent(inc, Resolved);
  }

  /** What is sound for an incident with attempts added is sound for the incident. */
  lemma SoundAfter(inc: Incident, noted: Incident, r: Rung)
    requires Sound(noted, r)
    requires noted.id == inc.id && noted.robots == inc.robots && noted.victims == inc.victims
    requires noted.immobile == inc.immobile && noted.detectedAt == inc.detectedAt && noted.index >= inc.index
    requires inc.attempts <= noted.attempts
    ensures Sound(inc, r)
  {
    hide InOrder, Open, TellAll;
  }

  /** The reason to take the next victim fits the strategy that failed. */
  ghost predicate Fits(inc: Incident, reason: Reason) {
    reason == NoAltPath || reason == AltTimeout ==> Committed(inc) && inc.strategy == AltPath
  }

  lemma {:induction false} StartYieldSound(c: Settings, w: World, t: real, reserved: set<Pocket>, inc: Incident)
    requires Climbing(inc, 0)
    ensures Sound(inc, StartYield(c, w, t, reserved, inc))
    decreases |inc.victims| - inc.index, 2
  {
    hide InOrder, PocketOf, StartAlt, TellAll;
    if !inc.OthersActive(w) {
      ClimbsOn(inc, 0, 2);
      StartAltSound(c, w, t, reserved, inc, OthersParked, false);
    } else {
      var (pocket, within) := PocketOf(c, w, inc.Victim(), reserved);
      var noted := if within then Note(inc, IntoZone(inc.Victim())) else inc;
      if within {
        NoteClimbs(inc, IntoZone(inc.Victim()), 0);
      } else {
        ClimbsOn(inc, 0, 1);
      }
      if pocket == None {
        ClimbsOn(noted, 1, 2);
        StartAltSound(c, w, t, reserved, noted, NoPocket, true);
        SoundAfter(inc, noted, StartAlt(c, w, t, reserved, noted, NoPocket, true));
      } else {
        NoteClimbs(noted, GiveWay(inc.Victim()), 1);
        GoesOn(inc, StartYield(c, w, t, reserved, inc), 2);
      }
    }
  }

  /** A rung without events that leaves the incident open is sound. */
  lemma GoesOn(inc: Incident, r: Rung, position: nat)
    requires r.end == Going && r.events == [] && Committed(r.inc) && Climbing(r.inc, position)
    requires position <= if r.inc.strategy == Yield then 2 else 3
    requires r.inc.(strategy := inc.strategy, stepStarted := inc.stepStarted, pocket := inc.pocket, mask := inc.mask,
                    attempts := inc.attempts, path := inc.path, replanned := inc.replanned) == inc
    requires inc.attempts <= r.inc.attempts
    ensures Sound(inc, r)
  {
    hide Position;
  }

  lemma {:induction false} StartAltSound(c: Settings, w: World, t: real, reserved: set<Pocket>, inc: Incident, reason: Reason,
                                         announce: bool)
    requires Climbing(inc, 2) && !reason.NoAltPath? && !reason.AltTimeout?
    ensures Sound(inc, StartAlt(c, w, t, reserved, inc, reason, announce))
    decreases |inc.victims| - inc.index, 1
  {
    hide InOrder, NextVictim, TellAll;
    var mask := MaskOf(w, inc);
    var a := GoAround(inc.Victim(), reason, mask.Some?);
    var tried := Note(inc, a);
    NoteClimbs(inc, a, 2);
    if mask == None {
      NextVictimSound(c, w, t, reserved, tried, NoRoute(reason));
      SoundAfter(inc, tried, NextVictim(c, w, t, reserved, tried, NoRoute(reason)));
    } else {
      var started := tried.(strategy := AltPath, stepStarted := t, pocket := None, mask := mask);
      GoesOn(inc, Rung(started, [], Going), 3);
      Announced(inc, started);
    }
  }

  lemma Announced(inc: Incident, started: Incident)
    requires Sound(inc, Rung(started, [], Going)) && started.victims != []
    ensures Sound(inc, Rung(started, [started.Tell(Escalated)], Going))
  {
    hide InOrder, Open;
    OneEvent(started, Escalated);
  }

  lemma {:induction false} NextVictimSound(c: Settings, w: World, t: real, reserved: set<Pocket>, inc: Incident, reason: Reason)
    requires Climbing(inc, 3) && Fits(inc, reason)
    ensures Sound(inc, NextVictim(c, w, t, reserved, inc, reason))
    decreases |inc.victims| - inc.index, 0
  {
    hide InOrder, StartYield, TellAll;
    Bounded(inc);
    if (reason == NoAltPath || reason == AltTimeout) && |inc.victims| == 1 && inc.replanned {
      GiveUpSound(inc, Exhausted(reason));
      GoesOn(inc, Rung(inc.(stepStarted := t), [], Going), 3);
    } else {
      var next := inc.(pocket := None, mask := None, index := inc.index + 1);
      NextClimbs(inc, next);
      if next.index >= |next.victims| {
        GiveUpSound(next, Exhausted(reason));
        SoundAfter(inc, next, GiveUp(next, Exhausted(reason)));
      } else {
        StartYieldSound(c, w, t, reserved, next);
        var rest := StartYield(c, w, t, reserved, next);
        SoundAfter(inc, next, rest);
        FirstAnnounced(inc, rest);
      }
    }
  }

  lemma Bounded(inc: Incident)
    requires Climbing(inc, 3)
    ensures InOrder(inc.victims, inc.attempts, 3 * |inc.victims|)
  {
    hide Position;
  }

  lemma NextClimbs(inc: Incident, next: Incident)
    requires Climbing(inc, 3) && next == inc.(pocket := None, mask := None, index := inc.index + 1)
    ensures InOrder(next.victims, next.attempts, 3 * |next.victims|)
    ensures next.index < |next.victims| ==> Climbing(next, 0)
  {
    hide Position;
  }

  /** The change of victim may be told before what the new victim does. */
  lemma FirstAnnounced(inc: Incident, rest: Rung)
    requires Sound(inc, rest) && rest.inc.victims != []
    ensures rest.end == Going ==> Sound(inc, rest.(events := [rest.inc.Tell(Escalated)] + rest.events))
  {
    hide InOrder, Open;
    var e := rest.inc.Tell(Escalated);
    assert ([e] + rest.events)[1..] == rest.events;
  }

  /** Every cycle keeps an open incident open or ends its story, and never lets it outlive the limit. */
  lemma StepOneSound(c: Settings, w: World, t: real, reserved: set<Pocket>, sight: Sight, inc: Incident)
    requires Open(inc)
    ensures var r := StepOne(c, w, t, reserved, sight, inc);
            Sound(inc, r) && (r.end == Going ==> t - inc.detectedAt <= c.deadlockMax)
  {
    hide InOrder, StartAlt, NextVictim, TellAll;
    ClimbsOn(inc, if inc.strategy == Yield then 2 else 3, 3);
    Bounded(inc);
    GiveUpSound(inc, DeadlockMax);
    SolveSound(inc);
    GoesOn(inc, Rung(inc, [], Going), if inc.strategy == Yield then 2 else 3);
    if inc.strategy == Yield {
      StartAltSound(c, w, t, reserved, inc, Persist, true);
      StartAltSound(c, w, t, reserved, inc, Reason.YieldTimeout, true);
    } else {
      var seen := SeePath(w, inc);
      SeenSame(w, inc);
      SolveSound(seen);
      SoundAfter(inc, seen, Solve(seen));
      GoesOn(inc, Rung(seen, [], Going), 3);
      NextVictimSound(c, w, t, reserved, seen, NoAltPath);
      SoundAfter(inc, seen, NextVictim(c, w, t, reserved, seen, NoAltPath));
      NextVictimSound(c, w, t, reserved, seen, AltTimeout);
      SoundAfter(inc, seen, NextVictim(c, w, t, reserved, seen, AltTimeout));
    }
  }

  lemma SeenSame(w: World, inc: Incident)
    requires Climbing(inc, 3)
    ensures var seen := SeePath(w, inc);
            Climbing(seen, 3) && InOrder(seen.victims, seen.attempts, 3 * |inc.victims|) &&
            seen == inc.(path := seen.path, replanned := seen.replanned)
  {
    hide Position;
  }
}
