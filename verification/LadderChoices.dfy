/** When an incident is resolved, given up or escalated, and which victim and measure the ladder then chooses. */
module LadderChoices {
  import opened Ladder
  import opened Options

  // ---------------------------------------------------------------- what can be done with a victim

  ghost predicate OthersDrive(w: World, inc: Incident, victim: Robot) {
    exists r :: r in inc.robots && r != victim && w.Active(r)
  }

  /** Place p lets the victim give way to somebody; a place inside a zone only if there is none outside. */
  ghost predicate MayYield(c: Settings, w: World, reserved: set<Pocket>, inc: Incident, victim: Robot, p: Pocket) {
    && OthersDrive(w, inc, victim) && w.hasGrid && victim in w.views
    && (w.pocketFor(victim, reserved, false) == Some(p) ||
        (w.pocketFor(victim, reserved, false) == None && c.pocketIntoZone && w.pocketFor(victim, reserved, true) == Some(p)))
  }

  ghost predicate CanYield(c: Settings, w: World, reserved: set<Pocket>, inc: Incident, victim: Robot) {
    exists p :: MayYield(c, w, reserved, inc, victim, p)
  }

  /** With mask m the victim has a way around. */
  ghost predicate MayDetour(w: World, inc: Incident, victim: Robot, m: Mask) {
    w.Active(victim) && w.maskFor(inc.id, victim) == Some(m)
  }

  ghost predicate CanDetour(w: World, inc: Incident, victim: Robot) {
    exists m :: MayDetour(w, inc, victim, m)
  }

  /** The victims numbered from to below to can neither give way nor go around. */
  ghost predicate NoneUseful(c: Settings, w: World, reserved: set<Pocket>, inc: Incident, from: nat, to: nat) {
    forall j :: from <= j < to && j < |inc.victims| ==>
      !CanYield(c, w, reserved, inc, inc.victims[j]) && !CanDetour(w, inc, inc.victims[j])
  }

  ghost predicate Detours(w: World, t: real, inc: Incident, to: Incident) {
    && to.index < |inc.victims| && to.strategy == AltPath && to.stepStarted == t && to.pocket == None
    && to.mask.Some? && MayDetour(w, inc, inc.victims[to.index], to.mask.value)
  }

  ghost predicate Yields(c: Settings, w: World, t: real, reserved: set<Pocket>, inc: Incident, to: Incident) {
    && to.index < |inc.victims| && to.strategy == Yield && to.stepStarted == t && to.mask == None
    && to.pocket.Some? && MayYield(c, w, reserved, inc, inc.victims[to.index], to.pocket.value)
  }

  /** The place is inside a zone: there was none outside. */
  ghost predicate InsideOnly(w: World, reserved: set<Pocket>, victim: Robot) {
    w.pocketFor(victim, reserved, false) == None
  }

  /** What is noted of a victim: that it gives way, after a place inside a zone if need be, or else why it goes around, and whether it can. */
  ghost function NotesOf(c: Settings, w: World, reserved: set<Pocket>, inc: Incident, victim: Robot): seq<Attempt> {
    if CanYield(c, w, reserved, inc, victim)
    then (if InsideOnly(w, reserved, victim) then [IntoZone(victim)] else []) + [GiveWay(victim)]
    else [GoAround(victim, WhyNot(w, inc, victim), CanDetour(w, inc, victim))]
  }

  /** Why a victim does not give way. */
  ghost function WhyNot(w: World, inc: Incident, victim: Robot): Reason {
    if OthersDrive(w, inc, victim) then NoPocket else OthersParked
  }

  /** The notes of the victims numbered from to below to. */
  ghost function AllNotes(c: Settings, w: World, reserved: set<Pocket>, inc: Incident, from: nat, upTo: nat): seq<Attempt>
    requires upTo <= |inc.victims|
    decreases upTo
  {
    if from >= upTo then [] else AllNotes(c, w, reserved, inc, from, upTo - 1) + NotesOf(c, w, reserved, inc, inc.victims[upTo - 1])
  }

  ghost predicate OnlyExhausted(r: Rung, reason: Reason) {
    r.inc.victims != [] && r.events == [r.inc.Tell(Unresolved(Exhausted(reason)))]
  }

  /** What is told of a victim that is chosen: that it goes around, unless nobody else drives anyway. */
  ghost predicate TellsDetour(c: Settings, w: World, reserved: set<Pocket>, inc: Incident, victim: Robot) {
    !CanYield(c, w, reserved, inc, victim) && OthersDrive(w, inc, victim)
  }

  /** How often an escalation is told: for a change of victim, and for going around. */
  ghost predicate TellsEscalation(r: Rung, change: bool, detour: bool) {
    r.inc.victims != [] &&
    r.events == (if change then [r.inc.Tell(Escalated)] else []) + (if detour then [r.inc.Tell(Escalated)] else [])
  }

  /** What a choice among the victims from number from on depends on: how much was tried before, whether it is a change. */
  datatype Before = Before(tried: seq<Attempt>, change: bool, reason: Reason)

  ghost predicate SamePath(a: Incident, b: Incident) {
    a.path == b.path && a.replanned == b.replanned
  }

  /**
   The ladder chooses the first victim, from number from on, that can do something: to give way if it
   can, else to go around.  If there is none the incident is given up.
   */
  ghost predicate Chooses(c: Settings, w: World, t: real, reserved: set<Pocket>, inc: Incident, from: nat, b: Before, r: Rung) {
    SamePath(inc, r.inc) &&
    match r.end
    case Solved => false
    case GivenUp =>
      && NoneUseful(c, w, reserved, inc, from, |inc.victims|)
      && OnlyExhausted(r, if from >= |inc.victims| then b.reason else NoRoute(WhyNot(w, inc, inc.victims[|inc.victims| - 1])))
      && r.inc.attempts == b.tried + AllNotes(c, w, reserved, inc, from, |inc.victims|)
    case Going =>
      && from <= r.inc.index < |inc.victims| && NoneUseful(c, w, reserved, inc, from, r.inc.index)
      && (if CanYield(c, w, reserved, inc, inc.victims[r.inc.index]) then Yields(c, w, t, reserved, inc, r.inc)
          else Detours(w, t, inc, r.inc))
      && r.inc.attempts == b.tried + AllNotes(c, w, reserved, inc, from, r.inc.index + 1)
      && TellsEscalation(r, b.change || r.inc.index > from, TellsDetour(c, w, reserved, inc, inc.victims[r.inc.index]))
  }

  // ---------------------------------------------------------------- the ladder chooses so

  /** inc with other attempts, index and measures: the same robots, victims and id, and what is known of the path. */
  ghost predicate SameLadder(a: Incident, b: Incident) {
    a.robots == b.robots && a.victims == b.victims && a.id == b.id && SamePath(a, b)
  }

  lemma SameChoice(c: Settings, w: World, t: real, reserved: set<Pocket>, a: Incident, b: Incident, from: nat, x: Before, r: Rung)
    requires SameLadder(a, b)
    ensures Chooses(c, w, t, reserved, a, from, x, r) <==> Chooses(c, w, t, reserved, b, from, x, r)
  {
    hide CanYield, CanDetour, MayYield, MayDetour, OthersDrive;
    SameUse(c, w, reserved, a, b);
    forall v, p ensures MayYield(c, w, reserved, a, v, p) <==> MayYield(c, w, reserved, b, v, p) {
      SameMay(c, w, reserved, a, b, v, p);
    }
    forall v, m ensures MayDetour(w, a, v, m) <==> MayDetour(w, b, v, m) {
      SameMay(c, w, reserved, a, b, v, m);
    }
    forall k: nat | k <= |a.victims|
      ensures AllNotes(c, w, reserved, a, from, k) == AllNotes(c, w, reserved, b, from, k)
    {
      SameNotes(c, w, reserved, a, b, from, k);
    }
  }

  lemma SameMay(c: Settings, w: World, reserved: set<Pocket>, a: Incident, b: Incident, v: Robot, p: int)
    requires SameLadder(a, b)
    ensures MayYield(c, w, reserved, a, v, p) <==> MayYield(c, w, reserved, b, v, p)
    ensures MayDetour(w, a, v, p) <==> MayDetour(w, b, v, p)
    ensures OthersDrive(w, a, v) <==> OthersDrive(w, b, v)
  {
  }

  lemma {:induction false} SameNotes(c: Settings, w: World, reserved: set<Pocket>, a: Incident, b: Incident, from: nat, upTo: nat)
    requires SameLadder(a, b) && upTo <= |a.victims|
    ensures AllNotes(c, w, reserved, a, from, upTo) == AllNotes(c, w, reserved, b, from, upTo)
    decreases upTo
  {
    hide CanYield, CanDetour, OthersDrive;
    if upTo > from {
      SameNotes(c, w, reserved, a, b, from, upTo - 1);
      SameUse(c, w, reserved, a, b);
    }
  }

  lemma SameUse(c: Settings, w: World, reserved: set<Pocket>, a: Incident, b: Incident)
    requires SameLadder(a, b)
    ensures forall v :: CanYield(c, w, reserved, a, v) <==> CanYield(c, w, reserved, b, v)
    ensures forall v :: CanDetour(w, a, v) <==> CanDetour(w, b, v)
    ensures forall v :: OthersDrive(w, a, v) <==> OthersDrive(w, b, v)
  {
    forall v ensures OthersDrive(w, a, v) <==> OthersDrive(w, b, v) {
    }
    forall v ensures CanYield(c, w, reserved, a, v) <==> CanYield(c, w, reserved, b, v) {
      forall p ensures MayYield(c, w, reserved, a, v, p) <==> MayYield(c, w, reserved, b, v, p) {
      }
    }
    forall v ensures CanDetour(w, a, v) <==> CanDetour(w, b, v) {
      forall m ensures MayDetour(w, a, v, m) <==> MayDetour(w, b, v, m) {
      }
    }
  }

  lemma PocketMeans(c: Settings, w: World, reserved: set<Pocket>, inc: Incident)
    requires inc.index < |inc.victims|
    ensures var p := PocketOf(c, w, inc.Victim(), reserved).0;
            && (inc.OthersActive(w) && p.Some? ==> MayYield(c, w, reserved, inc, inc.Victim(), p.value))
            && (CanYield(c, w, reserved, inc, inc.Victim()) <==> inc.OthersActive(w) && p.Some?)
  {
    var p := PocketOf(c, w, inc.Victim(), reserved).0;
    if inc.OthersActive(w) && p.Some? {
      assert MayYield(c, w, reserved, inc, inc.Victim(), p.value);
    }
    if q :| MayYield(c, w, reserved, inc, inc.Victim(), q) {
      assert p == Some(q);
    }
  }

  lemma MaskMeans(w: World, inc: Incident)
    requires inc.index < |inc.victims|
    ensures MaskOf(w, inc).Some? <==> CanDetour(w, inc, inc.Victim())
    ensures MaskOf(w, inc).Some? ==> MayDetour(w, inc, inc.Victim(), MaskOf(w, inc).value)
  {
    if MaskOf(w, inc).Some? {
      assert MayDetour(w, inc, inc.Victim(), MaskOf(w, inc).value);
    }
    if m :| MayDetour(w, inc, inc.Victim(), m) {
      assert MaskOf(w, inc) == Some(m);
    }
  }

  lemma {:induction false} NotesFirst(c: Settings, w: World, reserved: set<Pocket>, inc: Incident, from: nat, upTo: nat)
    requires from < upTo <= |inc.victims|
    ensures AllNotes(c, w, reserved, inc, from, upTo) ==
              NotesOf(c, w, reserved, inc, inc.victims[from]) + AllNotes(c, w, reserved, inc, from + 1, upTo)
    decreases upTo
  {
    hide NotesOf;
    if upTo > from + 1 {
      NotesFirst(c, w, reserved, inc, from, upTo - 1);
    }
  }

  /** A choice among the later victims, when this one is of no use. */
  lemma ChoosesLater(c: Settings, w: World, t: real, reserved: set<Pocket>, inc: Incident, k: nat, b: Before, r: Rung)
    requires k < |inc.victims| && NoneUseful(c, w, reserved, inc, k, k + 1)
    requires var x := Before(b.tried + NotesOf(c, w, reserved, inc, inc.victims[k]), true, NoRoute(WhyNot(w, inc, inc.victims[k])));
             Chooses(c, w, t, reserved, inc, k + 1, x, r)
    ensures Chooses(c, w, t, reserved, inc, k, b, r)
  {
    hide CanYield, CanDetour, Yields, Detours, OnlyExhausted, NotesOf, TellsDetour, WhyNot;
    if r.end == Going {
      NotesFirst(c, w, reserved, inc, k, r.inc.index + 1);
    } else {
      NotesFirst(c, w, reserved, inc, k, |inc.victims|);
    }
    assert forall x: seq<Attempt>, y: seq<Attempt>, z: seq<Attempt> :: (x + y) + z == x + (y + z);
  }

  /** The victim goes around if it can, else the choice is among the later ones. */
  ghost predicate GoesAround(c: Settings, w: World, t: real, reserved: set<Pocket>, inc: Incident, reason: Reason, told: bool, r: Rung)
    requires inc.index < |inc.victims|
  {
    if CanDetour(w, inc, inc.Victim()) then
      && r.end == Going && r.inc.index == inc.index && Detours(w, t, inc, r.inc) && SamePath(inc, r.inc)
      && r.inc.attempts == inc.attempts + [GoAround(inc.Victim(), reason, true)] && TellsEscalation(r, false, told)
    else
      Chooses(c, w, t, reserved, inc, inc.index + 1,
              Before(inc.attempts + [GoAround(inc.Victim(), reason, false)], true, NoRoute(reason)), r)
  }

  lemma {:induction false} StartYieldChooses(c: Settings, w: World, t: real, reserved: set<Pocket>, inc: Incident, x: Reason)
    requires inc.index < |inc.victims| && Distinct(inc.victims)
    ensures Chooses(c, w, t, reserved, inc, inc.index, Before(inc.attempts, false, x), StartYield(c, w, t, reserved, inc))
    decreases |inc.victims| - inc.index, 2
  {
    hide StartAlt, Chooses, PocketOf, OthersDrive, MayYield;
    PocketMeans(c, w, reserved, inc);
    if !inc.OthersActive(w) {
      StartAltChooses(c, w, t, reserved, inc, OthersParked, false);
      GoesOrLater(c, w, t, reserved, inc, false, x, StartYield(c, w, t, reserved, inc));
    } else if PocketOf(c, w, inc.Victim(), reserved).0 == None {
      NotWithin(c, w, reserved, inc);
      StartAltChooses(c, w, t, reserved, inc, NoPocket, true);
      GoesOrLater(c, w, t, reserved, inc, true, x, StartYield(c, w, t, reserved, inc));
    } else {
      YieldsNow(c, w, t, reserved, inc, x);
    }
  }

  lemma NotWithin(c: Settings, w: World, reserved: set<Pocket>, inc: Incident)
    requires inc.index < |inc.victims| && PocketOf(c, w, inc.Victim(), reserved).0 == None
    ensures !PocketOf(c, w, inc.Victim(), reserved).1
  {
  }

  lemma OthersDriveIs(w: World, inc: Incident)
    requires inc.index < |inc.victims|
    ensures inc.OthersActive(w) <==> OthersDrive(w, inc, inc.Victim())
  {
  }

  lemma YieldsNow(c: Settings, w: World, t: real, reserved: set<Pocket>, inc: Incident, x: Reason)
    requires inc.index < |inc.victims| && inc.OthersActive(w) && PocketOf(c, w, inc.Victim(), reserved).0.Some?
    ensures Chooses(c, w, t, reserved, inc, inc.index, Before(inc.attempts, false, x), StartYield(c, w, t, reserved, inc))
  {
    hide StartAlt, OthersDrive, WhyNot, MayYield, CanYield;
    PocketMeans(c, w, reserved, inc);
    OthersDriveIs(w, inc);
    OneNote(c, w, reserved, inc, inc.index);
    var r := StartYield(c, w, t, reserved, inc);
    assert r.inc.attempts == inc.attempts + NotesOf(c, w, reserved, inc, inc.Victim());
  }

  lemma OneNote(c: Settings, w: World, reserved: set<Pocket>, inc: Incident, k: nat)
    requires k < |inc.victims|
    ensures AllNotes(c, w, reserved, inc, k, k + 1) == NotesOf(c, w, reserved, inc, inc.victims[k])
  {
    hide NotesOf;
    assert AllNotes(c, w, reserved, inc, k, k) == [];
  }

  /** A victim that cannot give way goes around, or the choice is among the later ones. */
  lemma GoesOrLater(c: Settings, w: World, t: real, reserved: set<Pocket>, inc: Incident, told: bool, x: Reason, r: Rung)
    requires inc.index < |inc.victims| && !CanYield(c, w, reserved, inc, inc.Victim()) && told == inc.OthersActive(w)
    requires GoesAround(c, w, t, reserved, inc, if told then NoPocket else OthersParked, told, r)
    ensures Chooses(c, w, t, reserved, inc, inc.index, Before(inc.attempts, false, x), r)
  {
    hide CanYield, CanDetour, OthersDrive, Detours;
    OthersDriveIs(w, inc);
    OneNote(c, w, reserved, inc, inc.index);
    if !CanDetour(w, inc, inc.Victim()) {
      ChoosesLater(c, w, t, reserved, inc, inc.index, Before(inc.attempts, false, x), r);
    }
  }

  lemma {:induction false} StartAltChooses(c: Settings, w: World, t: real, reserved: set<Pocket>, inc: Incident,
                                           reason: Reason, announce: bool)
    requires inc.index < |inc.victims| && Distinct(inc.victims) && !reason.NoAltPath? && !reason.AltTimeout?
    ensures GoesAround(c, w, t, reserved, inc, reason, announce && (inc.strategy == Yield || reason == NoPocket),
                       StartAlt(c, w, t, reserved, inc, reason, announce))
    decreases |inc.victims| - inc.index, 1
  {
    hide NextVictim, MaskOf, Chooses, CanDetour, MayDetour;
    MaskMeans(w, inc);
    var mask := MaskOf(w, inc);
    var tried := Note(inc, GoAround(inc.Victim(), reason, mask.Some?));
    if mask == None {
      NextVictimChooses(c, w, t, reserved, tried, NoRoute(reason));
      SameChoice(c, w, t, reserved, inc, tried, inc.index + 1, Before(tried.attempts, true, NoRoute(reason)),
                 NextVictim(c, w, t, reserved, tried, NoRoute(reason)));
    }
  }

  /** The one victim keeps trying: its planner finds new ways, and there is time left. */
  ghost predicate Retries(inc: Incident, reason: Reason) {
    (reason == NoAltPath || reason == AltTimeout) && |inc.victims| == 1 && inc.replanned
  }

  lemma {:induction false} NextVictimChooses(c: Settings, w: World, t: real, reserved: set<Pocket>, inc: Incident, reason: Reason)
    requires inc.index < |inc.victims| && Distinct(inc.victims)
    ensures var r := NextVictim(c, w, t, reserved, inc, reason);
            if Retries(inc, reason) then
              if t - inc.detectedAt < c.deadlockMax then r == Rung(inc.(stepStarted := t), [], Going)
              else r.end == GivenUp && OnlyExhausted(r, reason) && r.inc.attempts == inc.attempts
            else Chooses(c, w, t, reserved, inc, inc.index + 1, Before(inc.attempts, true, reason), r)
    decreases |inc.victims| - inc.index, 0
  {
    hide StartYield, Chooses, Retries;
    var next := inc.(pocket := None, mask := None, index := inc.index + 1);
    if !Retries(inc, reason) {
      if next.index < |next.victims| {
        StartYieldChooses(c, w, t, reserved, next, reason);
        var rest := StartYield(c, w, t, reserved, next);
        SameChoice(c, w, t, reserved, inc, next, next.index, Before(inc.attempts, false, reason), rest);
        ChangeTold(c, w, t, reserved, inc, next.index, Before(inc.attempts, false, reason), rest);
        NextWhen(c, w, t, reserved, inc, reason);
      } else {
        NextWhen(c, w, t, reserved, inc, reason);
        NobodyLeft(c, w, t, reserved, inc, reason, GiveUp(next, Exhausted(reason)));
      }
    } else {
      RetriesWhen(c, w, t, reserved, inc, reason);
    }
  }

  lemma RetriesWhen(c: Settings, w: World, t: real, reserved: set<Pocket>, inc: Incident, reason: Reason)
    requires inc.index < |inc.victims| && Retries(inc, reason)
    ensures var r := NextVictim(c, w, t, reserved, inc, reason);
            if t - inc.detectedAt < c.deadlockMax then r == Rung(inc.(stepStarted := t), [], Going)
            else r.end == GivenUp && OnlyExhausted(r, reason) && r.inc.attempts == inc.attempts
  {
  }

  lemma NextWhen(c: Settings, w: World, t: real, reserved: set<Pocket>, inc: Incident, reason: Reason)
    requires inc.index < |inc.victims| && Distinct(inc.victims) && !Retries(inc, reason)
    ensures var next := inc.(pocket := None, mask := None, index := inc.index + 1);
            var r := NextVictim(c, w, t, reserved, inc, reason);
            if next.index >= |next.victims| then r == GiveUp(next, Exhausted(reason))
            else
              var rest := StartYield(c, w, t, reserved, next);
              r == if rest.end != Going || rest.inc.Victim() != next.Victim() then rest
                   else rest.(events := [rest.inc.Tell(Escalated)] + rest.events)
  {
    hide StartYield;
  }

  lemma NobodyLeft(c: Settings, w: World, t: real, reserved: set<Pocket>, inc: Incident, reason: Reason, r: Rung)
    requires inc.index + 1 >= |inc.victims| && r.end == GivenUp && OnlyExhausted(r, reason) && r.inc.attempts == inc.attempts
    requires SamePath(inc, r.inc)
    ensures Chooses(c, w, t, reserved, inc, inc.index + 1, Before(inc.attempts, true, reason), r)
  {
    hide CanYield, CanDetour;
  }

  /** The change of victim is told exactly once, by the ladder that reaches the victim in its first step. */
  lemma ChangeTold(c: Settings, w: World, t: real, reserved: set<Pocket>, inc: Incident, from: nat, b: Before, r: Rung)
    requires from < |inc.victims| && Distinct(inc.victims) && r.inc.victims == inc.victims
    requires !b.change && Chooses(c, w, t, reserved, inc, from, b, r)
    ensures r.end != Going || r.inc.Victim() != inc.victims[from] ==>
              Chooses(c, w, t, reserved, inc, from, b.(change := true), r)
    ensures r.end == Going && r.inc.Victim() == inc.victims[from] ==>
              Chooses(c, w, t, reserved, inc, from, b.(change := true), r.(events := [r.inc.Tell(Escalated)] + r.events))
  {
    hide CanYield, CanDetour, Yields, Detours, AllNotes, NoneUseful, TellsDetour, WhyNot;
  }

  // ---------------------------------------------------------------- one cycle of an incident

  ghost predicate TooOld(c: Settings, t: real, inc: Incident) {
    t - inc.detectedAt > c.deadlockMax
  }

  /** Another robot of the incident has work and can move. */
  ghost predicate SomeoneToPass(w: World, inc: Incident)
    requires inc.victims != []
  {
    exists r :: r in inc.robots && r != inc.Victim() && w.Active(r) && w.Mobile(r)
  }

  /**
   The incident is over: the others have passed the victim that gives way and it may drive on; or the
   victim's plan goes around, and the others are through, or the victim itself if there are none.
   */
  ghost predicate Over(c: Settings, w: World, t: real, sight: Sight, inc: Incident)
    requires inc.victims != []
  {
    !TooOld(c, t, inc) &&
    if inc.strategy == Yield then sight.othersPassed && sight.releaseOk
    else sight.planClear && if SomeoneToPass(w, inc) then sight.othersPassed && sight.releaseOk else sight.victimPassed
  }

  /** Giving way has not helped: nobody has moved for a while, or it takes too long. */
  ghost predicate YieldFails(c: Settings, t: real, sight: Sight, inc: Incident) {
    (t - inc.stepStarted >= c.escalateAfter && !sight.othersMoved) || t - inc.stepStarted >= c.yieldTimeout
  }

  /** Going around has not helped: no plan avoids the mask after a while, or it takes too long. */
  ghost predicate DetourFails(c: Settings, t: real, sight: Sight, inc: Incident) {
    (!sight.planClear && t - inc.stepStarted >= c.replanGrace) || t - inc.stepStarted >= c.altPathTimeout
  }

  ghost function DetourFailure(c: Settings, t: real, sight: Sight, inc: Incident): Reason {
    if !sight.planClear && t - inc.stepStarted >= c.replanGrace then NoAltPath else AltTimeout
  }

  /** The planner has found another way for the victim at some time, now included. */
  ghost predicate OtherWayFound(w: World, inc: Incident)
    requires inc.victims != []
  {
    inc.replanned || (w.PathOf(inc.Victim()).Some? && inc.path.Some? && inc.path != w.PathOf(inc.Victim()))
  }

  /** What is remembered of the victim's path: the last one seen, and whether it ever changed. */
  ghost function Seen(w: World, inc: Incident): Incident
    requires inc.victims != []
  {
    inc.(path := if w.PathOf(inc.Victim()).Some? then w.PathOf(inc.Victim()) else inc.path, replanned := OtherWayFound(w, inc))
  }

  /** The same measure for the same victim goes on, since the given time. */
  ghost predicate Continues(w: World, inc: Incident, r: Rung, since: real)
    requires inc.victims != []
  {
    && r.end == Going && r.events == []
    && r.inc == (if inc.strategy == Yield then inc else Seen(w, inc)).(stepStarted := since)
  }

  /** What becomes of an incident in a cycle, told by what is seen of it. */
  ghost predicate Stepwise(c: Settings, w: World, t: real, reserved: set<Pocket>, sight: Sight, inc: Incident, r: Rung)
    requires inc.index < |inc.victims|
  {
    if TooOld(c, t, inc) then r == Rung(inc, [inc.Tell(Unresolved(DeadlockMax))], GivenUp)
    else if Over(c, w, t, sight, inc) then r.end == Solved && r.events == [inc.Tell(Resolved)]
    else if inc.strategy == Yield then
      if YieldFails(c, t, sight, inc) then
        GoesAround(c, w, t, reserved, inc,
                   if t - inc.stepStarted >= c.escalateAfter && !sight.othersMoved then Persist else YieldTimeout, true, r)
      else Continues(w, inc, r, inc.stepStarted)
    else if DetourFails(c, t, sight, inc) then
      if |inc.victims| == 1 && OtherWayFound(w, inc) then
        if t - inc.detectedAt < c.deadlockMax then Continues(w, inc, r, t)
        else r.end == GivenUp && OnlyExhausted(r, DetourFailure(c, t, sight, inc))
      else Chooses(c, w, t, reserved, Seen(w, inc), inc.index + 1, Before(inc.attempts, true, DetourFailure(c, t, sight, inc)), r)
    else Continues(w, inc, r, inc.stepStarted)
  }

  lemma SeePathMeans(w: World, inc: Incident)
    requires inc.victims != []
    ensures SeePath(w, inc) == Seen(w, inc)
  {
  }

  /** Every cycle of an open incident. */
  lemma StepOneChooses(c: Settings, w: World, t: real, reserved: set<Pocket>, sight: Sight, inc: Incident)
    requires Open(inc)
    ensures Stepwise(c, w, t, reserved, sight, inc, StepOne(c, w, t, reserved, sight, inc))
  {
    hide InOrder, StartAlt, NextVictim, CanDetour, CanYield, Chooses, SeePath, Continues;
    var r := StepOne(c, w, t, reserved, sight, inc);
    if inc.strategy == Yield {
      YieldSteps(c, w, t, reserved, sight, inc);
    } else {
      DetourSteps(c, w, t, reserved, sight, inc);
    }
  }

  lemma YieldSteps(c: Settings, w: World, t: real, reserved: set<Pocket>, sight: Sight, inc: Incident)
    requires Open(inc) && inc.strategy == Yield
    ensures Stepwise(c, w, t, reserved, sight, inc, StepOne(c, w, t, reserved, sight, inc))
  {
    hide InOrder, StartAlt, GoesAround;
    StartAltChooses(c, w, t, reserved, inc, Persist, true);
    StartAltChooses(c, w, t, reserved, inc, Reason.YieldTimeout, true);
  }

  lemma DetourSteps(c: Settings, w: World, t: real, reserved: set<Pocket>, sight: Sight, inc: Incident)
    requires Open(inc) && inc.strategy == AltPath
    ensures Stepwise(c, w, t, reserved, sight, inc, StepOne(c, w, t, reserved, sight, inc))
  {
    hide InOrder, NextVictim, Chooses, SeePath;
    var seen := SeePath(w, inc);
    SeePathMeans(w, inc);
    forall reason | reason == NoAltPath || reason == AltTimeout
      ensures var r := NextVictim(c, w, t, reserved, seen, reason);
              if |inc.victims| == 1 && OtherWayFound(w, inc) then
                if t - inc.detectedAt < c.deadlockMax then Continues(w, inc, r, t) else r.end == GivenUp && OnlyExhausted(r, reason)
              else Chooses(c, w, t, reserved, seen, inc.index + 1, Before(inc.attempts, true, reason), r)
    {
      NextVictimChooses(c, w, t, reserved, seen, reason);
    }
  }

  // ---------------------------------------------------------------- what is told

  /** Only escalations, or that all is exhausted. */
  ghost predicate StaysOpen(r: Rung) {
    r.end != Solved && forall e :: e in r.events ==> e.kind == Escalated || (e.kind.Unresolved? && e.kind.reason.Exhausted?)
  }

  lemma ChoosesTells(c: Settings, w: World, t: real, reserved: set<Pocket>, inc: Incident, from: nat, b: Before, r: Rung)
    requires Chooses(c, w, t, reserved, inc, from, b, r)
    ensures StaysOpen(r)
  {
    hide CanYield, CanDetour, NoneUseful, AllNotes, Yields, Detours, TellsDetour, WhyNot;
  }

  lemma GoesAroundTells(c: Settings, w: World, t: real, reserved: set<Pocket>, inc: Incident, reason: Reason, told: bool, r: Rung)
    requires inc.index < |inc.victims| && GoesAround(c, w, t, reserved, inc, reason, told, r)
    ensures StaysOpen(r)
  {
    hide CanDetour, Detours, Chooses;
    if !CanDetour(w, inc, inc.Victim()) {
      ChoosesTells(c, w, t, reserved, inc, inc.index + 1,
                   Before(inc.attempts + [GoAround(inc.Victim(), reason, false)], true, NoRoute(reason)), r);
    }
  }

  /** A cycle tells of a resolution exactly if the incident is over, and of old age exactly if it is too old. */
  lemma StepwiseTells(c: Settings, w: World, t: real, reserved: set<Pocket>, sight: Sight, inc: Incident, r: Rung)
    requires inc.index < |inc.victims| && Stepwise(c, w, t, reserved, sight, inc, r)
    ensures (exists x :: x in r.events && x.kind == Resolved) <==> Over(c, w, t, sight, inc)
    ensures (exists x :: x in r.events && x.kind == Unresolved(DeadlockMax)) <==> TooOld(c, t, inc)
    ensures Over(c, w, t, sight, inc) || TooOld(c, t, inc) ==> r.end != Going
  {
    hide Chooses, GoesAround, SomeoneToPass;
    if TooOld(c, t, inc) || Over(c, w, t, sight, inc) {
      assert r.events[0] in r.events;
    } else if inc.strategy == Yield && YieldFails(c, t, sight, inc) {
      GoesAroundTells(c, w, t, reserved, inc, if t - inc.stepStarted >= c.escalateAfter && !sight.othersMoved then Persist
                                              else Reason.YieldTimeout, true, r);
    } else if inc.strategy != Yield && DetourFails(c, t, sight, inc) && !(|inc.victims| == 1 && OtherWayFound(w, inc)) {
      ChoosesTells(c, w, t, reserved, Seen(w, inc), inc.index + 1, Before(inc.attempts, true, DetourFailure(c, t, sight, inc)), r);
    }
  }
}
