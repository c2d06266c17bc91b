/** Whole runs of the token manager: cycles, and reservations, forgotten robots and new zones between them. */
module TokenRuns {
  import opened Options
  import opened Tokens
  import opened TokenSafety

  /** What happens between two cycles. */
  datatype Step =
    | Reserve(robot: Robot, zones: seq<Zone>, directions: map<Zone, Direction>)
    | Forget(robot: Robot)
    | Rezone(sharing: map<Zone, bool>)

  /** Steps, and then a cycle. */
  datatype Turn = Turn(steps: seq<Step>, input: Input)

  datatype Manager = Manager(c: Config, s: State)

  function Stepped(m: Manager, e: Step): Manager {
    match e
    case Reserve(r, zones, directions) => m.(s := Reserved(m.c, m.s, r, zones, directions))
    case Forget(r) => m.(s := Forgotten(m.s, r))
    case Rezone(z) => Manager(m.c.(zones := z), Rezoned(m.s, z))
  }

  function AfterSteps(m: Manager, steps: seq<Step>): Manager {
    if steps == [] then m else Stepped(AfterSteps(m, steps[..|steps| - 1]), steps[|steps| - 1])
  }

  /** The zones may be replaced: what is shared at that moment still may be. */
  ghost predicate MayStep(m: Manager, e: Step) {
    e.Rezone? ==> forall k, l :: k in m.s.held && l in m.s.held && k.0 == l.0 && k.1 != l.1 && k.0 in e.sharing ==> e.sharing[k.0]
  }

  ghost predicate MaySteps(m: Manager, steps: seq<Step>) {
    steps != [] ==> MaySteps(m, steps[..|steps| - 1]) && MayStep(AfterSteps(m, steps[..|steps| - 1]), steps[|steps| - 1])
  }

  function Cycled(m: Manager, i: Input): Manager {
    m.(s := Updated(m.c, m.s, i))
  }

  function AfterTurns(m: Manager, turns: seq<Turn>): Manager
    decreases |turns|
  {
    if turns == [] then m else AfterTurns(Cycled(AfterSteps(m, turns[0].steps), turns[0].input), turns[1..])
  }

  ghost predicate MayTurns(m: Manager, turns: seq<Turn>)
    decreases |turns|
  {
    turns != [] ==>
      && MaySteps(m, turns[0].steps) && turns[0].input.Valid()
      && MayTurns(Cycled(AfterSteps(m, turns[0].steps), turns[0].input), turns[1..])
  }

  ghost predicate Fine(m: Manager) {
    Valid(m.c, m.s)
  }

  /** A step keeps exclusion exactly if it may happen. */
  lemma StepFine(m: Manager, e: Step)
    requires Fine(m)
    ensures Fine(Stepped(m, e)) <==> MayStep(m, e)
  {
    hide Valid, Exclusive;
    match e
    case Reserve(r, zones, directions) => ReservedValid(m.c, m.s, r, zones, directions);
    case Forget(r) => ForgottenValid(m.c, m.s, r);
    case Rezone(z) => RezonedValid(m.c, m.s, z);
  }

  lemma {:induction false} StepsFine(m: Manager, steps: seq<Step>)
    requires Fine(m) && MaySteps(m, steps)
    ensures Fine(AfterSteps(m, steps))
  {
    hide Fine, MayStep, Stepped;
    if steps != [] {
      var n := |steps| - 1;
      StepsFine(m, steps[..n]);
      StepFine(AfterSteps(m, steps[..n]), steps[n]);
    }
  }

  lemma CycleFine(m: Manager, i: Input)
    requires Fine(m) && i.Valid()
    ensures Fine(Cycled(m, i))
  {
    hide Valid, Updated;
    UpdatedValid(m.c, m.s, i);
  }

  /** Every run keeps exclusion and the entered slots within the held ones. */
  lemma {:induction false} AlwaysValid(m: Manager, turns: seq<Turn>)
    requires Fine(m) && MayTurns(m, turns)
    ensures Fine(AfterTurns(m, turns))
    decreases |turns|
  {
    hide Fine, MaySteps, AfterSteps, Cycled, Input.Valid;
    if turns != [] {
      var b := AfterSteps(m, turns[0].steps);
      StepsFine(m, turns[0].steps);
      CycleFine(b, turns[0].input);
      AlwaysValid(Cycled(b, turns[0].input), turns[1..]);
    }
  }

  // ---------------------------------------------------------------- bodies in zones

  /** The steps take the slot away: its robot is forgotten or its zone is gone. */
  predicate Drops(e: Step, k: Slot) {
    (e.Forget? && e.robot == k.1) || (e.Rezone? && k.0 !in e.sharing)
  }

  predicate Dropped(steps: seq<Step>, k: Slot) {
    exists j :: 0 <= j < |steps| && Drops(steps[j], k)
  }

  lemma {:induction false} StepsKeep(m: Manager, steps: seq<Step>, k: Slot)
    requires Fine(m) && MaySteps(m, steps) && k in m.s.held && !Dropped(steps, k)
    ensures k in AfterSteps(m, steps).s.held
  {
    hide Fine, MayStep, Drops;
    if steps != [] {
      var n := |steps| - 1;
      assert !Dropped(steps[..n], k);
      StepsKeep(m, steps[..n], k);
      StepsFine(m, steps[..n]);
      StepKeeps(AfterSteps(m, steps[..n]), steps[n], k);
    }
  }

  lemma StepKeeps(m: Manager, e: Step, k: Slot)
    requires Fine(m) && k in m.s.held && !Drops(e, k)
    ensures k in Stepped(m, e).s.held
  {
    hide Valid;
    if e.Reserve? {
      ReservedValid(m.c, m.s, e.robot, e.zones, e.directions);
    }
  }

  /**
   Bodies are only where they were in the cycle before, unless the robot was forgotten or the zone
   dropped since then, or in zones that are held when the cycle begins.
   */
  ghost predicate EntersHeldZones(m: Manager, before: seq<Slot>, turns: seq<Turn>)
    decreases |turns|
  {
    turns != [] ==>
      var b, i := AfterSteps(m, turns[0].steps), turns[0].input;
      && (forall k :: k in i.occupied ==> (k in before && !Dropped(turns[0].steps, k)) || k in b.s.held)
      && EntersHeldZones(Cycled(b, i), i.occupied, turns[1..])
  }

  /** Two directions (unit vectors) at most the allowed angle apart, by its cosine. */
  ghost predicate AlmostParallel(minCos: real, d: Direction, e: Direction) {
    d.Some? && e.Some? && minCos <= e.value.1 * d.value.1 + e.value.0 * d.value.0
  }

  /** Two bodies in one zone only if it may be shared and both are to pass it in almost the same direction. */
  ghost predicate Apart(m: Manager, occupied: seq<Slot>) {
    forall k, l :: k in occupied && l in occupied && k.0 == l.0 && k.1 != l.1 ==>
      && k.0 in m.c.zones && m.c.zones[k.0] && k in m.s.held && l in m.s.held
      && AlmostParallel(m.c.minCos, m.s.held[k], m.s.held[l])
  }

  /** The manager when cycle n begins. */
  function ManagerAt(m: Manager, turns: seq<Turn>, n: nat): Manager
    requires n < |turns|
    decreases n
  {
    var b := AfterSteps(m, turns[0].steps);
    if n == 0 then b else ManagerAt(Cycled(b, turns[0].input), turns[1..], n - 1)
  }

  /** If robots enter only zones they hold, two bodies meet only in a corridor they pass the same way. */
  lemma {:induction false} PhysicalExclusion(m: Manager, before: seq<Slot>, turns: seq<Turn>, n: nat)
    requires Fine(m) && MayTurns(m, turns) && (forall k :: k in before ==> k in m.s.held)
    requires EntersHeldZones(m, before, turns) && n < |turns|
    ensures Apart(ManagerAt(m, turns, n), turns[n].input.occupied)
    decreases |turns|
  {
    hide Fine, MaySteps, AfterSteps, Cycled, Dropped, Apart, Input.Valid;
    var t := turns[0];
    var b := AfterSteps(m, t.steps);
    StepsFine(m, t.steps);
    forall k | k in t.input.occupied ensures k in b.s.held {
      if k in before && !Dropped(t.steps, k) {
        StepsKeep(m, t.steps, k);
      }
    }
    if n == 0 {
      MeetingHolders(b, t.input.occupied);
    } else {
      CycleFine(b, t.input);
      BodiesStay(b, t.input);
      PhysicalExclusion(Cycled(b, t.input), t.input.occupied, turns[1..], n - 1);
    }
  }

  lemma BodiesStay(m: Manager, i: Input)
    requires Fine(m) && i.Valid() && forall k :: k in i.occupied ==> k in m.s.held
    ensures forall k :: k in i.occupied ==> k in Cycled(m, i).s.held
  {
    hide Valid, Updated;
    forall k | k in i.occupied ensures k in Cycled(m, i).s.held {
      OccupiedStays(m.c, m.s, i, k);
    }
  }

  lemma MeetingHolders(m: Manager, occupied: seq<Slot>)
    requires Fine(m) && forall k :: k in occupied ==> k in m.s.held
    ensures Apart(m, occupied)
  {
    forall k, l | k in occupied && l in occupied && k.0 == l.0 && k.1 != l.1
      ensures k.0 in m.c.zones && m.c.zones[k.0] && k in m.s.held && l in m.s.held
      ensures AlmostParallel(m.c.minCos, m.s.held[k], m.s.held[l])
    {
      assert SameWay(m.c, k.0, m.s.held[k], m.s.held[l]);
    }
  }

  /** Robots may share a zone exactly if it allows that and they are to pass it in almost the same direction. */
  lemma SameWayWhen(c: Config, z: Zone, d: Direction, e: Direction)
    ensures SameWay(c, z, d, e) <==> z in c.zones && c.zones[z] && AlmostParallel(c.minCos, d, e)
  {
  }
}
