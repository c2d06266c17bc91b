/** Kidnapped-robot detection and recovery: what every event does to the state machine, and what every run keeps. */
module Kidnap {
  import opened Options

  datatype Phase = Tracking | Suspect | Recovering | Failed

  datatype Action =
    | PublishLost(lost: bool)
    | Reinitialize(attempt: int)
    | Spin
    | CancelSpin
    | SetEkfPose
    | SeedPose

  datatype Params = Params(
    covThresh: real, yawCovThresh: real,
    matchThresh: real, matchWindow: int, minMatchBeams: int,
    regRejectRatio: real, regWindow: nat, regMinSamples: nat, regMarkerVetoRatio: real,
    suspectTime: real,
    convergeCov: real, convergeMatch: real, convergeMargin: real, convergeCount: int, externalTrustWindow: real,
    spinRetry: int, reinitRetry: int, recoveryTimeout: real, cooldown: real,
    markerFixMinError: real, markerFixPersist: real)

  /** What the sensors say. amcl: stamp of the last AMCL pose; cov: its (xy trace, yaw variance). */
  datatype Signals = Signals(
    amcl: Option<real>, cov: (real, real), amclAlarm: bool,
    lastMatch: Option<real>, lastMargin: Option<real>, lowMatch: int, matchAlarm: bool,
    regHist: seq<bool>, regAlarm: bool, alarmActive: bool)

  /** How far the recovery is. */
  datatype Effort = Effort(spinActive: bool, spinsLeft: int, reinitsDone: int)

  /** cooldownUntil, trustUntil: None is minus infinity. */
  datatype State = State(
    phase: Phase, lost: bool, backendReady: bool, spinReady: bool, spinDownSince: Option<real>,
    effort: Effort,
    lostSince: real, suspectSince: real, cooldownUntil: Option<real>, trustUntil: Option<real>,
    convergedCount: int, mismatchSince: Option<real>,
    sig: Signals)

  type Outcome = (State, seq<Action>)

  const START := State(Tracking, false, true, true, None, Effort(false, 0, 0), 0.0, 0.0, None, None, 0, None,
                       Signals(None, (0.0, 0.0), false, None, None, 0, false, [], false, false))

  // ---------------------------------------------------------------- recovery steps

  function SpinNow(s: State): Outcome {
    (s.(effort := s.effort.(spinActive := true)), [Spin])
  }

  function CancelOf(s: State): seq<Action> {
    if s.effort.spinActive then [CancelSpin] else []
  }

  function Reinit(p: Params, s: State): Outcome {
    var n := s.effort.reinitsDone + 1;
    (s.(effort := Effort(true, p.spinRetry - 1, n)), CancelOf(s) + [Reinitialize(n), Spin])
  }

  function Fail(s: State): Outcome {
    (s.(phase := Failed, effort := s.effort.(spinActive := false)), CancelOf(s))
  }

  /** Forgets the scans of the old pose. */
  function ForgetScans(g: Signals): Signals {
    g.(lowMatch := 0, regHist := [], regAlarm := false)
  }

  /** What a new loss clears, however it was found. */
  function Lose(s: State, t: real): State {
    s.(lost := true, lostSince := t, effort := s.effort.(reinitsDone := 0), convergedCount := 0,
       sig := ForgetScans(s.sig).(lastMatch := None, lastMargin := None), phase := Recovering)
  }

  function DeclareLost(p: Params, s: State, t: real): Outcome {
    var (r, actions) := Reinit(p, Lose(s.(trustUntil := None), t));
    (r, [PublishLost(true)] + actions)
  }

  function Recover(p: Params, s: State, t: real): Outcome {
    (s.(effort := s.effort.(spinActive := false), lost := false, trustUntil := None,
        cooldownUntil := Some(t + p.cooldown),
        sig := ForgetScans(s.sig).(amclAlarm := false, matchAlarm := false, alarmActive := false),
        phase := Tracking),
     CancelOf(s) + (if s.sig.amcl.Some? then [SetEkfPose] else []) + [PublishLost(false)])
  }

  // ---------------------------------------------------------------- evaluation

  predicate Since(bound: Option<real>, t: real) {
    bound == None || t >= bound.value
  }

  /** Does the estimate count as converged; an undecided alias blocks it unless an outside pose is still trusted. */
  predicate Converged(p: Params, s: State, t: real) {
    var g := s.sig;
    && g.amcl.Some? && g.amcl.value >= s.lostSince && g.cov.0 < p.convergeCov && g.cov.1 < p.yawCovThresh
    && g.lastMatch.Some? && g.lastMatch.value >= p.convergeMatch
    && (g.lastMargin.Some? && g.lastMargin.value < p.convergeMargin ==> !Since(s.trustUntil, t))
  }

  function OnTick(p: Params, s: State, t: real): Outcome {
    if s.phase == Suspect && t - s.suspectSince >= p.suspectTime then
      if s.sig.alarmActive then DeclareLost(p, s, t) else (s.(phase := Tracking), [])
    else if s.phase == Recovering && s.backendReady && s.spinReady && t - s.lostSince > p.recoveryTimeout then
      Fail(s)
    else (s, [])
  }

  function WithAlarm(g: Signals): Signals {
    g.(alarmActive := g.amclAlarm || g.matchAlarm || g.regAlarm)
  }

  /** New signals: alarms raise suspicion, agreement ends a recovery. */
  function Evaluate(p: Params, s0: State, t: real, jump: bool): Outcome {
    var s := s0.(sig := WithAlarm(s0.sig));
    match s.phase
    case Tracking =>
      if (s.sig.alarmActive || jump) && Since(s.cooldownUntil, t) then (s.(suspectSince := t, phase := Suspect), [])
      else (s, [])
    case Suspect => OnTick(p, s, t)
    case _ =>
      var n := if Converged(p, s, t) then s.convergedCount + 1 else 0;
      if n >= p.convergeCount then Recover(p, s.(convergedCount := n), t) else (s.(convergedCount := n), [])
  }

  function Accepted(h: seq<bool>): nat {
    if h == [] then 0 else (if h[0] then 1 else 0) + Accepted(h[1..])
  }

  /** The history keeps its last window samples. */
  function Trim(h: seq<bool>, window: nat): seq<bool> {
    if |h| > window > 0 then h[|h| - window..] else h
  }

  function Rejection(h: seq<bool>): real
    requires h != []
  {
    (|h| - Accepted(h)) as real / |h| as real
  }

  // ---------------------------------------------------------------- events

  /** jump: AMCL moved unlike the odometry. error: distance of the marker pose from the estimate. */
  datatype Event =
    | Amcl(trace: real, yaw: real, jump: bool)
    | ExternalPose
    | BackendReady(ready: bool)
    | SpinReady(ready: bool)
    | MarkerFix(error: real)
    | Match(ratio: real, beams: int, margin: Option<real>)
    | ScanMatch(accepted: bool)
    | SpinDone
    | Tick

  function OnAmcl(p: Params, s: State, t: real, trace: real, yaw: real, jump: bool): Outcome {
    var g := s.sig.(cov := (trace, yaw), amcl := Some(t), amclAlarm := trace > p.covThresh || yaw > p.yawCovThresh);
    Evaluate(p, s.(sig := g), t, jump)
  }

  function LaterOf(bound: Option<real>, t: real): Option<real> {
    if bound.Some? && bound.value > t then bound else Some(t)
  }

  function OnExternalPose(p: Params, s: State, t: real): State {
    s.(cooldownUntil := LaterOf(s.cooldownUntil, t + p.cooldown), mismatchSince := None,
       sig := ForgetScans(s.sig).(matchAlarm := false, alarmActive := s.sig.amclAlarm),
       phase := if s.phase == Suspect then Tracking else s.phase, trustUntil := Some(t + p.externalTrustWindow))
  }

  function OnBackendReady(p: Params, s: State, t: real, ready: bool): Outcome {
    if ready == s.backendReady then (s, [])
    else if !ready then (s.(backendReady := false), [])
    else
      var r := s.(backendReady := true, trustUntil := Some(t + p.externalTrustWindow));
      if s.phase == Recovering || s.phase == Failed then
        Reinit(p, r.(effort := r.effort.(reinitsDone := 0), lostSince := t, phase := Recovering))
      else (r, [])
  }

  function NoteSpinAvailable(s: State, t: real): State {
    if s.spinReady then s
    else if s.spinDownSince.Some? then
      s.(spinReady := true, lostSince := s.lostSince + (t - s.spinDownSince.value), spinDownSince := None)
    else s.(spinReady := true)
  }

  function OnSpinReady(s: State, t: real, ready: bool): Outcome {
    if ready == s.spinReady then (s, [])
    else if !ready then (s.(spinReady := false, spinDownSince := Some(t), effort := s.effort.(spinActive := false)), [])
    else
      var r := NoteSpinAvailable(s, t);
      if r.phase == Recovering && r.backendReady then SpinNow(r) else (r, [])
  }

  /** The scan matcher agrees with the current estimate. */
  predicate MatcherAgrees(p: Params, h: seq<bool>) {
    |h| >= p.regMinSamples && h != [] && Rejection(h) < p.regMarkerVetoRatio
  }

  function OnMarkerFix(p: Params, s: State, t: real, error: real): Outcome {
    if s.sig.amcl == None || !Since(s.cooldownUntil, t) || s.lost then (s, [])
    else if error < p.markerFixMinError then (s.(mismatchSince := None), [])
    else if s.mismatchSince == None then (s.(mismatchSince := Some(t)), [])
    else if t - s.mismatchSince.value < p.markerFixPersist then (s, [])
    else if MatcherAgrees(p, s.sig.regHist) then (s.(mismatchSince := None), [])
    else
      var (r, actions) := SpinNow(Lose(s, t).(mismatchSince := None, cooldownUntil := Some(t + p.cooldown)));
      (r, [PublishLost(true), SeedPose] + actions)
  }

  function OnMatch(p: Params, s: State, t: real, ratio: real, beams: int, margin: Option<real>): Outcome {
    if beams < p.minMatchBeams then Evaluate(p, s, t, false)
    else
      var low := if ratio < p.matchThresh then s.sig.lowMatch + 1 else 0;
      var g := s.sig.(lastMatch := Some(ratio), lastMargin := margin, lowMatch := low, matchAlarm := low >= p.matchWindow);
      Evaluate(p, s.(sig := g), t, false)
  }

  function OnScanMatch(p: Params, s: State, t: real, accepted: bool): Outcome {
    var h := Trim(s.sig.regHist + [accepted], p.regWindow);
    var g := s.sig.(regHist := h, regAlarm := |h| >= p.regMinSamples && Rejection(h) > p.regRejectRatio);
    Evaluate(p, s.(sig := g), t, false)
  }

  function OnSpinDone(p: Params, s0: State): Outcome {
    var s := s0.(effort := s0.effort.(spinActive := false));
    if s.phase != Recovering || !s.backendReady || !s.spinReady then (s, [])
    else if s.effort.spinsLeft > 0 then SpinNow(s.(effort := s.effort.(spinsLeft := s.effort.spinsLeft - 1)))
    else if s.effort.reinitsDone < p.reinitRetry then Reinit(p, s)
    else Fail(s)
  }

  function Handle(p: Params, s: State, t: real, e: Event): Outcome {
    match e
    case Amcl(trace, yaw, jump) => OnAmcl(p, s, t, trace, yaw, jump)
    case ExternalPose => (OnExternalPose(p, s, t), [])
    case BackendReady(ready) => OnBackendReady(p, s, t, ready)
    case SpinReady(ready) => OnSpinReady(s, t, ready)
    case MarkerFix(error) => OnMarkerFix(p, s, t, error)
    case Match(ratio, beams, margin) => OnMatch(p, s, t, ratio, beams, margin)
    case ScanMatch(accepted) => OnScanMatch(p, s, t, accepted)
    case SpinDone => OnSpinDone(p, s)
    case Tick => OnTick(p, s, t)
  }

  /**
   What the monitor node makes of the actions: starting a spin reports at once whether there
   is anything to turn the robot with.
   */
  function Perform(s: State, actions: seq<Action>, t: real, canTurn: bool): State {
    if Spin !in actions then s
    else if canTurn then NoteSpinAvailable(s, t)
    else OnSpinReady(s, t, false).0
  }

  function Step(p: Params, s: State, t: real, e: Event, canTurn: bool): Outcome {
    var (r, actions) := Handle(p, s, t, e);
    (Perform(r, actions, t, canTurn), actions)
  }

  // ---------------------------------------------------------------- what every event keeps

  function Max(a: int, b: int): int {
    if a >= b then a else b
  }

  ghost predicate Inv(p: Params, s: State) {
    && (s.lost <==> s.phase == Recovering || s.phase == Failed)
    && (s.phase == Recovering && s.backendReady && s.spinReady ==> s.effort.spinActive)
    && (s.effort.spinActive ==> s.phase == Recovering)
    && 0 <= s.effort.reinitsDone <= Max(1, p.reinitRetry)
    && s.effort.spinsLeft <= Max(0, p.spinRetry - 1)
  }

  lemma StartInv(p: Params)
    ensures Inv(p, START)
  {
  }

  /** What the published actions amount to: the last lost flag and the re-initializations since the loss. */
  datatype Ledger = Ledger(lost: bool, reinits: int) {
    function Book(a: Action): Ledger {
      match a
      case PublishLost(lost) => Ledger(lost, if lost then 0 else reinits)
      case Reinitialize(_) => Ledger(lost, reinits + 1)
      case _ => this
    }

    function BookAll(actions: seq<Action>): Ledger
      decreases actions
    {
      if actions == [] then this else Book(actions[0]).BookAll(actions[1..])
    }
  }

  lemma {:induction false} BookJoin(l: Ledger, a: seq<Action>, b: seq<Action>)
    ensures l.BookAll(a + b) == l.BookAll(a).BookAll(b)
    decreases a
  {
    if a == [] {
      assert a + b == b;
    } else {
      assert (a + b)[1..] == a[1..] + b;
      BookJoin(l.Book(a[0]), a[1..], b);
    }
  }

  lemma BookCons(l: Ledger, a: Action, b: seq<Action>)
    ensures l.BookAll([a] + b) == l.Book(a).BookAll(b)
  {
    assert ([a] + b)[1..] == b;
  }

  lemma BookCancel(l: Ledger, s: State)
    ensures l.BookAll(CancelOf(s)) == l
  {
  }

  /** The outcome keeps the invariant and its actions say what the new state says. */
  ghost predicate Fair(p: Params, s: State, o: Outcome) {
    && Inv(p, o.0)
    && (Spin in o.1 ==> o.0.effort.spinActive)
    && (forall k :: 0 <= k < |o.1| && o.1[k] == Spin ==> k == |o.1| - 1)
    && Books(s, o)
  }

  /** Booked against the ledger of the old state, the actions give the ledger of the new one. */
  ghost predicate Books(s: State, o: Outcome) {
    Ledger(s.lost, s.effort.reinitsDone).BookAll(o.1) == Ledger(o.0.lost, o.0.effort.reinitsDone)
  }

  lemma ReinitBooks(p: Params, s: State)
    ensures Books(s, Reinit(p, s))
  {
    var l := Ledger(s.lost, s.effort.reinitsDone);
    var n := s.effort.reinitsDone + 1;
    BookJoin(l, CancelOf(s), [Reinitialize(n), Spin]);
    BookCancel(l, s);
    assert [Reinitialize(n), Spin] == [Reinitialize(n)] + [Spin];
    BookCons(l, Reinitialize(n), [Spin]);
  }

  lemma DeclareLostFair(p: Params, s: State, t: real)
    requires Inv(p, s) && !s.lost
    ensures Fair(p, s, DeclareLost(p, s, t))
  {
    var x := Lose(s.(trustUntil := None), t);
    ReinitBooks(p, x);
    BookCons(Ledger(s.lost, s.effort.reinitsDone), PublishLost(true), Reinit(p, x).1);
  }

  lemma FailFair(p: Params, s: State)
    requires s.lost && 0 <= s.effort.reinitsDone <= Max(1, p.reinitRetry) && s.effort.spinsLeft <= Max(0, p.spinRetry - 1)
    ensures Fair(p, s, Fail(s))
  {
    BookCancel(Ledger(s.lost, s.effort.reinitsDone), s);
  }

  lemma RecoverFair(p: Params, s: State, t: real)
    requires Inv(p, s)
    ensures Fair(p, s, Recover(p, s, t))
  {
    var l := Ledger(s.lost, s.effort.reinitsDone);
    var pose := if s.sig.amcl.Some? then [SetEkfPose] else [];
    BookJoin(l, CancelOf(s) + pose, [PublishLost(false)]);
    BookJoin(l, CancelOf(s), pose);
    BookCancel(l, s);
  }

  lemma TickFair(p: Params, s: State, t: real)
    requires Inv(p, s)
    ensures Fair(p, s, OnTick(p, s, t))
  {
    if s.phase == Suspect {
      DeclareLostFair(p, s, t);
    } else if s.phase == Recovering {
      FailFair(p, s);
    }
  }

  lemma EvaluateFair(p: Params, s: State, g: Signals, t: real, jump: bool)
    requires Inv(p, s)
    ensures Fair(p, s, Evaluate(p, s.(sig := g), t, jump))
  {
    hide Converged, Recover, OnTick;
    var x := s.(sig := WithAlarm(g));
    if s.phase == Suspect {
      TickFair(p, x, t);
    } else if s.phase != Tracking {
      var y := x.(convergedCount := if Converged(p, x, t) then x.convergedCount + 1 else 0);
      RecoverFair(p, y, t);
    }
  }

  lemma MarkerFixFair(p: Params, s: State, t: real, error: real)
    requires Inv(p, s)
    ensures Fair(p, s, OnMarkerFix(p, s, t, error))
  {
    hide MatcherAgrees;
    var l := Ledger(s.lost, s.effort.reinitsDone);
    var actions := [PublishLost(true), SeedPose] + [Spin];
    assert actions == [PublishLost(true)] + ([SeedPose] + [Spin]);
    BookCons(l, PublishLost(true), [SeedPose] + [Spin]);
    BookCons(l.Book(PublishLost(true)), SeedPose, [Spin]);
  }

  lemma SpinDoneFair(p: Params, s0: State)
    requires Inv(p, s0)
    ensures Fair(p, s0, OnSpinDone(p, s0))
  {
    var s := s0.(effort := s0.effort.(spinActive := false));
    ReinitBooks(p, s);
    if s.lost {
      FailFair(p, s);
    }
  }

  /** The localization backend came back. */
  predicate Comeback(s: State, e: Event) {
    e.BackendReady? && e.ready && !s.backendReady
  }

  lemma MatchFair(p: Params, s: State, t: real, ratio: real, beams: int, margin: Option<real>)
    requires Inv(p, s)
    ensures Fair(p, s, OnMatch(p, s, t, ratio, beams, margin))
  {
    hide Evaluate, Fair;
    var low := if ratio < p.matchThresh then s.sig.lowMatch + 1 else 0;
    EvaluateFair(p, s, s.sig, t, false);
    EvaluateFair(p, s, s.sig.(lastMatch := Some(ratio), lastMargin := margin, lowMatch := low,
                              matchAlarm := low >= p.matchWindow), t, false);
  }

  lemma ScanMatchFair(p: Params, s: State, t: real, accepted: bool)
    requires Inv(p, s)
    ensures Fair(p, s, OnScanMatch(p, s, t, accepted))
  {
    hide Evaluate, Fair;
    var h := Trim(s.sig.regHist + [accepted], p.regWindow);
    EvaluateFair(p, s, s.sig.(regHist := h, regAlarm := |h| >= p.regMinSamples && Rejection(h) > p.regRejectRatio), t,
                 false);
  }

  lemma BackendFair(p: Params, s: State, t: real, ready: bool)
    requires Inv(p, s)
    ensures var e := Event.BackendReady(ready);
            Fair(p, if Comeback(s, e) && s.lost then s.(effort := s.effort.(reinitsDone := 0)) else s,
                 OnBackendReady(p, s, t, ready))
  {
    if ready && !s.backendReady && s.lost {
      ReinitBooks(p, s.(backendReady := true, trustUntil := Some(t + p.externalTrustWindow), lostSince := t,
                        effort := s.effort.(reinitsDone := 0), phase := Recovering));
    }
  }


  /**
   Every event keeps the invariant: in particular a recovering monitor never goes silent, since
   with the localization and a way to turn available a spin is outstanding. Its actions publish
   the lost flag and count the re-initializations; only a comeback of the backend restarts the count.
   */
  lemma HandleFair(p: Params, s: State, t: real, e: Event)
    requires Inv(p, s)
    ensures Fair(p, if Comeback(s, e) && s.lost then s.(effort := s.effort.(reinitsDone := 0)) else s, Handle(p, s, t, e))
  {
    hide Evaluate, OnTick, OnMarkerFix, OnSpinDone, OnBackendReady, OnMatch, OnScanMatch;
    match e
    case Amcl(trace, yaw, jump) =>
      EvaluateFair(p, s, s.sig.(cov := (trace, yaw), amcl := Some(t), amclAlarm := trace > p.covThresh || yaw > p.yawCovThresh),
                   t, jump);
    case BackendReady(ready) => BackendFair(p, s, t, ready);
    case MarkerFix(error) => MarkerFixFair(p, s, t, error);
    case Match(ratio, beams, margin) => MatchFair(p, s, t, ratio, beams, margin);
    case ScanMatch(accepted) => ScanMatchFair(p, s, t, accepted);
    case SpinDone => SpinDoneFair(p, s);
    case Tick => TickFair(p, s, t);
    case _ =>
  }

  /** Reporting a way to turn without starting a spin keeps the invariant exactly if no spin was due. */
  lemma NoteSpinAvailableSafe(p: Params, s: State, t: real)
    requires Inv(p, s)
    ensures Inv(p, NoteSpinAvailable(s, t)) <==> (s.phase == Recovering && s.backendReady ==> s.effort.spinActive)
  {
  }

  // ---------------------------------------------------------------- whole runs

  datatype Input = Input(t: real, event: Event, canTurn: bool)

  function After(p: Params, s: State, inputs: seq<Input>): State {
    if inputs == [] then s
    else
      var i := inputs[|inputs| - 1];
      Step(p, After(p, s, inputs[..|inputs| - 1]), i.t, i.event, i.canTurn).0
  }

  /** The ledger of the actions of a run; a comeback of the backend starts the count of re-initializations afresh. */
  function LedgerAfter(p: Params, inputs: seq<Input>): Ledger {
    if inputs == [] then Ledger(false, 0)
    else
      var before, i := inputs[..|inputs| - 1], inputs[|inputs| - 1];
      var s, l := After(p, START, before), LedgerAfter(p, before);
      (if Comeback(s, i.event) then l.(reinits := 0) else l).BookAll(Handle(p, s, i.t, i.event).1)
  }

  lemma {:induction false} BookMonotone(a: Ledger, b: Ledger, actions: seq<Action>)
    requires a.lost == b.lost && a.reinits <= b.reinits
    ensures a.BookAll(actions).lost == b.BookAll(actions).lost
    ensures a.BookAll(actions).reinits <= b.BookAll(actions).reinits
    decreases actions
  {
    if actions != [] {
      BookMonotone(a.Book(actions[0]), b.Book(actions[0]), actions[1..]);
    }
  }

  /**
   After every run the robot's published lost flag is the state's, a due spin is outstanding, and
   the re-initializations since the loss or the last comeback of the backend stay within budget.
   */
  lemma {:induction false} Always(p: Params, inputs: seq<Input>)
    ensures var s := After(p, START, inputs);
            var l := LedgerAfter(p, inputs);
            && Inv(p, s) && l.lost == s.lost && l.reinits <= s.effort.reinitsDone <= Max(1, p.reinitRetry)
  {
    if inputs != [] {
      var before, i := inputs[..|inputs| - 1], inputs[|inputs| - 1];
      Always(p, before);
      var s, l := After(p, START, before), LedgerAfter(p, before);
      StepKeeps(p, s, l, i);
    }
  }

  lemma StepKeeps(p: Params, s: State, l: Ledger, i: Input)
    requires Inv(p, s) && l.lost == s.lost && l.reinits <= s.effort.reinitsDone
    ensures var r := Step(p, s, i.t, i.event, i.canTurn).0;
            var l' := (if Comeback(s, i.event) then l.(reinits := 0) else l).BookAll(Handle(p, s, i.t, i.event).1);
            Inv(p, r) && l'.lost == r.lost && l'.reinits <= r.effort.reinitsDone
  {
    hide Handle;
    HandleFair(p, s, i.t, i.event);
    var base := if Comeback(s, i.event) && s.lost then s.(effort := s.effort.(reinitsDone := 0)) else s;
    BookMonotone(if Comeback(s, i.event) then l.(reinits := 0) else l, Ledger(base.lost, base.effort.reinitsDone),
                 Handle(p, s, i.t, i.event).1);
  }

  // ---------------------------------------------------------------- how long a recovery can try

  /** Spins that may still end without success before the recovery fails. */
  function Left(p: Params, s: State): int {
    Max(0, p.reinitRetry - s.effort.reinitsDone) * Max(1, p.spinRetry) + Max(0, s.effort.spinsLeft)
  }

  /** A spin ends while the recovery can go on. */
  predicate Counts(s: State, e: Event) {
    e.SpinDone? && s.phase == Recovering && s.backendReady && s.spinReady
  }

  lemma ProductStep(a: int, m: int)
    ensures (a - 1) * m == a * m - m
  {
  }

  /** Every finished spin uses up exactly one try; the recovery fails exactly when none is left. */
  lemma SpinDoneCounts(p: Params, s: State)
    requires Inv(p, s) && Counts(s, SpinDone)
    ensures var (r, actions) := OnSpinDone(p, s);
            if Left(p, s) == 0 then r.phase == Failed && Spin !in actions
            else r.phase == Recovering && Left(p, r) == Left(p, s) - 1 && Spin in actions
  {
    var a, m := p.reinitRetry - s.effort.reinitsDone, Max(1, p.spinRetry);
    ProductStep(a, m);
    assert a > 0 ==> a * m > 0 by {
      if a > 0 {
        assert (a - 1) * m >= 0;
      }
    }
  }

  /** No other event of a recovery, but a comeback of the backend, gives or takes a try. */
  lemma OthersCountNothing(p: Params, s: State, t: real, e: Event)
    requires Inv(p, s) && s.phase == Recovering && !Counts(s, e) && !Comeback(s, e)
    ensures var r := Handle(p, s, t, e).0;
            r.phase == Recovering ==> Left(p, r) == Left(p, s)
  {
    hide Converged, Rejection, Trim, Max;
  }

  /** Through the run from s the robot keeps recovering and the backend never comes back. */
  ghost predicate KeepsRecovering(p: Params, s: State, inputs: seq<Input>) {
    && (forall k :: 0 <= k <= |inputs| ==> After(p, s, inputs[..k]).phase == Recovering)
    && (forall k :: 0 <= k < |inputs| ==> !Comeback(After(p, s, inputs[..k]), inputs[k].event))
  }

  function Tries(p: Params, s: State, inputs: seq<Input>): nat {
    if inputs == [] then 0
    else
      var before := inputs[..|inputs| - 1];
      Tries(p, s, before) + if Counts(After(p, s, before), inputs[|inputs| - 1].event) then 1 else 0
  }

  lemma PerformKeepsEffort(p: Params, s: State, actions: seq<Action>, t: real, canTurn: bool)
    ensures var r := Perform(s, actions, t, canTurn); Left(p, r) == Left(p, s) && r.phase == s.phase
  {
  }

  lemma {:induction false} KeepsRecoveringPrefix(p: Params, s: State, inputs: seq<Input>)
    requires inputs != [] && KeepsRecovering(p, s, inputs)
    ensures KeepsRecovering(p, s, inputs[..|inputs| - 1])
    ensures After(p, s, inputs[..|inputs| - 1]).phase == Recovering && After(p, s, inputs).phase == Recovering
    ensures !Comeback(After(p, s, inputs[..|inputs| - 1]), inputs[|inputs| - 1].event)
  {
    var n := |inputs| - 1;
    var before := inputs[..n];
    forall k | 0 <= k <= n ensures before[..k] == inputs[..k] {
    }
    assert inputs[..n + 1] == inputs;
  }

  lemma {:induction false} RunKeepsInv(p: Params, s: State, inputs: seq<Input>)
    requires Inv(p, s)
    ensures Inv(p, After(p, s, inputs))
  {
    if inputs != [] {
      var before, i := inputs[..|inputs| - 1], inputs[|inputs| - 1];
      RunKeepsInv(p, s, before);
      var x := After(p, s, before);
      StepKeeps(p, x, Ledger(x.lost, x.effort.reinitsDone), i);
    }
  }

  /** While it recovers, the robot has spun in vain exactly as often as its tries have gone down. */
  lemma {:induction false} TriesAreSpent(p: Params, s: State, inputs: seq<Input>)
    requires Inv(p, s) && KeepsRecovering(p, s, inputs)
    ensures Tries(p, s, inputs) + Left(p, After(p, s, inputs)) == Left(p, s)
  {
    if inputs != [] {
      hide Handle, Perform, Left, Inv;
      var before, i := inputs[..|inputs| - 1], inputs[|inputs| - 1];
      KeepsRecoveringPrefix(p, s, inputs);
      TriesAreSpent(p, s, before);
      RunKeepsInv(p, s, before);
      OneTry(p, After(p, s, before), i);
    }
  }

  lemma OneTry(p: Params, s: State, i: Input)
    requires Inv(p, s) && s.phase == Recovering && !Comeback(s, i.event)
    requires Step(p, s, i.t, i.event, i.canTurn).0.phase == Recovering
    ensures Left(p, Step(p, s, i.t, i.event, i.canTurn).0) == Left(p, s) - if Counts(s, i.event) then 1 else 0
  {
    hide OnSpinDone, Left;
    var (r, actions) := Handle(p, s, i.t, i.event);
    PerformKeepsEffort(p, r, actions, i.t, i.canTurn);
    if Counts(s, i.event) {
      SpinDoneCounts(p, s);
    } else {
      OthersCountNothing(p, s, i.t, i.event);
    }
  }

  // ---------------------------------------------------------------- when a recovery fails

  /**
   A recovery is given up exactly when a spin ends with no try left, or at a tick after the
   recovery timeout; never while the localization or the way to turn is missing.
   */
  lemma FailsExactly(p: Params, s: State, t: real, e: Event)
    requires Inv(p, s) && s.phase != Failed
    ensures Handle(p, s, t, e).0.phase == Failed <==>
              && s.phase == Recovering && s.backendReady && s.spinReady
              && ((e.SpinDone? && Left(p, s) == 0) || (e.Tick? && t - s.lostSince > p.recoveryTimeout))
  {
    if e.SpinDone? {
      FailsBySpin(p, s);
    } else if e.Tick? {
      FailsByTick(p, s, t);
    } else {
      FailsByNothingElse(p, s, t, e);
    }
  }

  lemma FailsBySpin(p: Params, s: State)
    requires Inv(p, s) && s.phase != Failed
    ensures OnSpinDone(p, s).0.phase == Failed <==>
              s.phase == Recovering && s.backendReady && s.spinReady && Left(p, s) == 0
  {
    hide Left;
    if Counts(s, SpinDone) {
      SpinDoneCounts(p, s);
    }
  }

  lemma FailsByTick(p: Params, s: State, t: real)
    requires s.phase != Failed
    ensures OnTick(p, s, t).0.phase == Failed <==>
              s.phase == Recovering && s.backendReady && s.spinReady && t - s.lostSince > p.recoveryTimeout
  {
  }

  lemma FailsByNothingElse(p: Params, s: State, t: real, e: Event)
    requires s.phase != Failed && !e.SpinDone? && !e.Tick?
    ensures Handle(p, s, t, e).0.phase != Failed
  {
    hide Evaluate, Rejection, OnSpinDone, OnTick, MatcherAgrees;
    match e
    case Amcl(trace, yaw, jump) =>
      var g := s.sig.(cov := (trace, yaw), amcl := Some(t), amclAlarm := trace > p.covThresh || yaw > p.yawCovThresh);
      EvaluateFails(p, s.(sig := g), t, jump);
    case Match(ratio, beams, margin) =>
      var low := if ratio < p.matchThresh then s.sig.lowMatch + 1 else 0;
      EvaluateFails(p, s, t, false);
      EvaluateFails(p, s.(sig := s.sig.(lastMatch := Some(ratio), lastMargin := margin, lowMatch := low,
                                        matchAlarm := low >= p.matchWindow)), t, false);
    case ScanMatch(accepted) =>
      var h := Trim(s.sig.regHist + [accepted], p.regWindow);
      EvaluateFails(p, s.(sig := s.sig.(regHist := h, regAlarm := |h| >= p.regMinSamples && Rejection(h) > p.regRejectRatio)),
                    t, false);
    case _ =>
  }

  lemma EvaluateFails(p: Params, s: State, t: real, jump: bool)
    requires s.phase != Failed
    ensures Evaluate(p, s, t, jump).0.phase != Failed
  {
    hide Converged;
  }
}
