/** The detector object: its handlers do to the fields what the events do to the state. */
module KidnapDetecting {
  import opened Kidnap
  import opened KidnapCauses
  import opened Options

  class KidnapDetector {
    const params: Params
    var phase: Phase
    var lost: bool
    var backendReady: bool
    var spinReady: bool
    var spinDownSince: Option<real>
    var effort: Effort
    var lostSince: real
    var suspectSince: real
    var cooldownUntil: Option<real>
    var trustUntil: Option<real>
    var convergedCount: int
    var mismatchSince: Option<real>
    var sig: Signals

    function Now(): State
      reads this
    {
      State(phase, lost, backendReady, spinReady, spinDownSince, effort, lostSince,
            suspectSince, cooldownUntil, trustUntil, convergedCount, mismatchSince, sig)
    }

    constructor (params: Params)
      ensures this.params == params && Now() == START
    {
      this.params := params;
      phase, lost, backendReady, spinReady, spinDownSince := Tracking, false, true, true, None;
      effort, lostSince, suspectSince := Effort(false, 0, 0), 0.0, 0.0;
      cooldownUntil, trustUntil, convergedCount, mismatchSince := None, None, 0, None;
      sig := Signals(None, (0.0, 0.0), false, None, None, 0, false, [], false, false);
    }

    // -------------------------------------------------------------- recovery steps

    method StartSpin() returns (actions: seq<Action>)
      modifies this`effort
      ensures (Now(), actions) == SpinNow(old(Now()))
    {
      effort := effort.(spinActive := true);
      actions := [Spin];
    }

    method CancelSpinIfActive() returns (actions: seq<Action>)
      modifies this`effort
      ensures actions == CancelOf(old(Now())) && effort == old(effort).(spinActive := false)
    {
      actions := [];
      if effort.spinActive {
        actions := [CancelSpin];
        effort := effort.(spinActive := false);
      }
    }

    method ReinitializeNow() returns (actions: seq<Action>)
      modifies this`effort
      ensures (Now(), actions) == Reinit(params, old(Now()))
    {
      effort := effort.(reinitsDone := effort.reinitsDone + 1);
      effort := effort.(spinsLeft := params.spinRetry - 1);
      actions := CancelSpinIfActive();
      var spin := StartSpin();
      assert [Reinitialize(effort.reinitsDone)] + spin == [Reinitialize(effort.reinitsDone), Spin];
      actions := actions + ([Reinitialize(effort.reinitsDone)] + spin);
    }

    method GiveUp() returns (actions: seq<Action>)
      modifies this`phase, this`effort
      ensures (Now(), actions) == Fail(old(Now()))
    {
      phase := Failed;
      actions := CancelSpinIfActive();
    }

    method ResetScans()
      modifies this`sig
      ensures sig == ForgetScans(old(sig))
    {
      sig := sig.(lowMatch := 0, regHist := [], regAlarm := false);
    }

    method MarkLost(t: real)
      modifies this`lost, this`lostSince, this`effort, this`convergedCount, this`sig, this`phase
      ensures Now() == Lose(old(Now()), t)
    {
      lost, lostSince, convergedCount := true, t, 0;
      effort := effort.(reinitsDone := 0);
      ResetScans();
      sig := sig.(lastMatch := None, lastMargin := None);
      phase := Recovering;
    }

    method DeclareLostNow(t: real) returns (actions: seq<Action>)
      modifies this`trustUntil, this`lost, this`lostSince, this`effort, this`convergedCount, this`sig, this`phase
      ensures (Now(), actions) == DeclareLost(params, old(Now()), t)
    {
      trustUntil := None;
      MarkLost(t);
      actions := ReinitializeNow();
      actions := [PublishLost(true)] + actions;
    }

    method RecoverNow(t: real) returns (actions: seq<Action>)
      modifies this`trustUntil, this`cooldownUntil, this`lost, this`effort, this`sig, this`phase
      ensures (Now(), actions) == Recover(params, old(Now()), t)
    {
      actions := CancelSpinIfActive();
      lost, trustUntil, cooldownUntil := false, None, Some(t + params.cooldown);
      ResetScans();
      sig := sig.(amclAlarm := false, matchAlarm := false, alarmActive := false);
      phase := Tracking;
      if sig.amcl != None {
        actions := actions + [SetEkfPose];
      }
      assert actions == CancelOf(old(Now())) + if sig.amcl.Some? then [SetEkfPose] else [];
      actions := actions + [PublishLost(false)];
    }

    // -------------------------------------------------------------- evaluation

    method OnTimer(t: real) returns (actions: seq<Action>)
      modifies this
      ensures (Now(), actions) == OnTick(params, old(Now()), t)
      ensures Fine(params, old(Now())) ==> AsCaused(params, old(Now()), t, Tick, Now(), actions)
    {
      hide AsCaused, Fine;
      Caused(params, Now(), t, Tick);
      actions := [];
      if phase == Suspect && t - suspectSince >= params.suspectTime {
        if sig.alarmActive {
          actions := DeclareLostNow(t);
        } else {
          phase := Tracking;
        }
      } else if phase == Recovering && backendReady && spinReady && t - lostSince > params.recoveryTimeout {
        actions := GiveUp();
      }
    }

    method EvaluateNow(t: real, jump: bool) returns (actions: seq<Action>)
      modifies this
      ensures (Now(), actions) == Evaluate(params, old(Now()), t, jump)
      ensures Weighs(params, old(Now()), t, jump, Now())
    {
      hide Weighs, Converged, OnTick, Recover, Since, Fine, AsCaused;
      EvaluateWeighs(params, Now(), t, jump);
      sig := sig.(alarmActive := sig.amclAlarm || sig.matchAlarm || sig.regAlarm);
      actions := [];
      if phase == Tracking {
        if (sig.alarmActive || jump) && Since(cooldownUntil, t) {
          suspectSince, phase := t, Suspect;
        }
      } else if phase == Suspect {
        actions := OnTimer(t);
      } else {
        convergedCount := if Converged(params, Now(), t) then convergedCount + 1 else 0;
        if convergedCount >= params.convergeCount {
          actions := RecoverNow(t);
        }
      }
    }

    // -------------------------------------------------------------- inputs

    method OnAmclPose(t: real, trace: real, yaw: real, jump: bool) returns (actions: seq<Action>)
      modifies this
      ensures (Now(), actions) == OnAmcl(params, old(Now()), t, trace, yaw, jump)
      ensures Fine(params, old(Now())) ==> AsCaused(params, old(Now()), t, Amcl(trace, yaw, jump), Now(), actions)
    {
      hide AsCaused, Fine, Evaluate;
      Caused(params, Now(), t, Amcl(trace, yaw, jump));
      sig := sig.(cov := (trace, yaw), amcl := Some(t));
      sig := sig.(amclAlarm := trace > params.covThresh || yaw > params.yawCovThresh);
      actions := EvaluateNow(t, jump);
    }

    method OnExternalPoseReset(t: real)
      modifies this
      ensures Now() == OnExternalPose(params, old(Now()), t)
      ensures Fine(params, old(Now())) ==> AsCaused(params, old(Now()), t, ExternalPose, Now(), [])
    {
      hide AsCaused, Fine;
      Caused(params, Now(), t, ExternalPose);
      cooldownUntil, mismatchSince := LaterOf(cooldownUntil, t + params.cooldown), None;
      ResetScans();
      sig := sig.(matchAlarm := false, alarmActive := sig.amclAlarm);
      if phase == Suspect {
        phase := Tracking;
      }
      trustUntil := Some(t + params.externalTrustWindow);
    }

    method SetBackendReady(t: real, ready: bool) returns (actions: seq<Action>)
      modifies this
      ensures (Now(), actions) == OnBackendReady(params, old(Now()), t, ready)
      ensures Fine(params, old(Now())) ==> AsCaused(params, old(Now()), t, Event.BackendReady(ready), Now(), actions)
    {
      hide AsCaused, Fine;
      Caused(params, Now(), t, Event.BackendReady(ready));
      actions := [];
      if ready != backendReady {
        backendReady := ready;
        if ready {
          trustUntil := Some(t + params.externalTrustWindow);
          if phase == Recovering || phase == Failed {
            effort, lostSince, phase := effort.(reinitsDone := 0), t, Recovering;
            actions := ReinitializeNow();
          }
        }
      }
    }

    method SetSpinReady(t: real, ready: bool) returns (actions: seq<Action>)
      modifies this
      ensures (Now(), actions) == OnSpinReady(old(Now()), t, ready)
      ensures Fine(params, old(Now())) ==> AsCaused(params, old(Now()), t, Event.SpinReady(ready), Now(), actions)
    {
      hide AsCaused, Fine;
      Caused(params, Now(), t, Event.SpinReady(ready));
      actions := [];
      if ready != spinReady {
        if !ready {
          spinReady, spinDownSince, effort := false, Some(t), effort.(spinActive := false);
        } else {
          NoteSpin(t);
          if phase == Recovering && backendReady {
            actions := StartSpin();
          }
        }
      }
    }

    method NoteSpin(t: real)
      modifies this`spinReady, this`lostSince, this`spinDownSince
      ensures Now() == NoteSpinAvailable(old(Now()), t)
    {
      if !spinReady {
        spinReady := true;
        if spinDownSince != None {
          lostSince, spinDownSince := lostSince + (t - spinDownSince.value), None;
        }
      }
    }

    method OnMarker(t: real, error: real) returns (actions: seq<Action>)
      modifies this
      ensures (Now(), actions) == OnMarkerFix(params, old(Now()), t, error)
      ensures Fine(params, old(Now())) ==> AsCaused(params, old(Now()), t, MarkerFix(error), Now(), actions)
    {
      hide AsCaused, Fine;
      Caused(params, Now(), t, MarkerFix(error));
      actions := [];
      if sig.amcl == None || !Since(cooldownUntil, t) || lost {
        return;
      }
      if error < params.markerFixMinError {
        mismatchSince := None;
        return;
      }
      if mismatchSince == None {
        mismatchSince := Some(t);
        return;
      }
      if t - mismatchSince.value < params.markerFixPersist {
        return;
      }
      mismatchSince := None;
      if !MatcherAgrees(params, sig.regHist) {
        MarkLost(t);
        cooldownUntil := Some(t + params.cooldown);
        var spin := StartSpin();
        actions := [PublishLost(true), SeedPose] + spin;
      }
    }

    method OnScanMapMatch(t: real, ratio: real, beams: int, margin: Option<real>) returns (actions: seq<Action>)
      modifies this
      ensures (Now(), actions) == OnMatch(params, old(Now()), t, ratio, beams, margin)
      ensures Fine(params, old(Now())) ==> AsCaused(params, old(Now()), t, Match(ratio, beams, margin), Now(), actions)
    {
      hide AsCaused, Fine, Evaluate, Weighs;
      Caused(params, Now(), t, Match(ratio, beams, margin));
      if beams >= params.minMatchBeams {
        sig := sig.(lastMatch := Some(ratio), lastMargin := margin);
        sig := sig.(lowMatch := if ratio < params.matchThresh then sig.lowMatch + 1 else 0);
        sig := sig.(matchAlarm := sig.lowMatch >= params.matchWindow);
      }
      actions := EvaluateNow(t, false);
    }

    method OnRegistration(t: real, accepted: bool) returns (actions: seq<Action>)
      modifies this
      ensures (Now(), actions) == OnScanMatch(params, old(Now()), t, accepted)
      ensures Fine(params, old(Now())) ==> AsCaused(params, old(Now()), t, ScanMatch(accepted), Now(), actions)
    {
      hide AsCaused, Fine, Evaluate;
      Caused(params, Now(), t, ScanMatch(accepted));
      sig := sig.(regHist := Trim(sig.regHist + [accepted], params.regWindow));
      sig := sig.(regAlarm := |sig.regHist| >= params.regMinSamples && Rejection(sig.regHist) > params.regRejectRatio);
      actions := EvaluateNow(t, false);
    }

    method OnSpinEnded(t: real) returns (actions: seq<Action>)
      modifies this
      ensures (Now(), actions) == OnSpinDone(params, old(Now()))
      ensures Fine(params, old(Now())) ==> AsCaused(params, old(Now()), t, SpinDone, Now(), actions)
    {
      hide AsCaused, Fine;
      Caused(params, Now(), t, SpinDone);
      effort := effort.(spinActive := false);
      actions := [];
      if phase == Recovering && backendReady && spinReady {
        if effort.spinsLeft > 0 {
          effort := effort.(spinsLeft := effort.spinsLeft - 1);
          actions := StartSpin();
        } else if effort.reinitsDone < params.reinitRetry {
          actions := ReinitializeNow();
        } else {
          actions := GiveUp();
        }
      }
    }
  }

  /**
   A suspicion starts exactly on an alarm or a jump outside the cool-down; when it has lasted it becomes a loss
   exactly if there is still an alarm, and nothing otherwise; a recovery ends exactly with enough agreement in a row.
   */
  ghost predicate Weighs(p: Params, s: State, t: real, jump: bool, r: State) {
    var alarm := s.sig.amclAlarm || s.sig.matchAlarm || s.sig.regAlarm;
    match s.phase
    case Tracking =>
      r.phase == if (alarm || jump) && (s.cooldownUntil == None || s.cooldownUntil.value <= t) then Suspect else Tracking
    case Suspect =>
      r.phase == if t - s.suspectSince < p.suspectTime then Suspect else if alarm then Recovering else Tracking
    case _ =>
      var agreed := if Converged(p, s.(sig := WithAlarm(s.sig)), t) then s.convergedCount + 1 else 0;
      if agreed >= p.convergeCount then r.phase == Tracking && !r.lost else r.phase == s.phase && r.convergedCount == agreed
  }

  lemma EvaluateWeighs(p: Params, s: State, t: real, jump: bool)
    ensures Weighs(p, s, t, jump, Evaluate(p, s, t, jump).0)
  {
    hide Converged;
  }

  lemma Caused(p: Params, s: State, t: real, e: Event)
    ensures Fine(p, s) ==> AsCaused(p, s, t, e, Handle(p, s, t, e).0, Handle(p, s, t, e).1)
  {
    hide AsCaused, Handle, Fine;
    if Fine(p, s) {
      EventAsCaused(p, s, t, e);
    }
  }
}
