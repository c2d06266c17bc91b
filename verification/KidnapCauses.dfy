/** Why a robot counts as lost, suspect or found again, told by what the sensors reported. */
module KidnapCauses {
  import opened Kidnap
  import opened Options

  // ---------------------------------------------------------------- alarms

  /** Poses of the localization and results of scans lead to an evaluation. */
  ghost predicate Evaluates(e: Event) {
    e.Amcl? || e.Match? || e.ScanMatch?
  }

  /** The last pose is too uncertain. */
  ghost predicate PoseUnsure(p: Params, s: State, e: Event) {
    if e.Amcl? then e.trace > p.covThresh || e.yaw > p.yawCovThresh else s.sig.amclAlarm
  }

  /** The scans have not fitted the map often enough in a row; scans with too few beams do not count. */
  ghost predicate FitsBadly(p: Params, s: State, e: Event) {
    if e.Match? && e.beams >= p.minMatchBeams
    then (if e.ratio < p.matchThresh then s.sig.lowMatch + 1 else 0) >= p.matchWindow
    else s.sig.matchAlarm
  }

  /** The newest of the results. */
  ghost function Newest(h: seq<bool>, window: nat): seq<bool> {
    if window == 0 || |h| <= window then h else h[|h| - window..]
  }

  ghost predicate RejectedAbove(h: seq<bool>, share: real) {
    multiset(h)[false] as real > share * |h| as real
  }

  ghost predicate RejectedBelow(h: seq<bool>, share: real) {
    multiset(h)[false] as real < share * |h| as real
  }

  /** Of the newest results of the scan matcher too many are rejections. */
  ghost predicate OftenRejected(p: Params, s: State, e: Event) {
    if e.ScanMatch? then
      var h := Newest(s.sig.regHist + [e.accepted], p.regWindow);
      |h| >= p.regMinSamples && RejectedAbove(h, p.regRejectRatio)
    else s.sig.regAlarm
  }

  /** There is an alarm after what the event reports. */
  ghost predicate Alarmed(p: Params, s: State, e: Event) {
    PoseUnsure(p, s, e) || FitsBadly(p, s, e) || OftenRejected(p, s, e)
  }

  lemma {:induction false} AcceptedCounts(h: seq<bool>)
    ensures Accepted(h) == multiset(h)[true] && |h| == multiset(h)[true] + multiset(h)[false]
  {
    if h != [] {
      AcceptedCounts(h[1..]);
      assert h == [h[0]] + h[1..];
    }
  }

  lemma RejectedShare(h: seq<bool>, share: real)
    requires h != []
    ensures Rejection(h) > share <==> RejectedAbove(h, share)
    ensures Rejection(h) < share <==> RejectedBelow(h, share)
  {
    AcceptedCounts(h);
    var n, k := |h| as real, multiset(h)[false] as real;
    assert Rejection(h) == k / n;
    ShareOf(k, n, share);
  }

  lemma ShareOf(k: real, n: real, share: real)
    requires n > 0.0
    ensures k / n > share <==> k > share * n
    ensures k / n < share <==> k < share * n
  {
    assert k == (k / n) * n;
    Scaled(k / n, share, n);
    Scaled(share, k / n, n);
  }

  lemma Scaled(a: real, b: real, n: real)
    requires n > 0.0
    ensures a < b <==> a * n < b * n
  {
    if a < b {
      assert (b - a) * n > 0.0;
    } else {
      assert (a - b) * n >= 0.0;
    }
  }

  // ---------------------------------------------------------------- causes

  /** The suspicion has lasted, and at an evaluation or a tick there is an alarm. */
  ghost predicate LostByAlarm(p: Params, s: State, t: real, e: Event) {
    s.phase == Suspect && (Evaluates(e) || e.Tick?) && t - s.suspectSince >= p.suspectTime && Alarmed(p, s, e)
  }

  /** The results of the scan matcher speak for the estimate. */
  ghost predicate MatcherContradicts(p: Params, h: seq<bool>) {
    h != [] && |h| >= p.regMinSamples && RejectedBelow(h, p.regMarkerVetoRatio)
  }

  /** A fix of a robot that is not lost, outside the cool-down, with an estimate to compare with. */
  ghost predicate FixCounts(s: State, t: real, e: Event) {
    e.MarkerFix? && s.sig.amcl.Some? && !s.lost && (s.cooldownUntil == None || t >= s.cooldownUntil.value)
  }

  /** Markers have contradicted the estimate for long enough. */
  ghost predicate FixesDiffer(p: Params, s: State, t: real, e: Event) {
    FixCounts(s, t, e) && e.error >= p.markerFixMinError && s.mismatchSince.Some? &&
    t - s.mismatchSince.value >= p.markerFixPersist
  }

  ghost predicate LostByMarker(p: Params, s: State, t: real, e: Event) {
    FixesDiffer(p, s, t, e) && !MatcherContradicts(p, s.sig.regHist)
  }

  /** An alarm or a jump, outside the cool-down. */
  ghost predicate RaisesSuspicion(p: Params, s: State, t: real, e: Event) {
    s.phase == Tracking && Evaluates(e) && (Alarmed(p, s, e) || (e.Amcl? && e.jump)) &&
    (s.cooldownUntil == None || t >= s.cooldownUntil.value)
  }

  /** A pose from outside, or no alarm when the suspicion has lasted. */
  ghost predicate Dispels(p: Params, s: State, t: real, e: Event) {
    s.phase == Suspect &&
    (e.ExternalPose? || ((Evaluates(e) || e.Tick?) && t - s.suspectSince >= p.suspectTime && !Alarmed(p, s, e)))
  }

  /**
   The estimate agrees with the sensors: a certain pose since the loss, a scan that fits, and no
   other place that fits nearly as well, unless a pose from outside is trusted.
   */
  ghost predicate Agrees(p: Params, s: State, t: real, e: Event) {
    var scan := e.Match? && e.beams >= p.minMatchBeams;
    var stamp := if e.Amcl? then Some(t) else s.sig.amcl;
    var cov := if e.Amcl? then (e.trace, e.yaw) else s.sig.cov;
    var fit := if scan then Some(e.ratio) else s.sig.lastMatch;
    var margin := if scan then e.margin else s.sig.lastMargin;
    && stamp.Some? && stamp.value >= s.lostSince && cov.0 < p.convergeCov && cov.1 < p.yawCovThresh
    && fit.Some? && fit.value >= p.convergeMatch
    && (margin == None || margin.value >= p.convergeMargin || (s.trustUntil.Some? && t < s.trustUntil.value))
  }

  /** How many evaluations in a row have agreed, this event included. */
  ghost function Agreed(p: Params, s: State, t: real, e: Event): int {
    if !Evaluates(e) then s.convergedCount else if Agrees(p, s, t, e) then s.convergedCount + 1 else 0
  }

  ghost predicate Found(p: Params, s: State, t: real, e: Event) {
    s.lost && Evaluates(e) && Agreed(p, s, t, e) >= p.convergeCount
  }

  /** While the robot is not lost the alarm flag says whether there is an alarm. */
  ghost predicate AlarmOk(s: State) {
    s.lost || (s.sig.alarmActive <==> s.sig.amclAlarm || s.sig.matchAlarm || s.sig.regAlarm)
  }

  // ---------------------------------------------------------------- one event

  /** How an event changes what the robot takes itself for. */
  ghost predicate Turns(p: Params, s: State, t: real, e: Event, r: State) {
    && (r.lost <==> if s.lost then !Found(p, s, t, e) else LostByAlarm(p, s, t, e) || LostByMarker(p, s, t, e))
    && (!s.lost && r.lost ==> r.phase == Recovering && r.lostSince == t && r.convergedCount == 0)
    && (!r.lost ==>
          && (r.phase == Suspect <==> RaisesSuspicion(p, s, t, e) || (s.phase == Suspect && !Dispels(p, s, t, e)))
          && (r.phase == Suspect ==> r.suspectSince == if s.phase == Suspect then s.suspectSince else t))
    && (s.lost && r.lost ==> r.convergedCount == Agreed(p, s, t, e))
  }

  lemma EvaluateTurns(p: Params, s: State, g: Signals, t: real, e: Event)
    requires Inv(p, s) && Evaluates(e)
    requires Alarmed(p, s, e) <==> g.amclAlarm || g.matchAlarm || g.regAlarm
    requires Agrees(p, s, t, e) <==> Converged(p, s.(sig := WithAlarm(g)), t)
    ensures var r := Evaluate(p, s.(sig := g), t, e.Amcl? && e.jump).0;
            Turns(p, s, t, e, r) && AlarmOk(r)
  {
    hide Converged, Alarmed, Agrees;
  }

  lemma AmclTurns(p: Params, s: State, t: real, trace: real, yaw: real, jump: bool)
    requires Inv(p, s)
    ensures var r := OnAmcl(p, s, t, trace, yaw, jump).0; Turns(p, s, t, Amcl(trace, yaw, jump), r) && AlarmOk(r)
  {
    hide Evaluate, Turns, AlarmOk;
    var g := s.sig.(cov := (trace, yaw), amcl := Some(t), amclAlarm := trace > p.covThresh || yaw > p.yawCovThresh);
    EvaluateTurns(p, s, g, t, Amcl(trace, yaw, jump));
  }

  lemma MatchTurns(p: Params, s: State, t: real, ratio: real, beams: int, margin: Option<real>)
    requires Inv(p, s)
    ensures var r := OnMatch(p, s, t, ratio, beams, margin).0; Turns(p, s, t, Match(ratio, beams, margin), r) && AlarmOk(r)
  {
    hide Evaluate, Turns, AlarmOk;
    var low := if ratio < p.matchThresh then s.sig.lowMatch + 1 else 0;
    var g := if beams < p.minMatchBeams then s.sig
             else s.sig.(lastMatch := Some(ratio), lastMargin := margin, lowMatch := low, matchAlarm := low >= p.matchWindow);
    EvaluateTurns(p, s, g, t, Match(ratio, beams, margin));
    assert s.(sig := s.sig) == s;
  }

  lemma ScanMatchTurns(p: Params, s: State, t: real, accepted: bool)
    requires Inv(p, s)
    ensures var r := OnScanMatch(p, s, t, accepted).0; Turns(p, s, t, ScanMatch(accepted), r) && AlarmOk(r)
  {
    hide Evaluate, Turns, AlarmOk, Rejection, OftenRejected, Trim;
    ResultsCount(p, s, accepted);
    var h := Trim(s.sig.regHist + [accepted], p.regWindow);
    var g := s.sig.(regHist := h, regAlarm := |h| >= p.regMinSamples && Rejection(h) > p.regRejectRatio);
    EvaluateTurns(p, s, g, t, ScanMatch(accepted));
  }

  lemma ResultsCount(p: Params, s: State, accepted: bool)
    ensures var h := Trim(s.sig.regHist + [accepted], p.regWindow);
            && h == Newest(s.sig.regHist + [accepted], p.regWindow) && h != []
            && (OftenRejected(p, s, ScanMatch(accepted)) <==> |h| >= p.regMinSamples && Rejection(h) > p.regRejectRatio)
  {
    hide Rejection, RejectedAbove, RejectedBelow;
    RejectedShare(Trim(s.sig.regHist + [accepted], p.regWindow), p.regRejectRatio);
  }

  lemma TickTurns(p: Params, s: State, t: real)
    requires Inv(p, s) && AlarmOk(s)
    ensures var r := OnTick(p, s, t).0; Turns(p, s, t, Tick, r) && AlarmOk(r)
  {
  }

  lemma MarkerTurns(p: Params, s: State, t: real, error: real)
    requires Inv(p, s) && AlarmOk(s)
    ensures var r := OnMarkerFix(p, s, t, error).0; Turns(p, s, t, MarkerFix(error), r) && AlarmOk(r)
  {
    hide Rejection, MatcherAgrees, MatcherContradicts;
    MatcherSpeaks(p, s.sig.regHist);
  }

  lemma MatcherSpeaks(p: Params, h: seq<bool>)
    ensures MatcherAgrees(p, h) <==> MatcherContradicts(p, h)
  {
    hide Rejection, RejectedAbove, RejectedBelow;
    if h != [] {
      RejectedShare(h, p.regMarkerVetoRatio);
    }
  }

  lemma OthersTurn(p: Params, s: State, t: real, e: Event)
    requires Inv(p, s) && AlarmOk(s) && (e.ExternalPose? || e.BackendReady? || e.SpinReady? || e.SpinDone?)
    ensures Turns(p, s, t, e, Handle(p, s, t, e).0) && AlarmOk(Handle(p, s, t, e).0)
  {
  }

  /**
   Every event: a robot becomes lost exactly by an alarm after a lasting suspicion or by lasting
   contradiction of markers; suspicion begins and ends exactly by its causes; and a lost robot
   is found exactly when enough evaluations in a row agree.
   */
  lemma EventTurns(p: Params, s: State, t: real, e: Event)
    requires Inv(p, s) && AlarmOk(s)
    ensures Turns(p, s, t, e, Handle(p, s, t, e).0) && AlarmOk(Handle(p, s, t, e).0)
  {
    hide Turns, AlarmOk, OnAmcl, OnMatch, OnScanMatch, OnTick, OnMarkerFix, OnSpinDone, OnBackendReady, OnSpinReady, OnExternalPose;
    match e
    case Amcl(trace, yaw, jump) => AmclTurns(p, s, t, trace, yaw, jump);
    case Match(ratio, beams, margin) => MatchTurns(p, s, t, ratio, beams, margin);
    case ScanMatch(accepted) => ScanMatchTurns(p, s, t, accepted);
    case MarkerFix(error) => MarkerTurns(p, s, t, error);
    case Tick => TickTurns(p, s, t);
    case _ => OthersTurn(p, s, t, e);
  }

  // ---------------------------------------------------------------- what is remembered

  /** A marker shows a clear difference for the first time, or clears, or has done its work. */
  ghost function Mismatch(p: Params, s: State, t: real, e: Event): Option<real> {
    if e.ExternalPose? then None
    else if !FixCounts(s, t, e) then s.mismatchSince
    else if e.error < p.markerFixMinError then None
    else if s.mismatchSince == None then Some(t)
    else if FixesDiffer(p, s, t, e) then None
    else s.mismatchSince
  }

  /** Nothing is made of the robot before t: after it is found, after markers have put it right, after a pose from outside. */
  ghost function CoolDown(p: Params, s: State, t: real, e: Event): Option<real> {
    if Found(p, s, t, e) || LostByMarker(p, s, t, e) then Some(t + p.cooldown)
    else if e.ExternalPose? && (s.cooldownUntil == None || s.cooldownUntil.value <= t + p.cooldown) then Some(t + p.cooldown)
    else s.cooldownUntil
  }

  /** A pose from outside, or the backend's own after a comeback, is trusted until then. */
  ghost function Trust(p: Params, s: State, t: real, e: Event): Option<real> {
    if e.ExternalPose? || Comeback(s, e) then Some(t + p.externalTrustWindow)
    else if Found(p, s, t, e) || LostByAlarm(p, s, t, e) then None
    else s.trustUntil
  }

  /** The alarms and the scans so far are forgotten. */
  ghost predicate ScansForgotten(p: Params, s: State, t: real, e: Event) {
    Found(p, s, t, e) || LostByAlarm(p, s, t, e) || LostByMarker(p, s, t, e) || e.ExternalPose?
  }

  /** A scan with enough beams to count. */
  ghost predicate GoodScan(p: Params, e: Event) {
    e.Match? && e.beams >= p.minMatchBeams
  }

  ghost predicate NewlyLost(p: Params, s: State, t: real, e: Event) {
    LostByAlarm(p, s, t, e) || LostByMarker(p, s, t, e)
  }

  /** The last pose and the last fit; a loss forgets the fit. */
  ghost predicate KeepsPose(p: Params, s: State, t: real, e: Event, g: Signals) {
    && g.amcl == (if e.Amcl? then Some(t) else s.sig.amcl) && g.cov == (if e.Amcl? then (e.trace, e.yaw) else s.sig.cov)
    && g.lastMatch == (if NewlyLost(p, s, t, e) then None else if GoodScan(p, e) then Some(e.ratio) else s.sig.lastMatch)
    && g.lastMargin == (if NewlyLost(p, s, t, e) then None else if GoodScan(p, e) then e.margin else s.sig.lastMargin)
  }

  /** Scans that fit badly in a row and the newest results of the matcher, and the alarms they give. */
  ghost predicate KeepsScans(p: Params, s: State, t: real, e: Event, g: Signals) {
    && (if ScansForgotten(p, s, t, e) then g.lowMatch == 0 && g.regHist == [] && !g.regAlarm
        else
          && g.lowMatch == (if !GoodScan(p, e) then s.sig.lowMatch else if e.ratio < p.matchThresh then s.sig.lowMatch + 1 else 0)
          && g.regHist == (if e.ScanMatch? then Newest(s.sig.regHist + [e.accepted], p.regWindow) else s.sig.regHist)
          && (g.regAlarm <==> OftenRejected(p, s, e)))
    && (g.amclAlarm <==> PoseUnsure(p, s, e) && !Found(p, s, t, e))
    && (g.matchAlarm <==> FitsBadly(p, s, e) && !Found(p, s, t, e) && !e.ExternalPose?)
  }

  ghost predicate KeepsTimes(p: Params, s: State, t: real, e: Event, r: State) {
    r.mismatchSince == Mismatch(p, s, t, e) && r.cooldownUntil == CoolDown(p, s, t, e) && r.trustUntil == Trust(p, s, t, e)
  }

  /** What the state keeps of the reports so far. */
  ghost predicate Remembers(p: Params, s: State, t: real, e: Event, r: State) {
    KeepsPose(p, s, t, e, r.sig) && KeepsScans(p, s, t, e, r.sig) && KeepsTimes(p, s, t, e, r)
  }

  /** The signals when an evaluation starts: what the event reports, nothing forgotten. */
  ghost predicate Fresh(p: Params, s: State, t: real, e: Event, g: Signals) {
    && Evaluates(e)
    && (g.amclAlarm <==> PoseUnsure(p, s, e)) && (g.matchAlarm <==> FitsBadly(p, s, e)) && (g.regAlarm <==> OftenRejected(p, s, e))
    && (Agrees(p, s, t, e) <==> Converged(p, s.(sig := WithAlarm(g)), t))
    && g.amcl == (if e.Amcl? then Some(t) else s.sig.amcl) && g.cov == (if e.Amcl? then (e.trace, e.yaw) else s.sig.cov)
    && g.lastMatch == (if GoodScan(p, e) then Some(e.ratio) else s.sig.lastMatch)
    && g.lastMargin == (if GoodScan(p, e) then e.margin else s.sig.lastMargin)
    && g.lowMatch == (if !GoodScan(p, e) then s.sig.lowMatch else if e.ratio < p.matchThresh then s.sig.lowMatch + 1 else 0)
    && g.regHist == (if e.ScanMatch? then Newest(s.sig.regHist + [e.accepted], p.regWindow) else s.sig.regHist)
  }

  /** What an evaluation makes of the signals and times: a find or a loss forgets what belongs to the old pose. */
  ghost predicate Forgets(p: Params, s: State, g: Signals, t: real, found: bool, losing: bool, r: State) {
    && r.sig == (if found then ForgetScans(g).(amclAlarm := false, matchAlarm := false, alarmActive := r.sig.alarmActive)
                 else if losing then ForgetScans(g).(lastMatch := None, lastMargin := None, alarmActive := r.sig.alarmActive)
                 else g.(alarmActive := r.sig.alarmActive))
    && r.mismatchSince == s.mismatchSince
    && r.cooldownUntil == (if found then Some(t + p.cooldown) else s.cooldownUntil)
    && r.trustUntil == (if found || losing then None else s.trustUntil)
  }

  lemma SuspectForgets(p: Params, s: State, g: Signals, t: real)
    requires s.phase == Suspect
    ensures Forgets(p, s, g, t, false, t - s.suspectSince >= p.suspectTime && (g.amclAlarm || g.matchAlarm || g.regAlarm),
                    Evaluate(p, s.(sig := g), t, false).0)
    ensures Evaluate(p, s.(sig := g), t, true) == Evaluate(p, s.(sig := g), t, false)
  {
  }

  lemma LostForgets(p: Params, s: State, g: Signals, t: real)
    requires s.phase == Recovering || s.phase == Failed
    ensures Forgets(p, s, g, t,
                    (if Converged(p, s.(sig := WithAlarm(g)), t) then s.convergedCount + 1 else 0) >= p.convergeCount, false,
                    Evaluate(p, s.(sig := g), t, false).0)
    ensures Evaluate(p, s.(sig := g), t, true) == Evaluate(p, s.(sig := g), t, false)
  {
    hide Converged;
  }

  lemma TrackingForgets(p: Params, s: State, g: Signals, t: real, jump: bool)
    requires s.phase == Tracking
    ensures Forgets(p, s, g, t, false, false, Evaluate(p, s.(sig := g), t, jump).0)
  {
  }

  lemma EvaluateForgets(p: Params, s: State, g: Signals, t: real, e: Event)
    requires Inv(p, s) && Fresh(p, s, t, e, g)
    ensures Forgets(p, s, g, t, Found(p, s, t, e), LostByAlarm(p, s, t, e), Evaluate(p, s.(sig := g), t, e.Amcl? && e.jump).0)
  {
    hide Evaluate, Forgets, Converged, Agrees, PoseUnsure, FitsBadly, OftenRejected, Newest, GoodScan;
    if s.phase == Suspect {
      SuspectForgets(p, s, g, t);
    } else if s.phase == Tracking {
      TrackingForgets(p, s, g, t, e.Amcl? && e.jump);
    } else {
      LostForgets(p, s, g, t);
    }
  }

  lemma EvaluateRemembers(p: Params, s: State, g: Signals, t: real, e: Event)
    requires Inv(p, s) && Fresh(p, s, t, e, g)
    ensures Remembers(p, s, t, e, Evaluate(p, s.(sig := g), t, e.Amcl? && e.jump).0)
  {
    hide Evaluate, KeepsPose, KeepsScans, KeepsTimes, Fresh, Inv, Forgets, Found, LostByAlarm;
    EvaluateForgets(p, s, g, t, e);
    NotLostAndFound(p, s, t, e);
    var r := Evaluate(p, s.(sig := g), t, e.Amcl? && e.jump).0;
    FreshPose(p, s, t, e, g, r);
    FreshScans(p, s, t, e, g, r);
    FreshTimes(p, s, t, e, g, r);
  }

  lemma FreshPose(p: Params, s: State, t: real, e: Event, g: Signals, r: State)
    requires Fresh(p, s, t, e, g) && Forgets(p, s, g, t, Found(p, s, t, e), LostByAlarm(p, s, t, e), r)
    requires !(Found(p, s, t, e) && LostByAlarm(p, s, t, e))
    ensures KeepsPose(p, s, t, e, r.sig)
  {
    hide Converged, Agrees, PoseUnsure, FitsBadly, OftenRejected, Newest, GoodScan, Found, LostByAlarm;
  }

  lemma FreshScans(p: Params, s: State, t: real, e: Event, g: Signals, r: State)
    requires Fresh(p, s, t, e, g) && Forgets(p, s, g, t, Found(p, s, t, e), LostByAlarm(p, s, t, e), r)
    requires !(Found(p, s, t, e) && LostByAlarm(p, s, t, e))
    ensures KeepsScans(p, s, t, e, r.sig)
  {
    hide Converged, Agrees, PoseUnsure, FitsBadly, OftenRejected, Newest, GoodScan, Found, LostByAlarm;
  }

  lemma FreshTimes(p: Params, s: State, t: real, e: Event, g: Signals, r: State)
    requires Fresh(p, s, t, e, g) && Forgets(p, s, g, t, Found(p, s, t, e), LostByAlarm(p, s, t, e), r)
    ensures KeepsTimes(p, s, t, e, r)
  {
    hide Converged, Agrees, PoseUnsure, FitsBadly, OftenRejected, Newest, GoodScan, Found, LostByAlarm, ForgetScans;
  }

  lemma NotLostAndFound(p: Params, s: State, t: real, e: Event)
    requires Inv(p, s)
    ensures !(Found(p, s, t, e) && LostByAlarm(p, s, t, e))
  {
    hide Agreed, Alarmed;
  }

  lemma AmclRemembers(p: Params, s: State, t: real, trace: real, yaw: real, jump: bool)
    requires Inv(p, s)
    ensures Remembers(p, s, t, Amcl(trace, yaw, jump), OnAmcl(p, s, t, trace, yaw, jump).0)
  {
    hide Evaluate, Remembers;
    var g := s.sig.(cov := (trace, yaw), amcl := Some(t), amclAlarm := trace > p.covThresh || yaw > p.yawCovThresh);
    EvaluateRemembers(p, s, g, t, Amcl(trace, yaw, jump));
  }

  lemma MatchRemembers(p: Params, s: State, t: real, ratio: real, beams: int, margin: Option<real>)
    requires Inv(p, s)
    ensures Remembers(p, s, t, Match(ratio, beams, margin), OnMatch(p, s, t, ratio, beams, margin).0)
  {
    hide Evaluate, Remembers;
    var low := if ratio < p.matchThresh then s.sig.lowMatch + 1 else 0;
    var g := if beams < p.minMatchBeams then s.sig
             else s.sig.(lastMatch := Some(ratio), lastMargin := margin, lowMatch := low, matchAlarm := low >= p.matchWindow);
    EvaluateRemembers(p, s, g, t, Match(ratio, beams, margin));
    assert s.(sig := s.sig) == s;
  }

  lemma ScanMatchRemembers(p: Params, s: State, t: real, accepted: bool)
    requires Inv(p, s)
    ensures Remembers(p, s, t, ScanMatch(accepted), OnScanMatch(p, s, t, accepted).0)
  {
    hide Evaluate, Remembers, Rejection, OftenRejected, Trim;
    ResultsCount(p, s, accepted);
    var h := Trim(s.sig.regHist + [accepted], p.regWindow);
    var g := s.sig.(regHist := h, regAlarm := |h| >= p.regMinSamples && Rejection(h) > p.regRejectRatio);
    EvaluateRemembers(p, s, g, t, ScanMatch(accepted));
  }

  lemma MarkerRemembers(p: Params, s: State, t: real, error: real)
    requires Inv(p, s)
    ensures Remembers(p, s, t, MarkerFix(error), OnMarkerFix(p, s, t, error).0)
  {
    hide KeepsPose, KeepsScans, KeepsTimes;
    MarkerKeepsSignals(p, s, t, error);
    MarkerKeepsTimes(p, s, t, error);
  }

  lemma MarkerForgets(p: Params, s: State, t: real, error: real)
    requires Inv(p, s)
    ensures OnMarkerFix(p, s, t, error).0.sig ==
              if LostByMarker(p, s, t, MarkerFix(error)) then ForgetScans(s.sig).(lastMatch := None, lastMargin := None) else s.sig
  {
    hide Rejection, MatcherAgrees, MatcherContradicts;
    MatcherSpeaks(p, s.sig.regHist);
  }

  lemma MarkerKeepsSignals(p: Params, s: State, t: real, error: real)
    requires Inv(p, s)
    ensures var r := OnMarkerFix(p, s, t, error).0;
            KeepsPose(p, s, t, MarkerFix(error), r.sig) && KeepsScans(p, s, t, MarkerFix(error), r.sig)
  {
    hide OnMarkerFix, LostByMarker, Agreed, Alarmed;
    MarkerForgets(p, s, t, error);
  }

  lemma MarkerKeepsTimes(p: Params, s: State, t: real, error: real)
    requires Inv(p, s)
    ensures KeepsTimes(p, s, t, MarkerFix(error), OnMarkerFix(p, s, t, error).0)
  {
    hide Rejection, MatcherAgrees, MatcherContradicts, Agreed, Trim;
    MatcherSpeaks(p, s.sig.regHist);
  }

  lemma TickRemembers(p: Params, s: State, t: real)
    requires Inv(p, s) && AlarmOk(s)
    ensures Remembers(p, s, t, Tick, OnTick(p, s, t).0)
  {
    hide Agreed;
  }

  lemma PoseRemembers(p: Params, s: State, t: real)
    requires Inv(p, s)
    ensures Remembers(p, s, t, ExternalPose, OnExternalPose(p, s, t))
  {
    hide Agreed;
  }

  lemma BackendRemembers(p: Params, s: State, t: real, ready: bool)
    requires Inv(p, s)
    ensures Remembers(p, s, t, Event.BackendReady(ready), OnBackendReady(p, s, t, ready).0)
  {
    hide Agreed;
  }

  lemma SpinRemembers(p: Params, s: State, t: real, ready: bool)
    requires Inv(p, s)
    ensures Remembers(p, s, t, Event.SpinReady(ready), OnSpinReady(s, t, ready).0)
  {
    hide Agreed;
  }

  lemma SpinDoneRemembers(p: Params, s: State, t: real)
    requires Inv(p, s)
    ensures Remembers(p, s, t, SpinDone, OnSpinDone(p, s).0)
  {
    hide Agreed;
  }

  /** Every event leaves in memory what it reports, and forgets what belongs to the old pose. */
  lemma EventRemembers(p: Params, s: State, t: real, e: Event)
    requires Inv(p, s) && AlarmOk(s)
    ensures Remembers(p, s, t, e, Handle(p, s, t, e).0)
  {
    hide Remembers, AlarmOk, OnAmcl, OnMatch, OnScanMatch, OnTick, OnMarkerFix, OnSpinDone, OnBackendReady, OnSpinReady, OnExternalPose;
    match e
    case Amcl(trace, yaw, jump) => AmclRemembers(p, s, t, trace, yaw, jump);
    case Match(ratio, beams, margin) => MatchRemembers(p, s, t, ratio, beams, margin);
    case ScanMatch(accepted) => ScanMatchRemembers(p, s, t, accepted);
    case MarkerFix(error) => MarkerRemembers(p, s, t, error);
    case Tick => TickRemembers(p, s, t);
    case ExternalPose => PoseRemembers(p, s, t);
    case BackendReady(ready) => BackendRemembers(p, s, t, ready);
    case SpinReady(ready) => SpinRemembers(p, s, t, ready);
    case SpinDone => SpinDoneRemembers(p, s, t);
  }

  // ---------------------------------------------------------------- what is done

  /** A spin that runs is stopped before the next one or when none is wanted any more. */
  ghost function Stop(s: State): seq<Action> {
    if s.effort.spinActive then [CancelSpin] else []
  }

  /** A spin has ended while the recovery can go on. */
  ghost predicate SpunInVain(s: State, e: Event) {
    e.SpinDone? && s.phase == Recovering && s.backendReady && s.spinReady
  }

  /** The recovery has taken too long, although localization and a way to turn were there. */
  ghost predicate TookTooLong(p: Params, s: State, t: real, e: Event) {
    e.Tick? && s.phase == Recovering && s.backendReady && s.spinReady && t - s.lostSince > p.recoveryTimeout
  }

  /** A way to turn is there again for a recovery that waits for it. */
  ghost predicate CanTurnAgain(s: State, e: Event) {
    e.SpinReady? && e.ready && !s.spinReady && s.phase == Recovering && s.backendReady
  }

  /** What is done about an event, and how much of the recovery's budget is left. */
  ghost predicate Acts(p: Params, s: State, t: real, e: Event, actions: seq<Action>, b: Effort) {
    if LostByAlarm(p, s, t, e) then
      actions == [PublishLost(true)] + Stop(s) + [Reinitialize(1), Spin] && b == Effort(true, p.spinRetry - 1, 1)
    else if LostByMarker(p, s, t, e) then
      actions == [PublishLost(true), SeedPose, Spin] && b == Effort(true, s.effort.spinsLeft, 0)
    else if Found(p, s, t, e) then
      actions == Stop(s) + (if e.Amcl? || s.sig.amcl.Some? then [SetEkfPose] else []) + [PublishLost(false)] && !b.spinActive
    else if Comeback(s, e) && s.lost then
      actions == Stop(s) + [Reinitialize(1), Spin] && b == Effort(true, p.spinRetry - 1, 1)
    else if CanTurnAgain(s, e) then actions == [Spin] && b == s.effort.(spinActive := true)
    else if SpunInVain(s, e) then
      var n := s.effort.reinitsDone;
      if s.effort.spinsLeft > 0 then actions == [Spin] && b == Effort(true, s.effort.spinsLeft - 1, n)
      else if n < p.reinitRetry then actions == [Reinitialize(n + 1), Spin] && b == Effort(true, p.spinRetry - 1, n + 1)
      else actions == [] && !b.spinActive
    else if TookTooLong(p, s, t, e) then actions == Stop(s) && !b.spinActive
    else actions == [] && b == if e.SpinDone? || (e.SpinReady? && !e.ready && s.spinReady) then s.effort.(spinActive := false)
                               else s.effort
  }

  lemma EvaluateActs(p: Params, s: State, g: Signals, t: real, e: Event)
    requires Inv(p, s) && Evaluates(e)
    requires Alarmed(p, s, e) <==> g.amclAlarm || g.matchAlarm || g.regAlarm
    requires Agrees(p, s, t, e) <==> Converged(p, s.(sig := WithAlarm(g)), t)
    requires g.amcl.Some? <==> e.Amcl? || s.sig.amcl.Some?
    ensures var (r, actions) := Evaluate(p, s.(sig := g), t, e.Amcl? && e.jump); Acts(p, s, t, e, actions, r.effort)
  {
    hide Converged, Alarmed, Agrees;
    assert [PublishLost(true)] + (Stop(s) + [Reinitialize(1), Spin]) == [PublishLost(true)] + Stop(s) + [Reinitialize(1), Spin];
  }

  lemma AmclActs(p: Params, s: State, t: real, trace: real, yaw: real, jump: bool)
    requires Inv(p, s)
    ensures var (r, actions) := OnAmcl(p, s, t, trace, yaw, jump); Acts(p, s, t, Amcl(trace, yaw, jump), actions, r.effort)
  {
    hide Evaluate, Acts;
    var g := s.sig.(cov := (trace, yaw), amcl := Some(t), amclAlarm := trace > p.covThresh || yaw > p.yawCovThresh);
    EvaluateActs(p, s, g, t, Amcl(trace, yaw, jump));
  }

  lemma MatchActs(p: Params, s: State, t: real, ratio: real, beams: int, margin: Option<real>)
    requires Inv(p, s)
    ensures var (r, actions) := OnMatch(p, s, t, ratio, beams, margin);
            Acts(p, s, t, Match(ratio, beams, margin), actions, r.effort)
  {
    hide Evaluate, Acts;
    var low := if ratio < p.matchThresh then s.sig.lowMatch + 1 else 0;
    var g := if beams < p.minMatchBeams then s.sig
             else s.sig.(lastMatch := Some(ratio), lastMargin := margin, lowMatch := low, matchAlarm := low >= p.matchWindow);
    EvaluateActs(p, s, g, t, Match(ratio, beams, margin));
    assert s.(sig := s.sig) == s;
  }

  lemma ScanMatchActs(p: Params, s: State, t: real, accepted: bool)
    requires Inv(p, s)
    ensures var (r, actions) := OnScanMatch(p, s, t, accepted); Acts(p, s, t, ScanMatch(accepted), actions, r.effort)
  {
    hide Evaluate, Acts, Rejection, OftenRejected, Trim;
    ResultsCount(p, s, accepted);
    var h := Trim(s.sig.regHist + [accepted], p.regWindow);
    var g := s.sig.(regHist := h, regAlarm := |h| >= p.regMinSamples && Rejection(h) > p.regRejectRatio);
    EvaluateActs(p, s, g, t, ScanMatch(accepted));
  }

  lemma MarkerActs(p: Params, s: State, t: real, error: real)
    requires Inv(p, s)
    ensures var (r, actions) := OnMarkerFix(p, s, t, error); Acts(p, s, t, MarkerFix(error), actions, r.effort)
  {
    hide Rejection, MatcherAgrees, MatcherContradicts, Agreed, Alarmed;
    MatcherSpeaks(p, s.sig.regHist);
    assert [PublishLost(true), SeedPose] + [Spin] == [PublishLost(true), SeedPose, Spin];
  }

  lemma OthersAct(p: Params, s: State, t: real, e: Event)
    requires Inv(p, s) && AlarmOk(s) && (e.ExternalPose? || e.BackendReady? || e.SpinReady? || e.SpinDone? || e.Tick?)
    ensures Acts(p, s, t, e, Handle(p, s, t, e).1, Handle(p, s, t, e).0.effort)
  {
    hide Agreed;
    assert [PublishLost(true)] + (Stop(s) + [Reinitialize(1), Spin]) == [PublishLost(true)] + Stop(s) + [Reinitialize(1), Spin];
  }

  /** Every event leads to exactly the actions its cause calls for, and to nothing without one. */
  lemma EventActs(p: Params, s: State, t: real, e: Event)
    requires Inv(p, s) && AlarmOk(s)
    ensures Acts(p, s, t, e, Handle(p, s, t, e).1, Handle(p, s, t, e).0.effort)
  {
    hide Acts, AlarmOk, OnAmcl, OnMatch, OnScanMatch, OnTick, OnMarkerFix, OnSpinDone, OnBackendReady, OnSpinReady, OnExternalPose;
    match e
    case Amcl(trace, yaw, jump) => AmclActs(p, s, t, trace, yaw, jump);
    case Match(ratio, beams, margin) => MatchActs(p, s, t, ratio, beams, margin);
    case ScanMatch(accepted) => ScanMatchActs(p, s, t, accepted);
    case MarkerFix(error) => MarkerActs(p, s, t, error);
    case _ => OthersAct(p, s, t, e);
  }

  /** What is there to recover with, and since when the recovery's time counts: not while there is no way to turn. */
  ghost predicate Waits(p: Params, s: State, t: real, e: Event, r: State) {
    && (r.backendReady <==> if e.BackendReady? then e.ready else s.backendReady)
    && (r.spinReady <==> if e.SpinReady? then e.ready else s.spinReady)
    && r.spinDownSince == (if e.SpinReady? && e.ready != s.spinReady then (if e.ready then None else Some(t)) else s.spinDownSince)
    && r.lostSince == (if NewlyLost(p, s, t, e) || (Comeback(s, e) && s.lost) then t
                       else if e.SpinReady? && e.ready && !s.spinReady && s.spinDownSince.Some?
                       then s.lostSince + (t - s.spinDownSince.value)
                       else s.lostSince)
    && (r.phase == Failed <==> if s.phase == Failed then !Comeback(s, e) && !Found(p, s, t, e)
                               else TookTooLong(p, s, t, e) || (SpunInVain(s, e) && s.effort.spinsLeft <= 0 &&
                                                                s.effort.reinitsDone >= p.reinitRetry))
  }

  lemma EvaluateWaits(p: Params, s: State, g: Signals, t: real, e: Event)
    requires Inv(p, s) && Evaluates(e)
    requires Alarmed(p, s, e) <==> g.amclAlarm || g.matchAlarm || g.regAlarm
    requires Agrees(p, s, t, e) <==> Converged(p, s.(sig := WithAlarm(g)), t)
    ensures Waits(p, s, t, e, Evaluate(p, s.(sig := g), t, e.Amcl? && e.jump).0)
  {
    hide Converged, Alarmed, Agrees;
  }

  lemma AmclWaits(p: Params, s: State, t: real, trace: real, yaw: real, jump: bool)
    requires Inv(p, s)
    ensures Waits(p, s, t, Amcl(trace, yaw, jump), OnAmcl(p, s, t, trace, yaw, jump).0)
  {
    hide Evaluate, Waits;
    var g := s.sig.(cov := (trace, yaw), amcl := Some(t), amclAlarm := trace > p.covThresh || yaw > p.yawCovThresh);
    EvaluateWaits(p, s, g, t, Amcl(trace, yaw, jump));
  }

  lemma MatchWaits(p: Params, s: State, t: real, ratio: real, beams: int, margin: Option<real>)
    requires Inv(p, s)
    ensures Waits(p, s, t, Match(ratio, beams, margin), OnMatch(p, s, t, ratio, beams, margin).0)
  {
    hide Evaluate, Waits;
    var low := if ratio < p.matchThresh then s.sig.lowMatch + 1 else 0;
    var g := if beams < p.minMatchBeams then s.sig
             else s.sig.(lastMatch := Some(ratio), lastMargin := margin, lowMatch := low, matchAlarm := low >= p.matchWindow);
    EvaluateWaits(p, s, g, t, Match(ratio, beams, margin));
    assert s.(sig := s.sig) == s;
  }

  lemma ScanMatchWaits(p: Params, s: State, t: real, accepted: bool)
    requires Inv(p, s)
    ensures Waits(p, s, t, ScanMatch(accepted), OnScanMatch(p, s, t, accepted).0)
  {
    hide Evaluate, Waits, Rejection, OftenRejected, Trim;
    ResultsCount(p, s, accepted);
    var h := Trim(s.sig.regHist + [accepted], p.regWindow);
    EvaluateWaits(p, s, s.sig.(regHist := h, regAlarm := |h| >= p.regMinSamples && Rejection(h) > p.regRejectRatio), t,
                  ScanMatch(accepted));
  }

  lemma MarkerWaits(p: Params, s: State, t: real, error: real)
    requires Inv(p, s)
    ensures Waits(p, s, t, MarkerFix(error), OnMarkerFix(p, s, t, error).0)
  {
    hide Rejection, MatcherAgrees, MatcherContradicts, Agreed, Alarmed;
    MatcherSpeaks(p, s.sig.regHist);
  }

  lemma OthersWait(p: Params, s: State, t: real, e: Event)
    requires Inv(p, s) && AlarmOk(s) && (e.ExternalPose? || e.BackendReady? || e.SpinReady? || e.SpinDone? || e.Tick?)
    ensures Waits(p, s, t, e, Handle(p, s, t, e).0)
  {
    hide Agreed;
  }

  lemma EventWaits(p: Params, s: State, t: real, e: Event)
    requires Inv(p, s) && AlarmOk(s)
    ensures Waits(p, s, t, e, Handle(p, s, t, e).0)
  {
    hide Waits, AlarmOk, OnAmcl, OnMatch, OnScanMatch, OnTick, OnMarkerFix, OnSpinDone, OnBackendReady, OnSpinReady, OnExternalPose;
    match e
    case Amcl(trace, yaw, jump) => AmclWaits(p, s, t, trace, yaw, jump);
    case Match(ratio, beams, margin) => MatchWaits(p, s, t, ratio, beams, margin);
    case ScanMatch(accepted) => ScanMatchWaits(p, s, t, accepted);
    case MarkerFix(error) => MarkerWaits(p, s, t, error);
    case _ => OthersWait(p, s, t, e);
  }

  /** The whole of what an event does, told by its causes. */
  ghost predicate AsCaused(p: Params, s: State, t: real, e: Event, r: State, actions: seq<Action>) {
    Turns(p, s, t, e, r) && Remembers(p, s, t, e, r) && Waits(p, s, t, e, r) && Acts(p, s, t, e, actions, r.effort)
  }

  lemma EventAsCaused(p: Params, s: State, t: real, e: Event)
    requires Fine(p, s)
    ensures AsCaused(p, s, t, e, Handle(p, s, t, e).0, Handle(p, s, t, e).1)
  {
    hide Turns, Remembers, Waits, Acts, Handle, Inv, AlarmOk;
    EventTurns(p, s, t, e);
    EventRemembers(p, s, t, e);
    EventWaits(p, s, t, e);
    EventActs(p, s, t, e);
  }

  ghost predicate Fine(p: Params, s: State) {
    Inv(p, s) && AlarmOk(s)
  }

  /** What the monitor node reports back: when a spin is to be started, whether there is anything to turn the robot with. */
  ghost predicate ReportsBack(h: State, actions: seq<Action>, t: real, canTurn: bool, r: State) {
    if Spin !in actions || canTurn == h.spinReady then r == h
    else if canTurn then
      r == h.(spinReady := true, spinDownSince := None,
              lostSince := if h.spinDownSince.Some? then h.lostSince + (t - h.spinDownSince.value) else h.lostSince)
    else r == h.(spinReady := false, spinDownSince := Some(t), effort := h.effort.(spinActive := false))
  }

  /** A step is an event and the report back. */
  lemma StepReportsBack(p: Params, s: State, i: Input)
    ensures ReportsBack(Handle(p, s, i.t, i.event).0, Handle(p, s, i.t, i.event).1, i.t, i.canTurn,
                        Step(p, s, i.t, i.event, i.canTurn).0)
    ensures Step(p, s, i.t, i.event, i.canTurn).1 == Handle(p, s, i.t, i.event).1
  {
    hide Handle;
  }

  // ---------------------------------------------------------------- whole runs

  /** One step of a run, with what the monitor reports back when it performs a spin. */
  lemma StepTurns(p: Params, s: State, i: Input)
    requires Fine(p, s)
    ensures var r := Step(p, s, i.t, i.event, i.canTurn).0;
            && Fine(p, r)
            && (r.lost <==> if s.lost then !Found(p, s, i.t, i.event)
                            else LostByAlarm(p, s, i.t, i.event) || LostByMarker(p, s, i.t, i.event))
            && (!s.lost && r.lost ==> r.convergedCount == 0)
            && (s.lost && r.lost ==> r.convergedCount == Agreed(p, s, i.t, i.event))
            && (!r.lost ==>
                  && (r.phase == Suspect <==> RaisesSuspicion(p, s, i.t, i.event) || (s.phase == Suspect && !Dispels(p, s, i.t, i.event)))
                  && (r.phase == Suspect ==> r.suspectSince == if s.phase == Suspect then s.suspectSince else i.t))
  {
    hide Handle, Found, LostByAlarm, LostByMarker, RaisesSuspicion, Dispels, Agreed;
    EventTurns(p, s, i.t, i.event);
    StepKeeps(p, s, Ledger(s.lost, s.effort.reinitsDone), i);
  }

  lemma {:induction false} RunFine(p: Params, s: State, inputs: seq<Input>)
    requires Fine(p, s)
    ensures Fine(p, After(p, s, inputs))
  {
    hide Fine, Step;
    if inputs != [] {
      RunFine(p, s, inputs[..|inputs| - 1]);
      StepTurns(p, After(p, s, inputs[..|inputs| - 1]), inputs[|inputs| - 1]);
    }
  }

  /** After k of the inputs. */
  ghost function At(p: Params, s: State, inputs: seq<Input>, k: int): State
    requires 0 <= k <= |inputs|
  {
    After(p, s, inputs[..k])
  }

  lemma AtNext(p: Params, s: State, inputs: seq<Input>, k: nat)
    requires k < |inputs|
    ensures var i := inputs[k];
            At(p, s, inputs, k + 1) == Step(p, At(p, s, inputs, k), i.t, i.event, i.canTurn).0
  {
    assert inputs[..k + 1][..k] == inputs[..k];
  }

  lemma FineAt(p: Params, s: State, inputs: seq<Input>, k: nat)
    requires Fine(p, s) && k <= |inputs|
    ensures Fine(p, At(p, s, inputs, k))
  {
    RunFine(p, s, inputs[..k]);
  }

  /** A lost robot has lost its way at some event for one of the two causes, and has been lost ever since. */
  lemma {:induction false} LossHasCause(p: Params, s: State, inputs: seq<Input>, n: nat) returns (k: nat)
    requires Fine(p, s) && n <= |inputs| && !s.lost && At(p, s, inputs, n).lost
    ensures k < n && forall j :: k < j <= n ==> At(p, s, inputs, j).lost
    ensures var x := At(p, s, inputs, k);
            !x.lost && (LostByAlarm(p, x, inputs[k].t, inputs[k].event) || LostByMarker(p, x, inputs[k].t, inputs[k].event))
  {
    hide Fine, Step, LostByAlarm, LostByMarker, Found, After;
    StartsAt(p, s, inputs);
    var x := At(p, s, inputs, n - 1);
    FineAt(p, s, inputs, n - 1);
    AtNext(p, s, inputs, n - 1);
    StepTurns(p, x, inputs[n - 1]);
    if x.lost {
      k := LossHasCause(p, s, inputs, n - 1);
    } else {
      k := n - 1;
    }
  }

  lemma StartsAt(p: Params, s: State, inputs: seq<Input>)
    ensures At(p, s, inputs, 0) == s
  {
  }

  /** A suspect robot has come under suspicion at some event, and has been suspect ever since, without a pose from outside. */
  lemma {:induction false} SuspicionHasCause(p: Params, s: State, inputs: seq<Input>, n: nat) returns (k: nat)
    requires Fine(p, s) && n <= |inputs| && s.phase != Suspect && At(p, s, inputs, n).phase == Suspect
    ensures k < n && RaisesSuspicion(p, At(p, s, inputs, k), inputs[k].t, inputs[k].event)
    ensures At(p, s, inputs, n).suspectSince == inputs[k].t
    ensures forall j :: k < j <= n ==> At(p, s, inputs, j).phase == Suspect
    ensures forall j :: k < j < n ==> !inputs[j].event.ExternalPose?
  {
    hide Step, LostByAlarm, LostByMarker, Found, After, Alarmed;
    StartsAt(p, s, inputs);
    var x := At(p, s, inputs, n - 1);
    FineAt(p, s, inputs, n - 1);
    FineAt(p, s, inputs, n);
    AtNext(p, s, inputs, n - 1);
    StepTurns(p, x, inputs[n - 1]);
    if x.phase == Suspect {
      k := SuspicionHasCause(p, s, inputs, n - 1);
    } else {
      k := n - 1;
    }
  }

  /**
   A robot lost by an alarm came under suspicion at an earlier event, at least suspectTime before,
   was suspect from then on without a pose from outside, and there is an alarm when it is lost.
   */
  lemma AlarmLasted(p: Params, s: State, inputs: seq<Input>, n: nat) returns (k: nat)
    requires Fine(p, s) && n < |inputs| && s.phase != Suspect && LostByAlarm(p, At(p, s, inputs, n), inputs[n].t, inputs[n].event)
    ensures k < n && RaisesSuspicion(p, At(p, s, inputs, k), inputs[k].t, inputs[k].event)
    ensures inputs[n].t - inputs[k].t >= p.suspectTime && Alarmed(p, At(p, s, inputs, n), inputs[n].event)
    ensures forall j :: k < j <= n ==> At(p, s, inputs, j).phase == Suspect
    ensures forall j :: k < j <= n ==> !inputs[j].event.ExternalPose?
  {
    hide Alarmed, RaisesSuspicion, Fine, After;
    k := SuspicionHasCause(p, s, inputs, n);
  }

  /** The evaluations at the end of the run that agree, without one in between that does not. */
  ghost function Streak(p: Params, s: State, inputs: seq<Input>, n: nat): int
    requires n <= |inputs|
  {
    if n == 0 then 0
    else
      var x, i := At(p, s, inputs, n - 1), inputs[n - 1];
      if !Evaluates(i.event) then Streak(p, s, inputs, n - 1)
      else if Agrees(p, x, i.t, i.event) then Streak(p, s, inputs, n - 1) + 1
      else 0
  }

  /** While a robot is lost its count is the number of agreeing evaluations in a row. */
  lemma {:induction false} CountIsStreak(p: Params, s: State, inputs: seq<Input>, n: nat)
    requires Fine(p, s) && s.lost && s.convergedCount == 0 && n <= |inputs|
    requires forall j :: 0 <= j <= n ==> At(p, s, inputs, j).lost
    ensures At(p, s, inputs, n).convergedCount == Streak(p, s, inputs, n)
  {
    hide Fine, Step, LostByAlarm, LostByMarker, Found, After, Agrees, Dispels, RaisesSuspicion;
    StartsAt(p, s, inputs);
    if n > 0 {
      CountIsStreak(p, s, inputs, n - 1);
      FineAt(p, s, inputs, n - 1);
      AtNext(p, s, inputs, n - 1);
      StepTurns(p, At(p, s, inputs, n - 1), inputs[n - 1]);
    }
  }

  /** A robot that has been lost is found by the n-th event exactly if enough evaluations in a row have agreed by then. */
  lemma FoundExactly(p: Params, s: State, inputs: seq<Input>, n: nat)
    requires Fine(p, s) && s.lost && s.convergedCount == 0 && n < |inputs|
    requires forall j :: 0 <= j <= n ==> At(p, s, inputs, j).lost
    ensures !At(p, s, inputs, n + 1).lost <==> Evaluates(inputs[n].event) && Streak(p, s, inputs, n + 1) >= p.convergeCount
  {
    hide Fine, Step, LostByAlarm, LostByMarker, After, Agrees, Dispels, RaisesSuspicion;
    CountIsStreak(p, s, inputs, n);
    FineAt(p, s, inputs, n);
    AtNext(p, s, inputs, n);
    StepTurns(p, At(p, s, inputs, n), inputs[n]);
  }
}
