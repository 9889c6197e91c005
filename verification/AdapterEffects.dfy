/** What one callback can change: clocks, guards, publisher evidence, histories, and at most one call on the gate. */
module AdapterEffects {
  import opened Contracts
  import opened Reasons
  import opened RigidTransforms
  import opened Stamps
  import opened HealthGate
  import opened ContractConfig
  import opened OdometryValidation
  import opened AdapterState
  import opened AdapterSteps
  import opened AdapterInvariant
  import opened DiagnosticEvidence

  /** The two latches of the transform code. */
  predicate TransformFailure(reason: Reason) {
    reason == InputPoseConstructionFailed || reason == ShadowPoseTransformFailed
  }

  /** Neither a transform latch nor the low-rate reason. */
  predicate Usual(reason: Reason) {
    !TransformFailure(reason) && reason != OdometryRateTooLow
  }

  /** The minimum rate is above the reciprocal of the allowed gap. */
  predicate RateCanBeLow(c: Contract) {
    c.health.maximumOdometryStampGapSec > 0.0 &&
    c.health.minimumOdometryRateHz > 1.0 / c.health.maximumOdometryStampGapSec
  }

  predicate Ordinary(c: Contract, event: GateEvent) {
    event.ObserveHealthySample? || Usual(event.reason) || (event.reason == OdometryRateTooLow && RateCanBeLow(c))
  }

  predicate SameFault(g: GateHistory, h: GateHistory) {
    && h.faultCommitted == g.faultCommitted && h.faultAccepted == g.faultAccepted
    && h.faultObserved == g.faultObserved && h.faultPending == g.faultPending
  }

  /** The books of the last fault were made just now. */
  predicate JustFaulted(t: State) {
    && t.gateHistory.faultCommitted == |t.odometryHistory.committed|
    && t.gateHistory.faultAccepted == |t.odometryHistory.accepted|
    && t.gateHistory.faultObserved == |t.gateHistory.observed|
    && t.gateHistory.faultPending == Pending(t)
  }

  /** What one call leaves, from a history g and the stamp last observed. */
  ghost predicate CallMade(g: GateHistory, last: Option<int>, t: State, call: GateEvent) {
    var h := t.gateHistory;
    match call
    case ObserveHealthySample =>
      && SameFault(g, h) && t.odometry.valid && t.odometry.stampGuard.Some? && t.odometry.stampGuard != last
      && h.observed == g.observed + [t.odometry.stampGuard.value] && t.lastHealthObserved == t.odometry.stampGuard
    case MarkStarting(_) => SameFault(g, h) && h.observed == g.observed && t.lastHealthObserved == last
    case _ => JustFaulted(t) && h.observed == g.observed && t.lastHealthObserved == last
  }

  /** At most one call, booked as it should be. */
  ghost predicate OneCall(c: Contract, g: GateHistory, last: Option<int>, t: State) {
    var h := t.gateHistory;
    if h.calls == g.calls then SameFault(g, h) && h.observed == g.observed && t.lastHealthObserved == last
    else
      && |h.calls| == |g.calls| + 1 && h.calls[..|g.calls|] == g.calls
      && Ordinary(c, h.calls[|g.calls|]) && CallMade(g, last, t, h.calls[|g.calls|])
  }

  predicate NewFault(before: seq<GateEvent>, after: seq<GateEvent>) {
    |after| == |before| + 1 && IsFault(after[|before|])
  }

  /** A decision leaves no sample waiting, unless it is a fault, or the gate is latched or starting. */
  predicate Settled(g: GateHistory, t: State) {
    || NewFault(g.calls, t.gateHistory.calls)
    || t.gate.state == LatchedFault || t.gate.state == Starting
    || !Pending(t)
  }

  /** The outcome of a callback that decides. */
  ghost predicate Decision(c: Contract, g: GateHistory, last: Option<int>, t: State) {
    OneCall(c, g, last, t) && Settled(g, t)
  }

  /** Only the gate, its observations and the evaluation time moved, with one decision. */
  ghost predicate GateOnly(c: Contract, s: State, t: State, now: int) {
    && t == s.(gate := t.gate, lastHealthObserved := t.lastHealthObserved, gateHistory := t.gateHistory)
    && t.gateHistory.lastTick == s.gateHistory.lastTick
    && (t.gateHistory.evaluatedAt == s.gateHistory.evaluatedAt || t.gateHistory.evaluatedAt == now)
    && Decision(c, s.gateHistory, s.lastHealthObserved, t)
  }

  /** Valid odometry has a rate that is high enough. */
  predicate RateHonest(c: Contract, o: OdometryTrack) {
    o.valid && o.rateHz.Some? ==> o.rateHz.value >= c.health.minimumOdometryRateHz
  }

  lemma ReachableRateHonest(c: Contract, s: State)
    requires Inv(c, s)
    ensures RateHonest(c, s.odometry)
  {
    hide DataInv;
    hide GateInv;
    hide ObservedInv;
    hide FaultInv;
    hide MarkedInv;
    if s.odometry.valid {
      ValidOdometryMeans(c, s);
    }
  }

  lemma FaultGateOnly(c: Contract, s: State, event: GateEvent, now: int)
    requires IsFault(event) && Ordinary(c, event)
    ensures GateOnly(c, s, Fault(c, s, event), now)
  {
    hide Apply;
    hide Ordinary;
    assert (s.gateHistory.calls + [event])[..|s.gateHistory.calls|] == s.gateHistory.calls;
  }

  /** The evaluation time is noted before anything else. */
  lemma EvaluatedFramed(c: Contract, s: State, t: State, now: int)
    requires GateOnly(c, s.(gateHistory := s.gateHistory.(evaluatedAt := now)), t, now)
    ensures GateOnly(c, s, t, now)
  {
    hide Ordinary;
  }

  lemma {:induction false} DiagnosticsReasonUsual(required: seq<RequiredDiagnostic>,
                                                  observations: map<string, Observation>, stale: real, now: int)
    ensures Usual(DiagnosticsReason(required, observations, stale, now))
  {
    hide Seconds;
    if required != [] {
      DiagnosticsReasonUsual(required[1..], observations, stale, now);
    }
  }

  lemma HealthReasonUsual(c: Contract, s: State, now: int)
    requires RateHonest(c, s.odometry)
    ensures HealthReason(c, s, now).Success? ==> Usual(HealthReason(c, s, now).value)
  {
    hide DiagnosticsReason;
    hide Seconds;
    DiagnosticsReasonUsual(c.input.requiredDiagnostics, s.diagnostics.observations,
                           c.health.diagnosticStaleAfterSec, now);
  }

  lemma EvaluateGateOnly(c: Contract, s: State, now: int)
    requires RateHonest(c, s.odometry)
    requires MaybeAdvanceHealth(c, s, now).Success?
    ensures GateOnly(c, s, MaybeAdvanceHealth(c, s, now).value, now)
  {
    hide HealthReason;
    hide Apply;
    hide RateHonest;
    hide Usual;
    HealthReasonUsual(c, s, now);
    var evaluated := s.(gateHistory := s.gateHistory.(evaluatedAt := now));
    if s.gate.state != LatchedFault {
      var reason := HealthReason(c, s, now).value;
      if reason != InputHealthy {
        FaultGateOnly(c, evaluated, MarkTransient(reason), now);
        EvaluatedFramed(c, s, Fault(c, evaluated, MarkTransient(reason)), now);
      } else {
        HealthyInputs(c, s, now);
        if s.lastHealthObserved != s.odometry.stampGuard {
          ObserveGateOnly(c, s, now);
        }
      }
    }
    hide Fault;
    hide Observe;
  }

  lemma ObserveGateOnly(c: Contract, s: State, now: int)
    requires s.odometry.valid && s.odometry.stampGuard.Some? && s.lastHealthObserved != s.odometry.stampGuard
    ensures GateOnly(c, s, Observe(c, s.(gateHistory := s.gateHistory.(evaluatedAt := now))), now)
  {
    hide Apply;
    hide Usual;
    hide RateCanBeLow;
    assert (s.gateHistory.calls + [ObserveHealthySample])[..|s.gateHistory.calls|] == s.gateHistory.calls;
  }

  // ----- odometry -----

  /** Odometry ends valid exactly when the callback has accepted its sample. */
  predicate AcceptedStep(before: seq<Accepted>, t: State) {
    var after := t.odometryHistory.accepted;
    if t.odometry.valid then |after| == |before| + 1 && after[..|before|] == before else after == before
  }

  /** Everything a callback on an odometry sample can change, apart from the verdict itself. */
  ghost predicate OdometryEffect(c: Contract, s: State, t: State, now: int, rosNow: int, stampNs: int) {
    && t.status == s.status && t.diagnostics == s.diagnostics && t.publishers == s.publishers
    && t.startedAt == s.startedAt && t.gateHistory.lastTick == s.gateHistory.lastTick
    && (t.gateHistory.evaluatedAt == s.gateHistory.evaluatedAt || t.gateHistory.evaluatedAt == now)
    && Decision(c, s.gateHistory, s.lastHealthObserved, t)
    && (t.odometry.receivedAt == s.odometry.receivedAt || t.odometry.receivedAt == Some(now))
    && AcceptedStep(s.odometryHistory.accepted, t)
    && (if t.odometry.sequenceGuard == s.odometry.sequenceGuard then
          && t.odometryHistory == s.odometryHistory
          && t.odometry.stampGuard == s.odometry.stampGuard
          && t.odometry.window == s.odometry.window
        else
          && t.odometry.sequenceGuard == Some(stampNs)
          && ClockDomainMatches(c, rosNow, stampNs) == Success(true)
          && t.odometryHistory.committed == s.odometryHistory.committed + [stampNs]
          && (t.odometry.stampGuard == s.odometry.stampGuard || t.odometry.stampGuard == Some(stampNs)))
  }

  /** What judging a committed sample can change. */
  ghost predicate JudgeEffect(c: Contract, s: State, t: State, now: int, stampNs: int) {
    && t.status == s.status && t.diagnostics == s.diagnostics && t.publishers == s.publishers
    && t.startedAt == s.startedAt && t.gateHistory.lastTick == s.gateHistory.lastTick
    && (t.gateHistory.evaluatedAt == s.gateHistory.evaluatedAt || t.gateHistory.evaluatedAt == now)
    && Decision(c, s.gateHistory, s.lastHealthObserved, t)
    && t.counters.received == s.counters.received
    && (t.odometry.receivedAt == s.odometry.receivedAt || t.odometry.receivedAt == Some(now))
    && t.odometry.sequenceGuard == s.odometry.sequenceGuard
    && t.odometryHistory.committed == s.odometryHistory.committed
    && AcceptedStep(s.odometryHistory.accepted, t)
    && (t.odometry.stampGuard == s.odometry.stampGuard || t.odometry.stampGuard == Some(stampNs))
  }

  lemma RejectJudgeEffect(c: Contract, s: State, event: GateEvent, now: int, stampNs: int)
    requires IsFault(event) && Ordinary(c, event)
    ensures JudgeEffect(c, s, RejectOdometry(c, s, event), now, stampNs)
  {
    hide Apply;
  }

  lemma AcceptEffect(c: Contract, s: State, now: int, stampNs: int, pose: RigidTransform)
    requires ValidContract(c) && IsCameraPose(pose)
    requires StampOrderAfter(s.odometry.stampGuard, stampNs) == Success(Accept)
    requires RateHonest(c, s.odometry.(valid := true))
    requires AcceptOdometry(c, s, now, stampNs, pose).Success?
    ensures JudgeEffect(c, s, AcceptOdometry(c, s, now, stampNs, pose).value, now, stampNs)
  {
    hide ValidContract;
    hide AcceptOdometry;
    hide MaybeAdvanceHealth;
    hide ShadowPose;
    AcceptIsEvaluation(c, s, now, stampNs, pose);
    EvaluateGateOnly(c, WithAccepted(c, s, now, stampNs, pose), now);
  }

  /** Violation counters are free. */
  lemma JudgeEffectFramed(c: Contract, s: State, u: State, t: State, now: int, stampNs: int)
    requires u == s.(counters := u.counters) && u.counters.received == s.counters.received
    requires JudgeEffect(c, u, t, now, stampNs)
    ensures JudgeEffect(c, s, t, now, stampNs)
  {
    hide Decision;
  }

  lemma RejectCounted(c: Contract, s: State, u: State, event: GateEvent, now: int, stampNs: int)
    requires u == s.(counters := u.counters) && u.counters.received == s.counters.received
    requires IsFault(event) && Ordinary(c, event)
    ensures JudgeEffect(c, s, RejectOdometry(c, u, event), now, stampNs)
  {
    hide JudgeEffect;
    hide RejectOdometry;
    RejectJudgeEffect(c, u, event, now, stampNs);
    JudgeEffectFramed(c, s, u, RejectOdometry(c, u, event), now, stampNs);
  }

  lemma AcceptCounted(c: Contract, s: State, u: State, now: int, stampNs: int, pose: RigidTransform)
    requires ValidContract(c) && IsCameraPose(pose)
    requires u == s.(counters := u.counters) && u.counters.received == s.counters.received
    requires StampOrderAfter(s.odometry.stampGuard, stampNs) == Success(Accept)
    requires RateHonest(c, s.odometry.(valid := true))
    requires AcceptOdometry(c, u, now, stampNs, pose).Success?
    ensures JudgeEffect(c, s, AcceptOdometry(c, u, now, stampNs, pose).value, now, stampNs)
  {
    hide JudgeEffect;
    hide AcceptOdometry;
    hide ValidContract;
    AcceptEffect(c, u, now, stampNs, pose);
    JudgeEffectFramed(c, s, u, AcceptOdometry(c, u, now, stampNs, pose).value, now, stampNs);
  }

  lemma WarmUpEffect(c: Contract, s: State, now: int, stampNs: int)
    ensures JudgeEffect(c, s, s.(odometry := s.odometry.(valid := false)), now, stampNs)
  {
  }

  /** Without an over-long gap the rate of a full window is too low only when it can be. */
  lemma RateTooLowMeans(c: Contract, o: OdometryTrack, h: OdometryHistory)
    requires ValidHealth(c.health) && WindowInv(c, o, h) && o.rateHz.Some? && o.maximumGapSec.Some?
    requires o.rateHz.value < c.health.minimumOdometryRateHz
    requires o.maximumGapSec.value <= c.health.maximumOdometryStampGapSec
    ensures RateCanBeLow(c)
  {
    SuffixIncreasing(h.committed, c.health.odometryRateWindowSamples);
    hide LastStamps;
    hide MeanRate;
    hide MaximumGap;
    RateFloor(o.window, c.health.maximumOdometryStampGapSec, c.health.minimumOdometryRateHz);
  }

  lemma TimingEffect(c: Contract, s: State, now: int, stampNs: int, pose: RigidTransform,
                     stampGapValid: bool, receiveGapValid: bool)
    requires ValidContract(c) && IsCameraPose(pose) && WindowInv(c, s.odometry, s.odometryHistory)
    requires StampOrderAfter(s.odometry.stampGuard, stampNs) == Success(Accept)
    requires JudgeTiming(c, s, now, stampNs, pose, stampGapValid, receiveGapValid).Success?
    ensures JudgeEffect(c, s, JudgeTiming(c, s, now, stampNs, pose, stampGapValid, receiveGapValid).value, now, stampNs)
  {
    hide ValidInput;
    hide ValidExtrinsic;
    hide WindowInv;
    hide RateCanBeLow;
    hide AcceptOdometry;
    hide RejectOdometry;
    hide JudgeEffect;
    if s.odometry.rateHz.None? {
      WarmUpEffect(c, s, now, stampNs);
    } else {
      var rated := if s.odometry.rateHz.value >= c.health.minimumOdometryRateHz then s
                   else s.(counters := s.counters.(rateViolation := s.counters.rateViolation + 1));
      RejectCounted(c, s, rated, MarkTransient(OdometryStampGapExceeded), now, stampNs);
      RejectCounted(c, s, rated, MarkTransient(OdometryReceiveGapExceeded), now, stampNs);
      if s.odometry.rateHz.value >= c.health.minimumOdometryRateHz {
        if AcceptOdometry(c, rated, now, stampNs, pose).Success? {
          AcceptCounted(c, s, rated, now, stampNs, pose);
        }
      } else if s.odometry.maximumGapSec.Some?
                && s.odometry.maximumGapSec.value <= c.health.maximumOdometryStampGapSec {
        RateTooLowMeans(c, s.odometry, s.odometryHistory);
        RejectCounted(c, s, rated, MarkTransient(OdometryRateTooLow), now, stampNs);
      }
    }
  }

  lemma JudgedEffect(c: Contract, s: State, now: int, m: OdometryMessage, stampNs: int,
                     stampGapValid: bool, receiveGapValid: bool)
    requires ValidContract(c) && JustCommitted(c, s, stampNs)
    requires SampleValid(m, stampNs, ODOM, CAMERA)
    ensures JudgeOdometry(c, s, now, m, stampNs, stampGapValid, receiveGapValid).Success?
    ensures JudgeEffect(c, s, JudgeOdometry(c, s, now, m, stampNs, stampGapValid, receiveGapValid).value, now, stampNs)
  {
    hide RateCanBeLow;
    hide Normalizable;
    hide ValidFrameId;
    hide ValidContract;
    hide Open;
    hide CommittedCount;
    hide MarkedInv;
    hide Decided;
    hide JudgeTiming;
    hide RejectOdometry;
    hide JumpDetected;
    hide JudgeEffect;
    JudgeKeepsInv(c, s, now, m, stampNs, stampGapValid, receiveGapValid);
    FramesDiffer();
    var pose := Create(m.parentFrame, m.childFrame, m.position, m.orientation).value;
    assert IsCameraPose(pose);
    RejectCounted(c, s, s.(counters := s.counters.(poseJumpViolation := s.counters.poseJumpViolation + 1)),
                  MarkLatched(LocalizationEpochJumpDetected), now, stampNs);
    if JudgeTiming(c, s, now, stampNs, pose, stampGapValid, receiveGapValid).Success? {
      OpenWindow(c, s);
      TimingEffect(c, s, now, stampNs, pose, stampGapValid, receiveGapValid);
    }
  }

  /** A rejection before the commit, whatever else is counted. */
  lemma EarlyReject(c: Contract, s: State, u: State, event: GateEvent, now: int, rosNow: int, stampNs: int)
    requires u == s.(counters := u.counters) && IsFault(event) && Ordinary(c, event)
    ensures OdometryEffect(c, s, RejectOdometry(c, u, event), now, rosNow, stampNs)
    ensures RejectOdometry(c, u, event).counters == u.counters.(rejected := u.counters.rejected + 1)
  {
    hide RateCanBeLow;
    hide Apply;
    hide ClockDomainMatches;
  }

  /** A commit followed by its judgement. */
  lemma CommitEffect(c: Contract, s: State, u: State, t: State, now: int, rosNow: int, stampNs: int)
    requires u == s.(odometry := u.odometry, odometryHistory := u.odometryHistory, counters := u.counters)
    requires u.counters.received == s.counters.received
    requires u.odometryHistory == s.odometryHistory.(committed := s.odometryHistory.committed + [stampNs])
    requires u.odometry.sequenceGuard == Some(stampNs) && s.odometry.sequenceGuard != Some(stampNs)
    requires u.odometry.stampGuard == s.odometry.stampGuard && u.odometry.receivedAt == s.odometry.receivedAt
    requires ClockDomainMatches(c, rosNow, stampNs) == Success(true)
    requires JudgeEffect(c, u, t, now, stampNs)
    ensures OdometryEffect(c, s, t, now, rosNow, stampNs) && t.counters.received == s.counters.received
  {
    hide Decision;
    hide ClockDomainMatches;
  }

  lemma CommittedEffect(c: Contract, s: State, now: int, rosNow: int, m: OdometryMessage, stampNs: int)
    requires ValidContract(c) && Open(c, s) && Uncounted(c, s)
    requires MarkedInv(c, s, |s.odometryHistory.committed|)
    requires SampleValid(m, stampNs, ODOM, CAMERA)
    requires StampOrderAfter(s.odometry.sequenceGuard, stampNs) == Success(Accept)
    requires ClockDomainMatches(c, rosNow, stampNs) == Success(true)
    ensures StampGapValid(c, s.odometry.sequenceGuard, stampNs).Success?
    ensures CommitOdometry(c, s, now, stampNs).Success?
    ensures var r := JudgeOdometry(c, CommitOdometry(c, s, now, stampNs).value, now, m, stampNs,
                                   StampGapValid(c, s.odometry.sequenceGuard, stampNs).value,
                                   ReceiveGapValid(c, s.odometry, now));
            && r.Success?
            && OdometryEffect(c, s, r.value, now, rosNow, stampNs)
            && r.value.counters.received == s.counters.received
  {
    hide ValidContract;
    hide Open;
    hide Uncounted;
    hide MarkedInv;
    hide Normalizable;
    hide JudgeOdometry;
    hide CommitOdometry;
    hide StampGapValid;
    hide ReceiveGapValid;
    hide ClockDomainMatches;
    hide OdometryEffect;
    hide JustCommitted;
    hide JudgeEffect;
    hide WindowInv;
    OpenWindow(c, s);
    CommitKeepsWindow(c, s, now, stampNs);
    CommitKeepsInv(c, s, now, stampNs);
    var u := CommitOdometry(c, s, now, stampNs).value;
    var gapValid, receiveValid := StampGapValid(c, s.odometry.sequenceGuard, stampNs).value,
                                  ReceiveGapValid(c, s.odometry, now);
    JudgedEffect(c, u, now, m, stampNs, gapValid, receiveValid);
    CommitEffect(c, s, u, JudgeOdometry(c, u, now, m, stampNs, gapValid, receiveValid).value, now, rosNow, stampNs);
  }

  lemma ValidOdometryEffect(c: Contract, s: State, now: int, rosNow: int, m: OdometryMessage, stampNs: int)
    requires ValidContract(c) && Open(c, s) && Uncounted(c, s)
    requires MarkedInv(c, s, |s.odometryHistory.committed|)
    requires SampleValid(m, stampNs, ODOM, CAMERA)
    ensures OnValidOdometry(c, s, now, rosNow, m, stampNs).Success?
    ensures var t := OnValidOdometry(c, s, now, rosNow, m, stampNs).value;
            OdometryEffect(c, s, t, now, rosNow, stampNs) && t.counters.received == s.counters.received
  {
    hide RateCanBeLow;
    hide ValidContract;
    hide Open;
    hide Uncounted;
    hide MarkedInv;
    hide Normalizable;
    hide RejectOdometry;
    hide JudgeOdometry;
    hide CommitOdometry;
    hide StampGapValid;
    hide ReceiveGapValid;
    hide ClockDomainMatches;
    hide OdometryEffect;
    ClockDefined(c, rosNow, stampNs);
    var n := s.counters;
    var order := StampOrderAfter(s.odometry.sequenceGuard, stampNs);
    if order == Success(Duplicate) {
      EarlyReject(c, s, s.(counters := n.(duplicate := n.duplicate + 1)), MarkTransient(DuplicateTimestamp),
                  now, rosNow, stampNs);
    } else if order == Success(Nonmonotonic) {
      EarlyReject(c, s, s.(counters := n.(nonmonotonic := n.nonmonotonic + 1)), MarkLatched(NonmonotonicTimestamp),
                  now, rosNow, stampNs);
    } else if !ClockDomainMatches(c, rosNow, stampNs).value {
      EarlyReject(c, s, s.(counters := n.(clockDomainMismatch := n.clockDomainMismatch + 1)),
                  MarkTransient(OdometryClockDomainMismatch), now, rosNow, stampNs);
    } else {
      CommittedEffect(c, s, now, rosNow, m, stampNs);
    }
  }

  lemma OpenWindow(c: Contract, s: State)
    requires Open(c, s)
    ensures WindowInv(c, s.odometry, s.odometryHistory)
  {
    hide WindowInv;
    hide AcceptedInv;
    hide ObservedInv;
    hide FaultInv;
  }

  lemma CountedEffect(c: Contract, s: State, u: State, t: State, now: int, rosNow: int, stampNs: int)
    requires u == s.(counters := u.counters)
    requires OdometryEffect(c, u, t, now, rosNow, stampNs)
    ensures OdometryEffect(c, s, t, now, rosNow, stampNs)
  {
    hide Decision;
    hide ClockDomainMatches;
  }

  lemma OdometryChanges(c: Contract, s: State, now: int, rosNow: int, m: OdometryMessage)
    requires ValidContract(c) && Inv(c, s)
    ensures OnOdometry(c, s, now, rosNow, m).Success?
    ensures var t := OnOdometry(c, s, now, rosNow, m).value;
            && OdometryEffect(c, s, t, now, rosNow, StampToNanoseconds(m.stamp).GetOr(0))
            && t.counters.received == s.counters.received + 1
  {
    hide RateCanBeLow;
    hide Inv;
    hide ValidHealth;
    hide ValidExtrinsic;
    hide Decided;
    hide Open;
    hide Uncounted;
    hide MarkedInv;
    hide SampleIssues;
    hide IssueEvent;
    hide OnValidOdometry;
    hide StampToNanoseconds;
    hide RejectOdometry;
    hide ValidFrameId;
    hide Normalizable;
    hide OdometryEffect;
    ReceiveOpens(c, s);
    FramesDiffer();
    var t := s.(counters := s.counters.(received := s.counters.received + 1));
    var stampNs := StampToNanoseconds(m.stamp).GetOr(0);
    SampleVerdict(m, stampNs, ODOM, CAMERA);
    var issues := SampleIssues(m, stampNs, ODOM, CAMERA);
    if issues != [] {
      IssueCodes(m, stampNs, ODOM, CAMERA);
      EarlyReject(c, s, t, IssueEvent(issues), now, rosNow, stampNs);
    } else {
      ValidOdometryEffect(c, t, now, rosNow, m, stampNs);
      CountedEffect(c, s, t, OnOdometry(c, s, now, rosNow, m).value, now, rosNow, stampNs);
    }
  }

  ghost predicate OwnCodes(issues: seq<ValidationIssue>) {
    forall i | 0 <= i < |issues| :: Usual(issues[i].code)
  }

  /** Sample validation has its own seven codes. */
  lemma IssueCodes(m: OdometryMessage, stampNs: int, parent: string, child: string)
    ensures OwnCodes(SampleIssues(m, stampNs, parent, child))
  {
    hide Normalizable;
    hide Checked;
    hide OwnCodes;
    hide Usual;
    SampleCodes();
    NoIssues();
    var frames := FrameIssues(m, parent, child);
    CheckedCodes([], m.parentFrame == parent, ParentFrameMismatch, true);
    CheckedCodes(Checked([], m.parentFrame == parent, ParentFrameMismatch, true),
                 m.childFrame == child, ChildFrameMismatch, true);
    var stamped := Checked(frames, stampNs > 0, InvalidTimestamp, false);
    CheckedCodes(frames, stampNs > 0, InvalidTimestamp, false);
    var finite := Checked(stamped, m.Finite(), NonfiniteMeasurement, false);
    CheckedCodes(stamped, m.Finite(), NonfiniteMeasurement, false);
    var oriented := Checked(finite, Normalizable(m.orientation), InvalidQuaternion, false);
    CheckedCodes(finite, Normalizable(m.orientation), InvalidQuaternion, false);
    var posed := Checked(oriented, m.poseCovarianceValid, InvalidPoseCovariance, false);
    CheckedCodes(oriented, m.poseCovarianceValid, InvalidPoseCovariance, false);
    CheckedCodes(posed, m.twistCovarianceValid, InvalidTwistCovariance, false);
  }

  lemma SampleCodes()
    ensures Usual(ParentFrameMismatch) && Usual(ChildFrameMismatch)
    ensures Usual(InvalidTimestamp) && Usual(NonfiniteMeasurement)
    ensures Usual(InvalidQuaternion)
    ensures Usual(InvalidPoseCovariance) && Usual(InvalidTwistCovariance)
  {
  }

  lemma NoIssues()
    ensures OwnCodes([])
  {
  }

  lemma CheckedCodes(issues: seq<ValidationIssue>, ok: bool, code: Reason, latched: bool)
    requires Usual(code) && OwnCodes(issues)
    ensures OwnCodes(Checked(issues, ok, code, latched))
  {
  }

  // ----- status -----

  ghost predicate StatusEffect(c: Contract, s: State, t: State, now: int, rosNow: int, stampNs: Option<int>) {
    && t == s.(gate := t.gate, status := t.status, lastHealthObserved := t.lastHealthObserved, counters := t.counters,
               gateHistory := t.gateHistory)
    && SameOdometryCounts(s.counters, t.counters)
    && t.gateHistory.lastTick == s.gateHistory.lastTick
    && (t.gateHistory.evaluatedAt == s.gateHistory.evaluatedAt || t.gateHistory.evaluatedAt == now)
    && Decision(c, s.gateHistory, s.lastHealthObserved, t)
    && (t.status.receivedAt == s.status.receivedAt || t.status.receivedAt == Some(now))
    && (if t.status.sequenceGuard == s.status.sequenceGuard then t.status.stampGuard == s.status.stampGuard
        else
          && stampNs.Some? && t.status.sequenceGuard == stampNs
          && ClockDomainMatches(c, rosNow, stampNs.value) == Success(true)
          && (t.status.stampGuard == s.status.stampGuard || t.status.stampGuard == stampNs))
  }

  lemma RejectStatusEffect(c: Contract, s: State, u: State, event: GateEvent, now: int, rosNow: int,
                           stampNs: Option<int>)
    requires u == s.(counters := u.counters) && SameOdometryCounts(s.counters, u.counters)
    requires IsFault(event) && Ordinary(c, event)
    ensures StatusEffect(c, s, RejectStatus(c, u, event), now, rosNow, stampNs)
  {
    hide Apply;
    hide ClockDomainMatches;
  }

  lemma CommitStatusEffect(c: Contract, s: State, u: State, now: int, rosNow: int, stampNs: int, accepted: bool)
    requires u == s.(counters := u.counters) && SameOdometryCounts(s.counters, u.counters)
    requires CommitStatus(c, u, now, stampNs, accepted).Success? && RateHonest(c, s.odometry)
    requires ClockDomainMatches(c, rosNow, stampNs) == Success(true)
    ensures StatusEffect(c, s, CommitStatus(c, u, now, stampNs, accepted).value, now, rosNow, Some(stampNs))
  {
    hide RateCanBeLow;
    hide ClockDomainMatches;
    hide MaybeAdvanceHealth;
    hide Decision;
    var committed := u.(status := u.status.(sequenceGuard := Some(stampNs), valid := accepted));
    if accepted {
      EvaluateGateOnly(
        c, committed.(status := committed.status.(stampGuard := Some(stampNs), receivedAt := Some(now))), now);
    } else {
      FaultGateOnly(c, committed, MarkTransient(TrackingStateNotAccepted), now);
    }
    hide Fault;
  }

  lemma WellFormedStatusEffect(c: Contract, s: State, u: State, now: int, rosNow: int, stampNs: int, accepted: bool)
    requires u == s.(counters := u.counters) && SameOdometryCounts(s.counters, u.counters)
    requires OnWellFormedStatus(c, u, now, rosNow, stampNs, accepted).Success? && RateHonest(c, s.odometry)
    ensures StatusEffect(c, s, OnWellFormedStatus(c, u, now, rosNow, stampNs, accepted).value, now, rosNow,
                         Some(stampNs))
  {
    hide RateCanBeLow;
    hide StatusEffect;
    hide RejectStatus;
    hide CommitStatus;
    hide ClockDomainMatches;
    var n := u.counters;
    var order := StampOrderAfter(u.status.sequenceGuard, stampNs).value;
    if order == Duplicate {
      RejectStatusEffect(c, s, u.(counters := n.(statusDuplicate := n.statusDuplicate + 1)),
                         MarkTransient(TrackingStatusDuplicateTimestamp), now, rosNow, Some(stampNs));
    } else if order == Nonmonotonic {
      RejectStatusEffect(c, s, u.(counters := n.(statusNonmonotonic := n.statusNonmonotonic + 1)),
                         MarkLatched(TrackingStatusNonmonotonicTimestamp), now, rosNow, Some(stampNs));
    } else if ClockDomainMatches(c, rosNow, stampNs) == Success(false) {
      RejectStatusEffect(c, s, u.(counters := n.(clockDomainMismatch := n.clockDomainMismatch + 1)),
                         MarkTransient(TrackingStatusClockDomainMismatch), now, rosNow, Some(stampNs));
    } else {
      CommitStatusEffect(c, s, u, now, rosNow, stampNs, accepted);
    }
  }

  lemma StatusChanges(c: Contract, s: State, now: int, rosNow: int, m: StatusMessage)
    requires ValidContract(c) && Inv(c, s)
    ensures OnVisualSlamStatus(c, s, now, rosNow, m).Success?
    ensures StatusEffect(c, s, OnVisualSlamStatus(c, s, now, rosNow, m).value, now, rosNow,
                         StampToNanoseconds(m.stamp))
  {
    hide RateCanBeLow;
    hide ValidContract;
    hide Inv;
    hide Decided;
    hide StampToNanoseconds;
    hide StatusEffect;
    hide RejectStatus;
    hide OnWellFormedStatus;
    hide RateHonest;
    StatusKeepsInv(c, s, now, rosNow, m);
    ReachableRateHonest(c, s);
    var u := s.(counters := s.counters.(statusReceived := s.counters.statusReceived + 1));
    if !StatusWellFormed(c, m) {
      RejectStatusEffect(c, s, u, MarkTransient(TrackingStatusInvalid), now, rosNow, StampToNanoseconds(m.stamp));
    } else {
      WellFormedStatusEffect(c, s, u, now, rosNow, StampToNanoseconds(m.stamp).value,
                             m.voState in c.input.acceptedVoStates);
    }
  }

  // ----- diagnostics -----

  ghost predicate DiagnosticsEffect(c: Contract, s: State, t: State, now: int, rosNow: int, stampNs: Option<int>) {
    && t == s.(gate := t.gate, diagnostics := t.diagnostics, lastHealthObserved := t.lastHealthObserved,
               counters := t.counters, gateHistory := t.gateHistory)
    && SameOdometryCounts(s.counters, t.counters)
    && t.gateHistory.lastTick == s.gateHistory.lastTick
    && (t.gateHistory.evaluatedAt == s.gateHistory.evaluatedAt || t.gateHistory.evaluatedAt == now)
    && OneCall(c, s.gateHistory, s.lastHealthObserved, t)
    && EvidenceEffect(c, s.diagnostics, t.diagnostics, now, rosNow, stampNs)
  }

  /** The same for a message that names something required: the callback decides. */
  ghost predicate EvidenceDecision(c: Contract, s: State, t: State, now: int, rosNow: int, stampNs: Option<int>) {
    DiagnosticsEffect(c, s, t, now, rosNow, stampNs) && Settled(s.gateHistory, t)
  }

  /** Guards move only to the stamp of a message that passed the clock check; evidence is kept, erased or new. */
  ghost predicate EvidenceEffect(c: Contract, d: DiagnosticTrack, e: DiagnosticTrack, now: int, rosNow: int,
                                 stampNs: Option<int>)
  {
    && e.guards.Keys == d.guards.Keys
    && (forall n | n in d.guards :: e.guards[n] == d.guards[n] ||
          (stampNs.Some? && e.guards[n] == stampNs && ClockDomainMatches(c, rosNow, stampNs.value) == Success(true)))
    && (forall n | n in e.observations ::
          (n in d.observations && e.observations[n] == d.observations[n]) || e.observations[n].receivedAt == now)
  }

  lemma RejectDiagnosticsEffect(c: Contract, s: State, u: State, count: nat, event: GateEvent, now: int, rosNow: int,
                                stampNs: Option<int>)
    requires OnlyDiagnosticsChanged(s, u) && EvidenceEffect(c, s.diagnostics, u.diagnostics, now, rosNow, stampNs)
    requires IsFault(event) && Ordinary(c, event)
    ensures EvidenceDecision(c, s, RejectDiagnostics(c, u, count, event), now, rosNow, stampNs)
  {
    hide Apply;
    hide EvidenceEffect;
    hide Ordinary;
    assert (s.gateHistory.calls + [event])[..|s.gateHistory.calls|] == s.gateHistory.calls;
  }

  lemma EvaluateDiagnosticsEffect(c: Contract, s: State, u: State, now: int, rosNow: int, stampNs: Option<int>)
    requires OnlyDiagnosticsChanged(s, u) && EvidenceEffect(c, s.diagnostics, u.diagnostics, now, rosNow, stampNs)
    requires MaybeAdvanceHealth(c, u, now).Success? && RateHonest(c, s.odometry)
    ensures EvidenceDecision(c, s, MaybeAdvanceHealth(c, u, now).value, now, rosNow, stampNs)
  {
    hide MaybeAdvanceHealth;
    hide EvidenceEffect;
    hide OneCall;
    hide Settled;
    hide RateHonest;
    EvaluateGateOnly(c, u, now);
  }

  lemma {:induction false} EvidenceErrorUsual(candidates: seq<Candidate>)
    ensures FirstEvidenceError(candidates).Some? ==> Usual(FirstEvidenceError(candidates).value)
  {
    hide DistinctKeys;
    hide HasValues;
    if candidates != [] {
      EvidenceErrorUsual(candidates[1..]);
    }
  }

  lemma MovedEvidence(c: Contract, d: DiagnosticTrack, e: DiagnosticTrack, names: set<string>,
                      moved: map<string, Option<int>>, now: int, rosNow: int, stampNs: int)
    requires EvidenceEffect(c, d, e, now, rosNow, Some(stampNs)) && e.guards == d.guards
    requires ClockDomainMatches(c, rosNow, stampNs) == Success(true)
    requires moved.Keys == e.guards.Keys
    requires forall n | n in e.guards :: moved[n] == if n in names then Some(stampNs) else e.guards[n]
    ensures EvidenceEffect(c, d, e.(guards := moved), now, rosNow, Some(stampNs))
  {
    hide ClockDomainMatches;
  }

  lemma StoredEvidence(c: Contract, d: DiagnosticTrack, e: DiagnosticTrack, candidates: seq<Candidate>,
                       now: int, rosNow: int, stampNs: int)
    requires EvidenceEffect(c, d, e, now, rosNow, Some(stampNs))
    requires CandidatesOf(c.input.requiredDiagnostics, candidates)
    ensures EvidenceEffect(c, d, e.(observations := StoreEvidence(e.observations, candidates, stampNs, now)), now,
                           rosNow, Some(stampNs))
  {
    hide ClockDomainMatches;
    hide FindRequired;
    StoreEvidenceWrites(c.input.requiredDiagnostics, e.observations, candidates, stampNs, now);
    hide StoreEvidence;
    var stored := StoreEvidence(e.observations, candidates, stampNs, now);
    forall n | n in stored && n in CandidateNames(candidates)
      ensures stored[n].receivedAt == now
    {
      var i :| 0 <= i < |candidates| && candidates[i].status.name == n;
    }
  }

  lemma DiagnosticCodes()
    ensures Usual(UpstreamDiagnosticTimestampInvalid) && Usual(UpstreamDiagnosticClockDomainMismatch)
    ensures Usual(UpstreamDiagnosticDuplicateTimestamp) && Usual(UpstreamDiagnosticNonmonotonicTimestamp)
    ensures Usual(DuplicateRequiredDiagnosticStatus)
  {
  }

  lemma SourcedEffect(c: Contract, s: State, u: State, now: int, rosNow: int, stamp: Time, candidates: seq<Candidate>)
    requires Sourced(c, s, u, candidates)
    requires u.diagnostics.guards == s.diagnostics.guards
    requires EvidenceEffect(c, s.diagnostics, u.diagnostics, now, rosNow, StampToNanoseconds(stamp))
    ensures OnSourcedDiagnostics(c, u, now, rosNow, stamp, candidates).Success?
    ensures EvidenceDecision(c, s, OnSourcedDiagnostics(c, u, now, rosNow, stamp, candidates).value, now, rosNow,
                             StampToNanoseconds(stamp))
  {
    DiagnosticCodes();
    hide Usual;
    hide RateCanBeLow;
    hide Inv;
    hide Decided;
    hide DiagnosticsInv;
    hide RejectDiagnostics;
    hide MaybeAdvanceHealth;
    hide ClockDomainMatches;
    hide StampToNanoseconds;
    hide CandidatesOf;
    hide FirstStampFault;
    hide CommitGuards;
    hide FirstEvidenceError;
    hide StoreEvidence;
    hide CandidateNames;
    hide EvidenceEffect;
    hide EvidenceDecision;
    hide RateHonest;
    SourcedKeepsInv(c, s, u, now, rosNow, stamp, candidates);
    var n, at := |candidates|, StampToNanoseconds(stamp);
    var k := u.counters;
    if at.None? || at.value <= 0 {
      RejectDiagnosticsEffect(c, s, u, n, MarkTransient(UpstreamDiagnosticTimestampInvalid), now, rosNow, at);
    } else {
      ClockDefined(c, rosNow, at.value);
      GuardsKnown(c, u.diagnostics);
      StampFaultDefined(c.input.requiredDiagnostics, u.diagnostics.guards, candidates, at.value);
      if !ClockDomainMatches(c, rosNow, at.value).value {
        RejectDiagnosticsEffect(c, s, u.(counters := k.(clockDomainMismatch := k.clockDomainMismatch + 1)), n,
                                MarkTransient(UpstreamDiagnosticClockDomainMismatch), now, rosNow, at);
      } else {
        var order := FirstStampFault(u.diagnostics.guards, candidates, at.value).value;
        if order == Duplicate {
          RejectDiagnosticsEffect(c, s, u.(counters := k.(diagnosticDuplicate := k.diagnosticDuplicate + 1)), n,
                                  MarkTransient(UpstreamDiagnosticDuplicateTimestamp), now, rosNow, at);
        } else if order == Nonmonotonic {
          RejectDiagnosticsEffect(c, s, u.(counters := k.(diagnosticNonmonotonic := k.diagnosticNonmonotonic + 1)), n,
                                  MarkLatched(UpstreamDiagnosticNonmonotonicTimestamp), now, rosNow, at);
        } else {
          CommittedEvidenceEffect(c, s, u, now, rosNow, at.value, candidates);
        }
      }
    }
  }

  lemma CommittedEvidenceEffect(c: Contract, s: State, u: State, now: int, rosNow: int, stampNs: int,
                                candidates: seq<Candidate>)
    requires Sourced(c, s, u, candidates) && stampNs > 0
    requires u.diagnostics.guards == s.diagnostics.guards
    requires EvidenceEffect(c, s.diagnostics, u.diagnostics, now, rosNow, Some(stampNs))
    requires ClockDomainMatches(c, rosNow, stampNs) == Success(true)
    requires FirstStampFault(u.diagnostics.guards, candidates, stampNs) == Success(Accept)
    ensures CommitGuards(u.diagnostics.guards, candidates, stampNs).Success?
    ensures var guards := CommitGuards(u.diagnostics.guards, candidates, stampNs).value;
            var committed := u.(diagnostics := u.diagnostics.(guards := guards));
            match FirstEvidenceError(candidates)
            case Some(error) =>
              EvidenceDecision(c, s, RejectDiagnostics(c, committed, |candidates|,
                if error == UpstreamDiagnosticDuplicateValueKey then MarkLatched(error) else MarkTransient(error)),
                now, rosNow, Some(stampNs))
            case None =>
              var stored := committed.(diagnostics := committed.diagnostics.(observations :=
                StoreEvidence(u.diagnostics.observations, candidates, stampNs, now)));
              MaybeAdvanceHealth(c, stored, now).Success? &&
              EvidenceDecision(c, s, MaybeAdvanceHealth(c, stored, now).value, now, rosNow, Some(stampNs))
  {
    hide RateCanBeLow;
    hide Inv;
    hide Decided;
    hide DiagnosticsInv;
    hide RejectDiagnostics;
    hide MaybeAdvanceHealth;
    hide ClockDomainMatches;
    hide CandidatesOf;
    hide FirstStampFault;
    hide CommitGuards;
    hide FirstEvidenceError;
    hide StoreEvidence;
    hide CandidateNames;
    hide EvidenceEffect;
    hide EvidenceDecision;
    hide RateHonest;
    ReachableRateHonest(c, s);
    EvidenceKeepsInv(c, s, u, now, stampNs, candidates);
    GuardsKnown(c, u.diagnostics);
    StampFaultDefined(c.input.requiredDiagnostics, u.diagnostics.guards, candidates, stampNs);
    CommitGuardsMoves(c.input.requiredDiagnostics, u.diagnostics.guards, candidates, stampNs);
    EvidenceErrorUsual(candidates);
    var guards := CommitGuards(u.diagnostics.guards, candidates, stampNs).value;
    var committed := u.(diagnostics := u.diagnostics.(guards := guards));
    MovedEvidence(c, s.diagnostics, u.diagnostics, CandidateNames(candidates), guards, now, rosNow, stampNs);
    match FirstEvidenceError(candidates)
    case Some(error) =>
      RejectDiagnosticsEffect(c, s, committed, |candidates|,
        if error == UpstreamDiagnosticDuplicateValueKey then MarkLatched(error) else MarkTransient(error),
        now, rosNow, Some(stampNs));
    case None =>
      StoredEvidence(c, s.diagnostics, committed.diagnostics, candidates, now, rosNow, stampNs);
      EvaluateDiagnosticsEffect(
        c, s, committed.(diagnostics := committed.diagnostics.(observations :=
          StoreEvidence(u.diagnostics.observations, candidates, stampNs, now))), now, rosNow, Some(stampNs));
  }

  lemma ErasedEvidence(c: Contract, d: DiagnosticTrack, names: set<string>, now: int, rosNow: int,
                       stampNs: Option<int>)
    ensures EvidenceEffect(c, d, d.(observations := d.observations - names), now, rosNow, stampNs)
  {
    hide ClockDomainMatches;
  }

  lemma DiagnosticsChanges(c: Contract, s: State, now: int, rosNow: int, m: DiagnosticsMessage, gid: int,
                           publishers: seq<Endpoint>)
    requires Inv(c, s)
    ensures OnUpstreamDiagnostics(c, s, now, rosNow, m, gid, publishers).Success?
    ensures DiagnosticsEffect(c, s, OnUpstreamDiagnostics(c, s, now, rosNow, m, gid, publishers).value, now, rosNow,
                              StampToNanoseconds(m.stamp))
    ensures RequiredNamesIn(c.input.requiredDiagnostics, m.statuses) != {} ==>
              Settled(s.gateHistory, OnUpstreamDiagnostics(c, s, now, rosNow, m, gid, publishers).value)
  {
    DiagnosticCodes();
    hide Usual;
    hide RateCanBeLow;
    hide Inv;
    hide Decided;
    hide RejectDiagnostics;
    hide SourceFault;
    hide OnSourcedDiagnostics;
    hide Collect;
    hide CandidatesOf;
    hide DiagnosticsInv;
    hide EvidenceEffect;
    hide DiagnosticsEffect;
    hide Settled;
    hide RateHonest;
    hide StampToNanoseconds;
    DiagnosticsKeepsInv(c, s, now, rosNow, m, gid, publishers);
    InvHasDiagnostics(c, s);
    var required, at := c.input.requiredDiagnostics, StampToNanoseconds(m.stamp);
    var found := Collect(required, m.statuses);
    CollectSound(required, m.statuses);
    SourceFaultUsual(found.candidates, gid, publishers);
    var counted := s.(counters := s.counters.(diagnosticReceived := s.counters.diagnosticReceived + found.received));
    if found.duplicate.Some? {
      ErasedEvidence(c, s.diagnostics, {found.duplicate.value}, now, rosNow, at);
      var erased := counted.(diagnostics := s.diagnostics.(observations :=
        s.diagnostics.observations - {found.duplicate.value}));
      RejectDiagnosticsEffect(c, s, erased, 1, MarkLatched(DuplicateRequiredDiagnosticStatus), now, rosNow, at);
    } else if found.candidates == [] {
      NothingRequired(c, s, counted, now, rosNow, at);
    } else {
      EraseKeeps(c, s.diagnostics, CandidateNames(found.candidates));
      ErasedEvidence(c, s.diagnostics, CandidateNames(found.candidates), now, rosNow, at);
      var erased := counted.(diagnostics := s.diagnostics.(observations :=
        s.diagnostics.observations - CandidateNames(found.candidates)));
      match SourceFault(found.candidates, gid, publishers)
      case Some(event) => RejectDiagnosticsEffect(c, s, erased, |found.candidates|, event, now, rosNow, at);
      case None => SourcedEffect(c, s, erased, now, rosNow, m.stamp, found.candidates);
    }
  }

  lemma NothingRequired(c: Contract, s: State, t: State, now: int, rosNow: int, stampNs: Option<int>)
    requires t == s.(counters := t.counters) && SameOdometryCounts(s.counters, t.counters)
    ensures DiagnosticsEffect(c, s, t, now, rosNow, stampNs)
  {
    hide ClockDomainMatches;
  }

  lemma SourceFaultUsual(candidates: seq<Candidate>, gid: int, publishers: seq<Endpoint>)
    ensures var fault := SourceFault(candidates, gid, publishers);
            fault.Some? ==> IsFault(fault.value) && Usual(fault.value.reason)
  {
    hide MatchingNodes;
    hide CountNode;
  }

  // ----- timer -----

  ghost predicate TimerEffect(c: Contract, s: State, t: State, now: int, odometry: seq<string>, status: seq<string>) {
    && t == s.(gate := t.gate, publishers := ObservedPublishers(c, odometry, status),
               lastHealthObserved := t.lastHealthObserved, gateHistory := t.gateHistory)
    && t.gateHistory.lastTick == Some(now)
    && (t.gateHistory.evaluatedAt == s.gateHistory.evaluatedAt || t.gateHistory.evaluatedAt == now)
    && Decision(c, s.gateHistory, s.lastHealthObserved, t)
  }

  lemma TickGateOnly(c: Contract, s: State, now: int)
    requires RateHonest(c, s.odometry) && TickHealth(c, s, now).Success?
    ensures GateOnly(c, s, TickHealth(c, s, now).value, now)
  {
    hide MaybeAdvanceHealth;
    hide HealthReason;
    hide Seconds;
    hide RateHonest;
    hide Fault;
    hide Usual;
    hide RateCanBeLow;
    if s.gate.state != LatchedFault {
      HealthReasonUsual(c, s, now);
      var reason := HealthReason(c, s, now).value;
      if reason == InputHealthy {
        EvaluateGateOnly(c, s, now);
      } else {
        UsualTimeout();
        FaultGateOnly(c, s, MarkTransient(StartupTimeout), now);
        FaultGateOnly(c, s, MarkTransient(reason), now);
        StartingGateOnly(c, s, reason, now);
      }
    }
    hide GateOnly;
  }

  lemma UsualTimeout()
    ensures Usual(StartupTimeout)
  {
  }

  lemma StartingGateOnly(c: Contract, s: State, reason: Reason, now: int)
    requires Usual(reason)
    ensures s.gate.state == Starting ==> GateOnly(c, s, KeepStarting(c, s, reason), now)
  {
    hide Usual;
    hide RateCanBeLow;
    assert (s.gateHistory.calls + [MarkStarting(reason)])[..|s.gateHistory.calls|] == s.gateHistory.calls;
  }

  lemma TickFramed(c: Contract, s: State, seen: State, t: State, now: int, odometry: seq<string>, status: seq<string>)
    requires seen == s.(publishers := ObservedPublishers(c, odometry, status),
                        gateHistory := s.gateHistory.(lastTick := Some(now)))
    requires GateOnly(c, seen, t, now)
    ensures TimerEffect(c, s, t, now, odometry, status)
  {
    hide Ordinary;
    hide ObservedPublishers;
  }

  lemma TimerChanges(c: Contract, s: State, now: int, odometry: seq<string>, status: seq<string>)
    requires ValidContract(c) && Inv(c, s)
    ensures OnDiagnosticTimer(c, s, now, odometry, status).Success?
    ensures TimerEffect(c, s, OnDiagnosticTimer(c, s, now, odometry, status).value, now, odometry, status)
  {
    hide RateCanBeLow;
    hide ValidContract;
    hide Inv;
    hide Decided;
    hide ObservedPublishers;
    hide MaybeAdvanceHealth;
    hide HealthReason;
    hide Seconds;
    hide RateHonest;
    hide Fault;
    hide GateOnly;
    hide TimerEffect;
    hide KeepStarting;
    TimerKeepsInv(c, s, now, odometry, status);
    ReachableRateHonest(c, s);
    var seen := s.(publishers := ObservedPublishers(c, odometry, status),
                   gateHistory := s.gateHistory.(lastTick := Some(now)));
    if AuthorityFault(seen.publishers).Some? {
      var event := MarkLatched(AuthorityFault(seen.publishers).value);
      FaultGateOnly(c, seen, event, now);
      LatchFault(c, seen, event);
    } else {
      TickGateOnly(c, seen, now);
    }
    TickFramed(c, s, seen, OnDiagnosticTimer(c, s, now, odometry, status).value, now, odometry, status);
  }
}
