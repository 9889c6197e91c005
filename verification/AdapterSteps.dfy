/**
 The four callbacks of the node (adapter_node.cpp) as functions from state to state. A Failure is an exception that
 would leave the callback.
 */
module AdapterSteps {
  import opened Contracts
  import opened Reasons
  import opened RigidTransforms
  import opened Stamps
  import opened HealthGate
  import opened ContractConfig
  import opened OdometryValidation
  import opened AdapterState

  // ----- the gate -----

  predicate IsFault(event: GateEvent) {
    event.MarkTransient? || event.MarkLatched?
  }

  /** An accepted odometry stamp that is still valid and was not yet counted as a healthy sample. */
  predicate Pending(s: State) {
    s.odometry.valid && s.odometry.stampGuard != s.lastHealthObserved
  }

  function Fault(c: Contract, s: State, event: GateEvent): State
    requires IsFault(event)
  {
    s.(gate := Apply(c.health.recoveryConsecutiveSamples, s.gate, event),
       gateHistory := s.gateHistory.(calls := s.gateHistory.calls + [event],
                                     faultCommitted := |s.odometryHistory.committed|,
                                     faultAccepted := |s.odometryHistory.accepted|,
                                     faultObserved := |s.gateHistory.observed|,
                                     faultPending := Pending(s)))
  }

  function KeepStarting(c: Contract, s: State, reason: Reason): State {
    s.(gate := Apply(c.health.recoveryConsecutiveSamples, s.gate, MarkStarting(reason)),
       gateHistory := s.gateHistory.(calls := s.gateHistory.calls + [MarkStarting(reason)]))
  }

  function Observe(c: Contract, s: State): State
    requires s.odometry.stampGuard.Some?
  {
    s.(gate := Apply(c.health.recoveryConsecutiveSamples, s.gate, ObserveHealthySample),
       lastHealthObserved := s.odometry.stampGuard,
       gateHistory := s.gateHistory.(calls := s.gateHistory.calls + [ObserveHealthySample],
                                     observed := s.gateHistory.observed + [s.odometry.stampGuard.value]))
  }

  // ----- the health predicate -----

  /** The first required diagnostic that is missing, too severe or too old. */
  function DiagnosticsReason(required: seq<RequiredDiagnostic>, observations: map<string, Observation>,
                             staleAfterSec: real, now: int): Reason
  {
    if required == [] then InputHealthy
    else
      var name := required[0].name;
      if name !in observations then WaitingForUpstreamDiagnostic
      else if observations[name].level > required[0].maximumLevel then UpstreamDiagnosticNotOk
      else if Seconds(now - observations[name].receivedAt) > staleAfterSec then UpstreamDiagnosticStale
      else DiagnosticsReason(required[1..], observations, staleAfterSec, now)
  }

  function PublishersReason(p: PublisherEvidence): Reason {
    if p.odometryCount == 0 then WaitingForOdometryPublisher
    else if p.odometryCount != 1 || !p.odometryIdentityValid then OdometryPublisherAuthorityInvalid
    else if p.statusCount == 0 then WaitingForTrackingStatusPublisher
    else if p.statusCount != 1 || !p.statusIdentityValid then TrackingStatusPublisherAuthorityInvalid
    else InputHealthy
  }

  /** Why the inputs are not healthy at the steady time now, or InputHealthy. */
  function HealthReason(c: Contract, s: State, now: int): Result<Reason> {
    var o, h := s.odometry, c.health;
    if PublishersReason(s.publishers) != InputHealthy then Success(PublishersReason(s.publishers))
    else if o.receivedAt.None? then
      if o.rateHz.None? && |o.window| > 0 then Success(WaitingForOdometryRateWindow)
      else if s.counters.received > 0 && !o.valid then Success(OdometryInvalid)
      else Success(WaitingForOdometry)
    else if s.status.receivedAt.None? then Success(WaitingForTrackingStatus)
    else if !o.valid then Success(OdometryInvalid)
    else if !s.status.valid then Success(TrackingStateNotAccepted)
    else if o.rateHz.None? then Success(WaitingForOdometryRateWindow)
    else if o.rateHz.value < h.minimumOdometryRateHz then Success(OdometryRateTooLow)
    else if o.maximumGapSec.None? || o.maximumGapSec.value > h.maximumOdometryStampGapSec then
      Success(OdometryStampGapExceeded)
    else if o.stampGuard.None? || s.status.stampGuard.None? then Success(WaitingForCrossStreamTimestamps)
    else
      var skew :- AbsoluteStampDifferenceSeconds(o.stampGuard.value, s.status.stampGuard.value);
      if skew > h.maximumStatusOdometrySkewSec then Success(OdometryStatusSkewExceeded)
      else if Seconds(now - o.receivedAt.value) > h.odometryStaleAfterSec then Success(OdometryStale)
      else if Seconds(now - s.status.receivedAt.value) > h.trackingStaleAfterSec then Success(TrackingStatusStale)
      else Success(DiagnosticsReason(c.input.requiredDiagnostics, s.diagnostics.observations,
                                     h.diagnosticStaleAfterSec, now))
  }

  function MaybeAdvanceHealth(c: Contract, s: State, now: int): Result<State> {
    if s.gate.state == LatchedFault then Success(s)
    else
      var reason :- HealthReason(c, s, now);
      var evaluated := s.(gateHistory := s.gateHistory.(evaluatedAt := now));
      if reason != InputHealthy then
        Success(if s.gate.state != Starting then Fault(c, evaluated, MarkTransient(reason)) else evaluated)
      else if s.odometry.stampGuard.None? || s.lastHealthObserved == s.odometry.stampGuard then Success(evaluated)
      else Success(Observe(c, evaluated))
  }

  /** The stamp is within the allowed residual of the ROS clock. */
  function ClockDomainMatches(c: Contract, rosNow: int, stampNs: int): Result<bool> {
    if rosNow <= 0 || stampNs <= 0 then Success(false)
    else
      var residual :- AbsoluteStampDifferenceSeconds(rosNow, stampNs);
      Success(residual <= c.health.maximumClockResidualSec)
  }

  // ----- odometry -----

  /** The last n stamps. */
  function LastStamps(stamps: seq<int>, n: nat): seq<int> {
    if |stamps| <= n then stamps else stamps[|stamps| - n..]
  }

  ghost function UpdateOdometryRate(c: Contract, o: OdometryTrack, stampNs: int): Result<OdometryTrack> {
    var window := LastStamps(o.window + [stampNs], c.health.odometryRateWindowSamples);
    if |window| < c.health.odometryRateWindowSamples then
      Success(o.(window := window, rateHz := None, maximumGapSec := None))
    else
      var metrics :- WindowMetrics(window);
      match metrics
      case None => Failure(BadOptionalAccess)
      case Some(m) => Success(o.(window := window, rateHz := Some(m.rateHz), maximumGapSec := Some(m.maximumGapSec)))
  }

  predicate ExceedsStep(h: HealthContract, step: PoseStep) {
    || step.translationSquared > h.maximumPositionStepM * h.maximumPositionStepM
    || step.halfAngleCosine < h.maximumRotationStepHalfCosine
  }

  function JumpDetected(c: Contract, previous: Option<RigidTransform>, pose: RigidTransform): Result<bool> {
    match previous
    case None => Success(false)
    case Some(p) =>
      var step :- MeasurePoseStep(p, pose);
      Success(ExceedsStep(c.health, step))
  }

  function RejectOdometry(c: Contract, s: State, event: GateEvent): State
    requires IsFault(event)
  {
    Fault(c, s.(odometry := s.odometry.(valid := false),
                counters := s.counters.(rejected := s.counters.rejected + 1)), event)
  }

  /** The shadow base pose, when the extrinsic is approved; None when the conversion would throw. */
  function ShadowPose(c: Contract, pose: RigidTransform): Option<RigidTransform>
    requires c.extrinsic.IsApproved()
  {
    match CameraPoseToBasePose(pose, c.extrinsic.transform.value)
    case Success(base) => Some(base)
    case Failure(_) => None
  }

  function LastIndex(stamps: seq<int>): nat {
    if stamps == [] then 0 else |stamps| - 1
  }

  /** The books after an acceptance: guard, pose, validity, receipt and counters. */
  function RecordAccepted(s: State, now: int, stampNs: int, guard: Option<int>, pose: RigidTransform): State {
    s.(odometry := s.odometry.(stampGuard := guard, inputPose := Some(pose), valid := true, receivedAt := Some(now)),
       counters := s.counters.(accepted := s.counters.accepted + 1, shadowProcessed := s.counters.shadowProcessed + 1),
       odometryHistory := s.odometryHistory.(accepted := s.odometryHistory.accepted +
         [Accepted(stampNs, LastIndex(s.odometryHistory.committed), pose)]))
  }

  function RecordShadow(s: State, base: RigidTransform): State {
    s.(odometry := s.odometry.(shadowPose := Some(base)),
       counters := s.counters.(shadowPoseComputed := s.counters.shadowPoseComputed + 1))
  }

  function AcceptOdometry(c: Contract, s: State, now: int, stampNs: int, pose: RigidTransform): Result<State> {
    var guard :- CommitStamp(s.odometry.stampGuard, stampNs);
    var accepted := RecordAccepted(s, now, stampNs, guard, pose);
    if c.extrinsic.IsApproved() then
      match ShadowPose(c, pose)
      case None => Success(RejectOdometry(c, accepted, MarkLatched(ShadowPoseTransformFailed)))
      case Some(base) => MaybeAdvanceHealth(c, RecordShadow(accepted, base), now)
    else MaybeAdvanceHealth(c, accepted, now)
  }

  /** Rate, gap and receive-gap judgement of a committed sample that did not jump. */
  function JudgeTiming(c: Contract, s: State, now: int, stampNs: int, pose: RigidTransform,
                       stampGapValid: bool, receiveGapValid: bool): Result<State>
  {
    if s.odometry.rateHz.None? then Success(s.(odometry := s.odometry.(valid := false)))
    else
      var rateValid := s.odometry.rateHz.value >= c.health.minimumOdometryRateHz;
      var rated := if rateValid then s
                   else s.(counters := s.counters.(rateViolation := s.counters.rateViolation + 1));
      var limit, gap := c.health.maximumOdometryStampGapSec, s.odometry.maximumGapSec;
      if !stampGapValid || !receiveGapValid || !rateValid || (gap.Some? && gap.value > limit) then
        if stampGapValid && gap.None? then Failure(BadOptionalAccess)
        else
          Success(RejectOdometry(c, rated, MarkTransient(
            if !stampGapValid || gap.value > limit then OdometryStampGapExceeded
            else if !receiveGapValid then OdometryReceiveGapExceeded
            else OdometryRateTooLow)))
      else AcceptOdometry(c, rated, now, stampNs, pose)
  }

  /** What follows the commit of a sample to the sequence guard and the window. */
  function JudgeOdometry(c: Contract, s: State, now: int, m: OdometryMessage, stampNs: int,
                         stampGapValid: bool, receiveGapValid: bool): Result<State>
  {
    match Create(m.parentFrame, m.childFrame, m.position, m.orientation)
    case Failure(_) => Success(RejectOdometry(c, s, MarkLatched(InputPoseConstructionFailed)))
    case Success(pose) =>
      var jumped :- JumpDetected(c, s.odometry.inputPose, pose);
      if jumped then
        Success(RejectOdometry(
          c, s.(counters := s.counters.(poseJumpViolation := s.counters.poseJumpViolation + 1)),
          MarkLatched(LocalizationEpochJumpDetected)))
      else JudgeTiming(c, s, now, stampNs, pose, stampGapValid, receiveGapValid)
  }

  predicate ReceiveGapValid(c: Contract, o: OdometryTrack, now: int) {
    o.observedAt.Some? ==> Seconds(now - o.observedAt.value) <= c.health.maximumOdometryReceiveGapSec
  }

  function StampGapValid(c: Contract, previous: Option<int>, stampNs: int): Result<bool> {
    if previous.None? then Success(true)
    else
      var gap :- AbsoluteStampDifferenceSeconds(stampNs, previous.value);
      Success(gap <= c.health.maximumOdometryStampGapSec)
  }

  /** The sample enters the sequence guard, the window and the gap bookkeeping. */
  ghost function CommitOdometry(c: Contract, s: State, now: int, stampNs: int): Result<State> {
    var guard :- CommitStamp(s.odometry.sequenceGuard, stampNs);
    var track :- UpdateOdometryRate(c, s.odometry.(sequenceGuard := guard), stampNs);
    var stampGapValid :- StampGapValid(c, s.odometry.sequenceGuard, stampNs);
    Success(s.(
      odometry := track.(observedAt := Some(now)),
      counters := s.counters.(
        receiveGapViolation := s.counters.receiveGapViolation + (if ReceiveGapValid(c, s.odometry, now) then 0 else 1),
        stampGapViolation := s.counters.stampGapViolation + (if stampGapValid then 0 else 1)),
      odometryHistory := s.odometryHistory.(committed := s.odometryHistory.committed + [stampNs])))
  }

  ghost function OnValidOdometry(c: Contract, s: State, now: int, rosNow: int, m: OdometryMessage, stampNs: int)
    : Result<State>
  {
    var order :- StampOrderAfter(s.odometry.sequenceGuard, stampNs);
    match order
    case Duplicate =>
      Success(RejectOdometry(c, s.(counters := s.counters.(duplicate := s.counters.duplicate + 1)),
                             MarkTransient(DuplicateTimestamp)))
    case Nonmonotonic =>
      Success(RejectOdometry(c, s.(counters := s.counters.(nonmonotonic := s.counters.nonmonotonic + 1)),
                             MarkLatched(NonmonotonicTimestamp)))
    case Accept =>
      var clockValid :- ClockDomainMatches(c, rosNow, stampNs);
      if !clockValid then
        Success(RejectOdometry(
          c, s.(counters := s.counters.(clockDomainMismatch := s.counters.clockDomainMismatch + 1)),
          MarkTransient(OdometryClockDomainMismatch)))
      else
        var committed :- CommitOdometry(c, s, now, stampNs);
        var stampGapValid :- StampGapValid(c, s.odometry.sequenceGuard, stampNs);
        JudgeOdometry(c, committed, now, m, stampNs, stampGapValid, ReceiveGapValid(c, s.odometry, now))
  }

  ghost function OnOdometry(c: Contract, s: State, now: int, rosNow: int, m: OdometryMessage): Result<State> {
    var counted := s.(counters := s.counters.(received := s.counters.received + 1));
    var stampNs := StampToNanoseconds(m.stamp).GetOr(0);
    var issues :- ValidatedIssues(m, stampNs, c.input.expectedParentFrame, c.input.expectedChildFrame);
    if issues != [] then
      SampleVerdict(m, stampNs, c.input.expectedParentFrame, c.input.expectedChildFrame);
      Success(RejectOdometry(c, counted, IssueEvent(issues)))
    else OnValidOdometry(c, counted, now, rosNow, m, stampNs)
  }

  // ----- tracking status -----

  function RejectStatus(c: Contract, s: State, event: GateEvent): State
    requires IsFault(event)
  {
    Fault(c, s.(status := s.status.(valid := false),
                counters := s.counters.(statusRejected := s.counters.statusRejected + 1)), event)
  }

  predicate StatusWellFormed(c: Contract, m: StatusMessage) {
    && StampToNanoseconds(m.stamp).Some?
    && StampToNanoseconds(m.stamp).value > 0
    && m.frame == c.input.expectedStatusFrame
    && m.nodeCallbackExecutionTime.FiniteNonnegative()
    && m.trackExecutionTime.FiniteNonnegative()
    && m.trackExecutionTimeMean.FiniteNonnegative()
    && m.trackExecutionTimeMax.FiniteNonnegative()
  }

  /** The message enters the sequence guard; the state it reports decides whether it counts. */
  function CommitStatus(c: Contract, s: State, now: int, stampNs: int, accepted: bool): Result<State> {
    var sequence :- CommitStamp(s.status.sequenceGuard, stampNs);
    var committed := s.(status := s.status.(sequenceGuard := sequence, valid := accepted));
    if !accepted then Success(Fault(c, committed, MarkTransient(TrackingStateNotAccepted)))
    else
      var guard :- CommitStamp(s.status.stampGuard, stampNs);
      MaybeAdvanceHealth(
        c, committed.(status := committed.status.(stampGuard := guard, receivedAt := Some(now))), now)
  }

  function OnWellFormedStatus(c: Contract, s: State, now: int, rosNow: int, stampNs: int, accepted: bool)
    : Result<State>
  {
    var order :- StampOrderAfter(s.status.sequenceGuard, stampNs);
    match order
    case Duplicate =>
      Success(RejectStatus(c, s.(counters := s.counters.(statusDuplicate := s.counters.statusDuplicate + 1)),
                           MarkTransient(TrackingStatusDuplicateTimestamp)))
    case Nonmonotonic =>
      Success(RejectStatus(c, s.(counters := s.counters.(statusNonmonotonic := s.counters.statusNonmonotonic + 1)),
                           MarkLatched(TrackingStatusNonmonotonicTimestamp)))
    case Accept =>
      var clockValid :- ClockDomainMatches(c, rosNow, stampNs);
      if !clockValid then
        Success(RejectStatus(
          c, s.(counters := s.counters.(clockDomainMismatch := s.counters.clockDomainMismatch + 1)),
          MarkTransient(TrackingStatusClockDomainMismatch)))
      else CommitStatus(c, s, now, stampNs, accepted)
  }

  function OnVisualSlamStatus(c: Contract, s: State, now: int, rosNow: int, m: StatusMessage): Result<State> {
    var counted := s.(counters := s.counters.(statusReceived := s.counters.statusReceived + 1));
    if !StatusWellFormed(c, m) then Success(RejectStatus(c, counted, MarkTransient(TrackingStatusInvalid)))
    else
      OnWellFormedStatus(c, counted, now, rosNow, StampToNanoseconds(m.stamp).value,
                         m.voState in c.input.acceptedVoStates)
  }

  // ----- upstream diagnostics -----

  datatype Candidate = Candidate(status: DiagnosticStatus, required: RequiredDiagnostic)

  /** The required diagnostics found in a message, up to the first name that comes twice. */
  datatype Collected = Collected(candidates: seq<Candidate>, duplicate: Option<string>, received: nat)

  function FindRequired(required: seq<RequiredDiagnostic>, name: string): Option<RequiredDiagnostic> {
    if required == [] then None
    else if required[0].name == name then Some(required[0])
    else FindRequired(required[1..], name)
  }

  function CandidateNames(candidates: seq<Candidate>): set<string> {
    set i | 0 <= i < |candidates| :: candidates[i].status.name
  }

  function Collect(required: seq<RequiredDiagnostic>, statuses: seq<DiagnosticStatus>): Collected {
    if statuses == [] then Collected([], None, 0)
    else
      var before := Collect(required, statuses[..|statuses| - 1]);
      var status := statuses[|statuses| - 1];
      if before.duplicate.Some? then before
      else
        match FindRequired(required, status.name)
        case None => before
        case Some(r) =>
          if status.name in CandidateNames(before.candidates) then
            Collected(before.candidates, Some(status.name), before.received + 1)
          else Collected(before.candidates + [Candidate(status, r)], None, before.received + 1)
  }

  /** The nodes of the endpoints that carry the identifier of the message's publisher. */
  function MatchingNodes(publishers: seq<Endpoint>, gid: int): seq<string> {
    if publishers == [] then []
    else
      var before := MatchingNodes(publishers[..|publishers| - 1], gid);
      var last := publishers[|publishers| - 1];
      if last.gid == gid then before + [last.node] else before
  }

  function CountNode(publishers: seq<Endpoint>, node: string): nat {
    if publishers == [] then 0
    else CountNode(publishers[..|publishers| - 1], node) + (if publishers[|publishers| - 1].node == node then 1 else 0)
  }

  predicate AllExpect(candidates: seq<Candidate>, node: string) {
    forall i | 0 <= i < |candidates| :: candidates[i].required.expectedPublisher == node
  }

  /** Why the publisher of the message may not speak for the candidates, if so. */
  function SourceFault(candidates: seq<Candidate>, gid: int, publishers: seq<Endpoint>): Option<GateEvent> {
    var nodes := MatchingNodes(publishers, gid);
    if |nodes| > 1 then Some(MarkLatched(DiagnosticSourceGidNotUnique))
    else if |nodes| == 0 then Some(MarkTransient(DiagnosticSourceNotDiscovered))
    else if CountNode(publishers, nodes[0]) != 1 then Some(MarkLatched(DiagnosticPublisherNotUnique))
    else if !AllExpect(candidates, nodes[0]) then Some(MarkLatched(DiagnosticPublisherIdentityMismatch))
    else None
  }

  /** The order of the first candidate that its guard refuses, or Accept. */
  function FirstStampFault(guards: map<string, Option<int>>, candidates: seq<Candidate>, stampNs: int)
    : Result<StampOrder>
  {
    if candidates == [] then Success(Accept)
    else if candidates[0].required.name !in guards then Failure(OutOfRange)
    else
      var order :- StampOrderAfter(guards[candidates[0].required.name], stampNs);
      if order != Accept then Success(order) else FirstStampFault(guards, candidates[1..], stampNs)
  }

  function CommitGuards(guards: map<string, Option<int>>, candidates: seq<Candidate>, stampNs: int)
    : Result<map<string, Option<int>>>
    decreases |candidates|
  {
    if candidates == [] then Success(guards)
    else if candidates[0].required.name !in guards then Failure(OutOfRange)
    else
      var guard :- CommitStamp(guards[candidates[0].required.name], stampNs);
      CommitGuards(guards[candidates[0].required.name := guard], candidates[1..], stampNs)
  }

  ghost function FirstEvidenceError(candidates: seq<Candidate>): Option<Reason> {
    if candidates == [] then None
    else
      var status := candidates[0].status;
      var error := EvidenceError(candidates[0].required, status.level, status.hardwareId, status.values);
      if error.Some? then error else FirstEvidenceError(candidates[1..])
  }

  function StoreEvidence(observations: map<string, Observation>, candidates: seq<Candidate>, stampNs: int, now: int)
    : map<string, Observation>
    decreases |candidates|
  {
    if candidates == [] then observations
    else
      var status := candidates[0].status;
      StoreEvidence(observations[status.name := Observation(status.level, stampNs, now)], candidates[1..], stampNs, now)
  }

  function RejectDiagnostics(c: Contract, s: State, count: nat, event: GateEvent): State
    requires IsFault(event)
  {
    Fault(c, s.(counters := s.counters.(diagnosticRejected := s.counters.diagnosticRejected + count)), event)
  }

  /** Every guard accepts the stamp: the guards move, and the values decide whether they become evidence. */
  ghost function OnOrderedDiagnostics(c: Contract, s: State, now: int, stampNs: int, candidates: seq<Candidate>)
    : Result<State>
  {
    var guards :- CommitGuards(s.diagnostics.guards, candidates, stampNs);
    var committed := s.(diagnostics := s.diagnostics.(guards := guards));
    match FirstEvidenceError(candidates)
    case Some(error) =>
      Success(RejectDiagnostics(c, committed, |candidates|,
        if error == UpstreamDiagnosticDuplicateValueKey then MarkLatched(error) else MarkTransient(error)))
    case None =>
      MaybeAdvanceHealth(
        c, committed.(diagnostics := committed.diagnostics.(observations :=
          StoreEvidence(s.diagnostics.observations, candidates, stampNs, now))), now)
  }

  /** The message's publisher is the expected one: what its stamp and its values are worth. */
  ghost function OnSourcedDiagnostics(c: Contract, s: State, now: int, rosNow: int, stamp: Time,
                                      candidates: seq<Candidate>): Result<State>
  {
    var stampNs, n := StampToNanoseconds(stamp), |candidates|;
    if stampNs.None? || stampNs.value <= 0 then
      Success(RejectDiagnostics(c, s, n, MarkTransient(UpstreamDiagnosticTimestampInvalid)))
    else
      var clockValid :- ClockDomainMatches(c, rosNow, stampNs.value);
      if !clockValid then
        Success(RejectDiagnostics(
          c, s.(counters := s.counters.(clockDomainMismatch := s.counters.clockDomainMismatch + 1)), n,
          MarkTransient(UpstreamDiagnosticClockDomainMismatch)))
      else
        var order :- FirstStampFault(s.diagnostics.guards, candidates, stampNs.value);
        match order
        case Duplicate =>
          Success(RejectDiagnostics(
            c, s.(counters := s.counters.(diagnosticDuplicate := s.counters.diagnosticDuplicate + 1)), n,
            MarkTransient(UpstreamDiagnosticDuplicateTimestamp)))
        case Nonmonotonic =>
          Success(RejectDiagnostics(
            c, s.(counters := s.counters.(diagnosticNonmonotonic := s.counters.diagnosticNonmonotonic + 1)), n,
            MarkLatched(UpstreamDiagnosticNonmonotonicTimestamp)))
        case Accept => OnOrderedDiagnostics(c, s, now, stampNs.value, candidates)
  }

  ghost function OnUpstreamDiagnostics(c: Contract, s: State, now: int, rosNow: int, m: DiagnosticsMessage,
                                       gid: int, publishers: seq<Endpoint>): Result<State>
  {
    var found := Collect(c.input.requiredDiagnostics, m.statuses);
    var counted := s.(counters := s.counters.(diagnosticReceived := s.counters.diagnosticReceived + found.received));
    if found.duplicate.Some? then
      var erased := counted.(diagnostics := s.diagnostics.(observations :=
        s.diagnostics.observations - {found.duplicate.value}));
      Success(RejectDiagnostics(c, erased, 1, MarkLatched(DuplicateRequiredDiagnosticStatus)))
    else if found.candidates == [] then Success(counted)
    else
      var erased := counted.(diagnostics := s.diagnostics.(observations :=
        s.diagnostics.observations - CandidateNames(found.candidates)));
      match SourceFault(found.candidates, gid, publishers)
      case Some(event) => Success(RejectDiagnostics(c, erased, |found.candidates|, event))
      case None => OnSourcedDiagnostics(c, erased, now, rosNow, m.stamp, found.candidates)
  }

  // ----- the timer -----

  function ObservedPublishers(c: Contract, odometry: seq<string>, status: seq<string>): PublisherEvidence {
    PublisherEvidence(|odometry|, |odometry| == 1 && odometry[0] == c.input.expectedOdometryPublisher,
                      |status|, |status| == 1 && status[0] == c.input.expectedStatusPublisher)
  }

  function AuthorityFault(p: PublisherEvidence): Option<Reason> {
    if p.odometryCount > 1 then Some(OdometryPublisherNotUnique)
    else if p.odometryCount == 1 && !p.odometryIdentityValid then Some(OdometryPublisherIdentityMismatch)
    else if p.statusCount > 1 then Some(TrackingStatusPublisherNotUnique)
    else if p.statusCount == 1 && !p.statusIdentityValid then Some(TrackingStatusPublisherIdentityMismatch)
    else None
  }

  /** The evidence of a tick, and the latch when it shows the wrong publishers. */
  function CheckAuthority(c: Contract, s: State, now: int, odometry: seq<string>, status: seq<string>): State {
    var seen := s.(publishers := ObservedPublishers(c, odometry, status),
                   gateHistory := s.gateHistory.(lastTick := Some(now)));
    match AuthorityFault(seen.publishers)
    case Some(reason) => Fault(c, seen, MarkLatched(reason))
    case None => seen
  }

  function TickHealth(c: Contract, s: State, now: int): Result<State> {
    if s.gate.state == LatchedFault then Success(s)
    else
      var reason :- HealthReason(c, s, now);
      if reason == InputHealthy then MaybeAdvanceHealth(c, s, now)
      else if reason.Waiting() && Seconds(now - s.startedAt) <= c.health.startupTimeoutSec
              && s.gate.state == Starting then Success(KeepStarting(c, s, reason))
      else if reason.Waiting() && s.gate.state == Starting then Success(Fault(c, s, MarkTransient(StartupTimeout)))
      else Success(Fault(c, s, MarkTransient(reason)))
  }

  function OnDiagnosticTimer(c: Contract, s: State, now: int, odometry: seq<string>, status: seq<string>)
    : Result<State>
  {
    TickHealth(c, CheckAuthority(c, s, now, odometry, status), now)
  }

  // ----- runs -----

  ghost function Step(c: Contract, s: State, e: Event): Result<State> {
    match e.input
    case Odometry(m) => OnOdometry(c, s, e.now, e.rosNow, m)
    case Status(m) => OnVisualSlamStatus(c, s, e.now, e.rosNow, m)
    case Diagnostics(m, gid, publishers) => OnUpstreamDiagnostics(c, s, e.now, e.rosNow, m, gid, publishers)
    case Timer(odometry, status) => OnDiagnosticTimer(c, s, e.now, odometry, status)
  }

  /** The state after a sequence of callbacks on a fresh node. */
  ghost function Run(c: Contract, startedAt: int, events: seq<Event>): Result<State> {
    if events == [] then Success(InitialState(c, startedAt))
    else
      var before :- Run(c, startedAt, events[..|events| - 1]);
      Step(c, before, events[|events| - 1])
  }
}
