/** When an odometry sample is accepted, and what every other sample does, in terms of the message and the history. */
module OdometryVerdicts {
  import opened Contracts
  import opened Reasons
  import opened Geometry
  import opened RigidTransforms
  import opened Stamps
  import opened HealthGate
  import opened ContractConfig
  import opened OdometryValidation
  import opened AdapterState
  import opened AdapterSteps
  import opened AdapterInvariant
  import opened AdapterRuns
  import opened RunHealth
  import opened HealthVerdicts
  import opened StatusVerdicts

  // ----- the message on its own -----

  /** The first thing wrong with a message, whatever came before it. */
  function MessageFault(m: OdometryMessage): Option<GateEvent> {
    if m.parentFrame != "odom" then Some(MarkLatched(ParentFrameMismatch))
    else if m.childFrame != "camera_link" then Some(MarkLatched(ChildFrameMismatch))
    else if Nanoseconds(m.stamp) <= 0 then Some(MarkTransient(InvalidTimestamp))
    else if m.position.NonFiniteVector? || !m.velocitiesFinite then Some(MarkTransient(NonfiniteMeasurement))
    else if m.orientation.NonFinite? || m.orientation.norm - 1.0 > 0.001 || 1.0 - m.orientation.norm > 0.001 then
      Some(MarkTransient(InvalidQuaternion))
    else if !m.poseCovarianceValid then Some(MarkTransient(InvalidPoseCovariance))
    else if !m.twistCovarianceValid then Some(MarkTransient(InvalidTwistCovariance))
    else None
  }

  lemma CheckedFirst(issues: seq<ValidationIssue>, ok: bool, code: Reason, latched: bool)
    ensures issues != [] ==>
              Checked(issues, ok, code, latched) != [] && Checked(issues, ok, code, latched)[0] == issues[0]
    ensures issues == [] && !ok ==> Checked(issues, ok, code, latched) == [ValidationIssue(code, latched)]
    ensures issues == [] && ok ==> Checked(issues, ok, code, latched) == []
  {
  }

  lemma NormInRange(r: QuaternionReading)
    ensures Normalizable(r) <==> r.Finite? && r.norm - 1.0 <= 0.001 && 1.0 - r.norm <= 0.001
  {
    hide QuatDot;
  }

  lemma FramesNamed()
    ensures ODOM == "odom" && CAMERA == "camera_link"
  {
  }

  lemma FrameFault(m: OdometryMessage)
    ensures var issues := FrameIssues(m, ODOM, CAMERA);
            if m.parentFrame != "odom" then issues != [] && issues[0].code == ParentFrameMismatch
            else if m.childFrame != "camera_link" then issues != [] && issues[0].code == ChildFrameMismatch
            else issues == []
  {
    FramesNamed();
  }

  /** The first issue, and whether it latches. */
  lemma FirstIssue(m: OdometryMessage)
    ensures var issues := SampleIssues(m, Nanoseconds(m.stamp), ODOM, CAMERA);
            && (issues == [] <==> MessageFault(m) == None)
            && (issues != [] ==> MessageFault(m) == Some(IssueEvent(issues)))
  {
    var at := Nanoseconds(m.stamp);
    SampleVerdict(m, at, ODOM, CAMERA);
    NormInRange(m.orientation);
    FramesNamed();
    FrameFault(m);
    var frames := FrameIssues(m, ODOM, CAMERA);
    hide Normalizable;
    hide Checked;
    hide FrameIssues;
    hide IssueEvent;
    hide Nanoseconds;
    CheckedFirst(frames, at > 0, InvalidTimestamp, false);
    var stamped := Checked(frames, at > 0, InvalidTimestamp, false);
    CheckedFirst(stamped, m.Finite(), NonfiniteMeasurement, false);
    var finite := Checked(stamped, m.Finite(), NonfiniteMeasurement, false);
    CheckedFirst(finite, Normalizable(m.orientation), InvalidQuaternion, false);
    var oriented := Checked(finite, Normalizable(m.orientation), InvalidQuaternion, false);
    CheckedFirst(oriented, m.poseCovarianceValid, InvalidPoseCovariance, false);
    var posed := Checked(oriented, m.poseCovarianceValid, InvalidPoseCovariance, false);
    CheckedFirst(posed, m.twistCovarianceValid, InvalidTwistCovariance, false);
  }

  // ----- the message and what came before it -----

  /** The unit quaternion that points the way of a nonzero reading. */
  function MessageRotation(m: OdometryMessage): Quat
    requires m.orientation.Finite? && m.orientation.norm != 0.0
  {
    Normalized(m.orientation.q, m.orientation.norm)
  }

  /** Too far from a pose, or turned too far from it. */
  ghost predicate JumpsFrom(c: Contract, last: RigidTransform, position: Vec3, rotation: Quat) {
    || NormSquared(Sub(position, last.translation)) > c.health.maximumPositionStepM * c.health.maximumPositionStepM
    || TurnsFurther(last.rotation, rotation, c.health.maximumRotationStepHalfCosine)
  }

  /** The same from the last accepted pose. */
  ghost predicate Jumps(c: Contract, accepted: seq<Accepted>, position: Vec3, rotation: Quat) {
    accepted != [] && JumpsFrom(c, accepted[|accepted| - 1].pose, position, rotation)
  }

  /** Received too long after the sample before it. */
  predicate Late(c: Contract, previous: Option<int>, now: int) {
    previous.Some? && Longer(now - previous.value, c.health.maximumOdometryReceiveGapSec)
  }

  /** Two neighbouring stamps are too far apart. */
  ghost predicate LongGap(c: Contract, stamps: seq<int>) {
    exists i | 0 < i < |stamps| :: Longer(stamps[i] - stamps[i - 1], c.health.maximumOdometryStampGapSec)
  }

  /** Fewer intervals than the minimum rate asks for in the time they take. */
  predicate Slow(c: Contract, stamps: seq<int>) {
    |stamps| > 0 &&
    (|stamps| - 1) as real * 1_000_000_000.0 <
    c.health.minimumOdometryRateHz * (stamps[|stamps| - 1] - stamps[0]) as real
  }

  /** The last W of the committed stamps. */
  function Window(c: Contract, stamps: seq<int>): seq<int>
    requires |stamps| >= c.health.odometryRateWindowSamples
  {
    stamps[|stamps| - c.health.odometryRateWindowSamples..]
  }

  /** What is wrong with the timing, once there are W stamps. */
  ghost function TimingFault(c: Contract, stamps: seq<int>, late: bool): Option<GateEvent> {
    if |stamps| < c.health.odometryRateWindowSamples then None
    else if LongGap(c, Window(c, stamps)) then Some(MarkTransient(OdometryStampGapExceeded))
    else if late then Some(MarkTransient(OdometryReceiveGapExceeded))
    else if Slow(c, Window(c, stamps)) then Some(MarkTransient(OdometryRateTooLow))
    else None
  }

  /** The first thing wrong with a sample, given the history; None for one that is accepted or warms up the window. */
  ghost function SampleFault(c: Contract, h: OdometryHistory, previous: Option<int>, now: int, rosNow: int,
                             m: OdometryMessage): Option<GateEvent>
  {
    var at, last := Nanoseconds(m.stamp), LastStamp(h.committed);
    if MessageFault(m).Some? then MessageFault(m)
    else if last == Some(at) then Some(MarkTransient(DuplicateTimestamp))
    else if last.Some? && at < last.value then Some(MarkLatched(NonmonotonicTimestamp))
    else if !SameClock(c, rosNow, at) then Some(MarkTransient(OdometryClockDomainMismatch))
    else if Jumps(c, h.accepted, m.position.v, MessageRotation(m)) then
      Some(MarkLatched(LocalizationEpochJumpDetected))
    else TimingFault(c, h.committed + [at], Late(c, previous, now))
  }

  /** The stamp enters the stream: nothing is wrong with the message, its order or its clock. */
  predicate StampEnters(c: Contract, last: Option<int>, rosNow: int, m: OdometryMessage) {
    var at := Nanoseconds(m.stamp);
    MessageFault(m) == None && (last.None? || last.value < at) && SameClock(c, rosNow, at)
  }

  /** The sample is accepted: its stamp enters, completes or slides a full window, and nothing is wrong. */
  ghost predicate Accepts(c: Contract, h: OdometryHistory, previous: Option<int>, now: int, rosNow: int,
                          m: OdometryMessage)
  {
    && SampleFault(c, h, previous, now, rosNow, m) == None
    && |h.committed| + 1 >= c.health.odometryRateWindowSamples
  }

  // ----- the stages -----

  lemma SlowMeans(rate: real, span: real, n: real, minimum: real)
    requires span > 0.0 && rate * span == n
    ensures rate < minimum <==> n < minimum * span
  {
    assert Times(rate, span) == rate * span && Times(minimum, span) == minimum * span;
    hide Times;
    TimesOrdered(span, rate, minimum);
    TimesOrdered(span, minimum, rate);
  }

  lemma LongGapMeans(c: Contract, stamps: seq<int>)
    requires c.health.maximumOdometryStampGapSec >= 0.0
    ensures MaximumGap(stamps) > c.health.maximumOdometryStampGapSec <==> LongGap(c, stamps)
  {
    hide MaximumGap;
    MaximumGapBounds(stamps, c.health.maximumOdometryStampGapSec);
    forall i | 0 < i < |stamps|
      ensures Gap(stamps, i) > c.health.maximumOdometryStampGapSec <==>
              Longer(stamps[i] - stamps[i - 1], c.health.maximumOdometryStampGapSec)
    {
      SecondsMeans(stamps[i] - stamps[i - 1], c.health.maximumOdometryStampGapSec);
    }
    hide Gap;
    hide Longer;
  }

  lemma WindowSlow(c: Contract, stamps: seq<int>)
    requires |stamps| >= 2 && StrictlyIncreasing(stamps)
    ensures MeanRate(stamps) < c.health.minimumOdometryRateHz <==> Slow(c, stamps)
  {
    var span := (stamps[|stamps| - 1] - stamps[0]) as real;
    assert span > 0.0;
    RateIsMean(stamps);
    hide MeanRate;
    hide StrictlyIncreasing;
    SlowMeans(MeanRate(stamps), span, (|stamps| - 1) as real * 1_000_000_000.0, c.health.minimumOdometryRateHz);
  }

  /** The cached metrics of a full window decide as the committed stamps do. */
  lemma WindowVerdict(c: Contract, o: OdometryTrack, h: OdometryHistory)
    requires ValidContract(c) && WindowInv(c, o, h)
    ensures |h.committed| < c.health.odometryRateWindowSamples ==> o.rateHz == None && o.maximumGapSec == None
    ensures |h.committed| >= c.health.odometryRateWindowSamples ==>
              && o.rateHz.Some? && o.maximumGapSec.Some?
              && (o.rateHz.value < c.health.minimumOdometryRateHz <==> Slow(c, Window(c, h.committed)))
              && (o.maximumGapSec.value > c.health.maximumOdometryStampGapSec <==> LongGap(c, Window(c, h.committed)))
  {
    PositiveLimits(c);
    hide ValidContract;
    SuffixIncreasing(h.committed, c.health.odometryRateWindowSamples);
    hide MeanRate;
    hide MaximumGap;
    hide Slow;
    hide LongGap;
    if |h.committed| >= c.health.odometryRateWindowSamples {
      assert o.window == Window(c, h.committed);
      hide LastStamps;
      WindowSlow(c, o.window);
      LongGapMeans(c, o.window);
    }
    hide StrictlyIncreasing;
    hide Positive;
  }

  function Rated(s: State, slow: bool): State {
    if slow then s.(counters := s.counters.(rateViolation := s.counters.rateViolation + 1)) else s
  }

  /** The judgement of the timing, after the commit. */
  lemma TimingVerdict(c: Contract, s: State, now: int, at: int, pose: RigidTransform, gapValid: bool, inTime: bool)
    requires ValidContract(c) && WindowInv(c, s.odometry, s.odometryHistory)
    requires var n := |s.odometryHistory.committed|;
             gapValid <==> n < 2 || !Longer(s.odometryHistory.committed[n - 1] - s.odometryHistory.committed[n - 2],
                                            c.health.maximumOdometryStampGapSec)
    ensures var stamps := s.odometryHistory.committed;
            var fault := TimingFault(c, stamps, !inTime);
            JudgeTiming(c, s, now, at, pose, gapValid, inTime) ==
            if |stamps| < c.health.odometryRateWindowSamples then Success(s.(odometry := s.odometry.(valid := false)))
            else if fault.Some? then Success(RejectOdometry(c, Rated(s, Slow(c, Window(c, stamps))), fault.value))
            else AcceptOdometry(c, s, now, at, pose)
  {
    PositiveLimits(c);
    WindowVerdict(c, s.odometry, s.odometryHistory);
    var stamps := s.odometryHistory.committed;
    var n := |stamps|;
    if n >= c.health.odometryRateWindowSamples && !gapValid {
      var w := Window(c, stamps);
      assert w[|w| - 1] == stamps[n - 1] && w[|w| - 2] == stamps[n - 2];
      assert LongGap(c, w);
    }
    hide ValidContract;
    hide WindowInv;
    hide Slow;
    hide LongGap;
    hide Window;
    hide RejectOdometry;
    hide AcceptOdometry;
  }

  /** Two poses of the same frames: a jump is a step that is too long or turns too far. */
  lemma JumpMeans(c: Contract, previous: RigidTransform, pose: RigidTransform)
    requires c.health.maximumRotationStepHalfCosine >= 0.0
    requires previous.parent == pose.parent && previous.child == pose.child
    ensures JumpDetected(c, Some(previous), pose) ==
            Success(JumpsFrom(c, previous, pose.translation, pose.rotation))
  {
    hide MeasurePoseStep;
    hide TurnsFurther;
    hide NormSquared;
    hide Sub;
    hide Unit;
    hide ValidFrameId;
    StepMeasures(previous, pose, c.health.maximumRotationStepHalfCosine);
  }

  lemma NothingToJumpFrom(c: Contract, pose: RigidTransform)
    ensures JumpDetected(c, None, pose) == Success(false)
  {
  }

  lemma JumpVerdict(c: Contract, s: State, pose: RigidTransform)
    requires ValidContract(c) && Open(c, s) && IsCameraPose(pose)
    ensures JumpDetected(c, s.odometry.inputPose, pose) ==
            Success(Jumps(c, s.odometryHistory.accepted, pose.translation, pose.rotation))
  {
    hide ValidContract;
    hide Open;
    hide JumpsFrom;
    hide JumpDetected;
    hide Unit;
    hide ValidFrameId;
    PositiveLimits(c);
    LastPose(c, s);
    NothingToJumpFrom(c, pose);
    if s.odometry.inputPose.Some? {
      JumpMeans(c, s.odometry.inputPose.value, pose);
    }
  }

  lemma LastPose(c: Contract, s: State)
    requires Open(c, s)
    ensures s.odometry.inputPose.Some? <==> s.odometryHistory.accepted != []
    ensures s.odometry.inputPose.Some? ==>
              && IsCameraPose(s.odometry.inputPose.value)
              && s.odometry.inputPose.value == s.odometryHistory.accepted[|s.odometryHistory.accepted| - 1].pose
  {
    if s.odometry.inputPose.Some? {
      AcceptedPosesAreCameraPoses(c, s);
    }
    hide WindowInv;
    hide AcceptedSampleInv;
    hide StepWithin;
    hide StatusInv;
    hide DiagnosticsInv;
    hide ObservedInv;
    hide FaultInv;
    hide Replay;
    hide IsCameraPose;
  }

  predicate GapBefore(c: Contract, committed: seq<int>, at: int) {
    committed != [] && Longer(at - committed[|committed| - 1], c.health.maximumOdometryStampGapSec)
  }

  /** What entering the stream does, whatever is decided about the sample. */
  ghost predicate Entered(c: Contract, s: State, u: State, now: int, at: int) {
    && u == s.(odometry := u.odometry, odometryHistory := u.odometryHistory, counters := u.counters)
    && u.odometryHistory == s.odometryHistory.(committed := s.odometryHistory.committed + [at])
    && u.odometry == s.odometry.(sequenceGuard := Some(at), observedAt := Some(now), window := u.odometry.window,
                                 rateHz := u.odometry.rateHz, maximumGapSec := u.odometry.maximumGapSec)
    && u.counters == s.counters.(
         receiveGapViolation := s.counters.receiveGapViolation + (if Late(c, s.odometry.observedAt, now) then 1 else 0),
         stampGapViolation := s.counters.stampGapViolation +
                              (if GapBefore(c, s.odometryHistory.committed, at) then 1 else 0))
  }

  lemma GuardOfStream(c: Contract, s: State)
    requires Open(c, s)
    ensures s.odometry.sequenceGuard == LastStamp(s.odometryHistory.committed)
    ensures s.odometry.sequenceGuard.Some? ==> s.odometry.sequenceGuard.value > 0
    ensures WindowInv(c, s.odometry, s.odometryHistory)
  {
    hide AcceptedInv;
    hide StatusInv;
    hide DiagnosticsInv;
    hide ObservedInv;
    hide FaultInv;
    hide Replay;
    hide MeanRate;
    hide MaximumGap;
  }

  lemma ReceiptVerdict(c: Contract, o: OdometryTrack, now: int)
    ensures ReceiveGapValid(c, o, now) <==> !Late(c, o.observedAt, now)
  {
    if o.observedAt.Some? {
      SecondsMeans(now - o.observedAt.value, c.health.maximumOdometryReceiveGapSec);
    }
    hide Seconds;
    hide Longer;
  }

  lemma StampGapVerdict(c: Contract, committed: seq<int>, at: int)
    requires at > 0 && (committed != [] ==> 0 < committed[|committed| - 1] < at)
    ensures StampGapValid(c, LastStamp(committed), at) == Success(!GapBefore(c, committed, at))
  {
    if committed != [] {
      SecondsMeans(at - committed[|committed| - 1], c.health.maximumOdometryStampGapSec);
    }
    hide Seconds;
    hide Longer;
  }

  lemma CommitVerdict(c: Contract, s: State, now: int, at: int)
    requires ValidContract(c) && Open(c, s)
    requires StampOrderAfter(s.odometry.sequenceGuard, at) == Success(Accept)
    ensures StampGapValid(c, s.odometry.sequenceGuard, at) == Success(!GapBefore(c, s.odometryHistory.committed, at))
    ensures CommitOdometry(c, s, now, at).Success? && Entered(c, s, CommitOdometry(c, s, now, at).value, now, at)
    ensures var u := CommitOdometry(c, s, now, at).value; WindowInv(c, u.odometry, u.odometryHistory)
  {
    GuardOfStream(c, s);
    CommitKeepsWindow(c, s, now, at);
    StampGapVerdict(c, s.odometryHistory.committed, at);
    ReceiptVerdict(c, s.odometry, now);
    hide ValidContract;
    hide Open;
    hide WindowInv;
    hide GapBefore;
    hide Late;
    hide StampGapValid;
    hide ReceiveGapValid;
    hide UpdateOdometryRate;
    hide LastStamp;
  }

  /** After the commit: the jump check, the warm-up, and the timing. */
  ghost function Judged(c: Contract, u: State, now: int, at: int, pose: RigidTransform, late: bool): Result<State> {
    var stamps := u.odometryHistory.committed;
    var fault := TimingFault(c, stamps, late);
    if Jumps(c, u.odometryHistory.accepted, pose.translation, pose.rotation) then
      Success(RejectOdometry(
        c, u.(counters := u.counters.(poseJumpViolation := u.counters.poseJumpViolation + 1)),
        MarkLatched(LocalizationEpochJumpDetected)))
    else if |stamps| < c.health.odometryRateWindowSamples then Success(u.(odometry := u.odometry.(valid := false)))
    else if fault.Some? then Success(RejectOdometry(c, Rated(u, Slow(c, Window(c, stamps))), fault.value))
    else AcceptOdometry(c, u, now, at, pose)
  }

  lemma JudgedVerdict(c: Contract, u: State, now: int, m: OdometryMessage, at: int, pose: RigidTransform,
                      gapValid: bool, late: bool)
    requires ValidContract(c) && Open(c, u) && IsCameraPose(pose)
    requires Create(m.parentFrame, m.childFrame, m.position, m.orientation) == Success(pose)
    requires var stamps := u.odometryHistory.committed;
             var n := |stamps|;
             gapValid <==> n < 2 || !Longer(stamps[n - 1] - stamps[n - 2], c.health.maximumOdometryStampGapSec)
    ensures JudgeOdometry(c, u, now, m, at, gapValid, !late) == Judged(c, u, now, at, pose, late)
  {
    hide ValidContract;
    hide Open;
    hide WindowInv;
    hide Jumps;
    hide TimingFault;
    hide JumpDetected;
    hide JudgeTiming;
    hide Create;
    hide RejectOdometry;
    hide AcceptOdometry;
    hide Slow;
    hide Window;
    hide Longer;
    JumpVerdict(c, u, pose);
    GuardOfStream(c, u);
    TimingVerdict(c, u, now, at, pose, gapValid, !late);
  }

  /** A sample whose message is in order is judged so. */
  lemma EnteredVerdict(c: Contract, s: State, now: int, m: OdometryMessage, at: int, u: State)
    requires ValidContract(c) && JustCommitted(c, u, at) && Entered(c, s, u, now, at)
    requires MessageFault(m) == None
    ensures IsCameraPose(MessagePose(m))
    ensures JudgeOdometry(c, u, now, m, at, !GapBefore(c, s.odometryHistory.committed, at),
                          !Late(c, s.odometry.observedAt, now)) ==
            Judged(c, u, now, at, MessagePose(m), Late(c, s.odometry.observedAt, now))
  {
    hide *;
    PoseOfMessage(m);
    PoseIs(m);
    JustCommittedOpen(c, u, at);
    GapAtEnd(c, s, u, now, at);
    JudgedVerdict(c, u, now, m, at, MessagePose(m), !GapBefore(c, s.odometryHistory.committed, at),
                  Late(c, s.odometry.observedAt, now));
  }

  lemma PoseIs(m: OdometryMessage)
    requires MessageFault(m) == None
    ensures Create(m.parentFrame, m.childFrame, m.position, m.orientation) == Success(MessagePose(m))
  {
    PoseOfMessage(m);
    hide MessageFault;
    hide Create;
    hide MessageRotation;
  }

  lemma JustCommittedOpen(c: Contract, u: State, at: int)
    requires JustCommitted(c, u, at)
    ensures Open(c, u)
  {
    hide Open;
    hide MarkedInv;
    hide CommittedCount;
  }

  lemma GapAtEnd(c: Contract, s: State, u: State, now: int, at: int)
    requires Entered(c, s, u, now, at)
    ensures var n := |u.odometryHistory.committed|;
            !GapBefore(c, s.odometryHistory.committed, at) <==>
            n < 2 || !Longer(u.odometryHistory.committed[n - 1] - u.odometryHistory.committed[n - 2],
                             c.health.maximumOdometryStampGapSec)
  {
    hide Late;
    hide Longer;
  }

  /** The pose that the code makes of a message with nothing wrong. */
  function MessagePose(m: OdometryMessage): RigidTransform
    requires MessageFault(m) == None
  {
    PoseOfMessage(m);
    hide MessageFault;
    Create(m.parentFrame, m.childFrame, m.position, m.orientation).value
  }

  lemma PoseOfMessage(m: OdometryMessage)
    requires MessageFault(m) == None
    ensures m.orientation.Finite? && m.orientation.norm != 0.0 && m.position.FiniteVector?
    ensures var r := Create(m.parentFrame, m.childFrame, m.position, m.orientation);
            && r.Success? && IsCameraPose(r.value)
            && r.value.translation == m.position.v && r.value.rotation == MessageRotation(m)
            && Rescales(r.value.rotation, m.orientation.norm, m.orientation.q)
  {
    NormInRange(m.orientation);
    FramesDiffer();
    FramesNamed();
    hide ValidFrameId;
    hide Rescales;
    hide Nanoseconds;
    hide QuatDot;
    hide Unit;
    hide Normalizable;
  }

  // ----- the callback -----

  function Counted(s: State): State {
    s.(counters := s.counters.(received := s.counters.received + 1))
  }

  /** The callback as far as the gate and the books of a rejection: what is decided, and where. */
  ghost predicate Decides(c: Contract, s: State, r: Result<State>, now: int, rosNow: int, m: OdometryMessage) {
    var at, last, k := Nanoseconds(m.stamp), LastStamp(s.odometryHistory.committed), Counted(s);
    var n := k.counters;
    if MessageFault(m).Some? then
      r == Success(RejectOdometry(c, k, MessageFault(m).value))
    else if last == Some(at) then
      r == Success(RejectOdometry(c, k.(counters := n.(duplicate := n.duplicate + 1)),
                                  MarkTransient(DuplicateTimestamp)))
    else if last.Some? && at < last.value then
      r == Success(RejectOdometry(c, k.(counters := n.(nonmonotonic := n.nonmonotonic + 1)),
                                  MarkLatched(NonmonotonicTimestamp)))
    else if !SameClock(c, rosNow, at) then
      r == Success(RejectOdometry(c, k.(counters := n.(clockDomainMismatch := n.clockDomainMismatch + 1)),
                                  MarkTransient(OdometryClockDomainMismatch)))
    else
      exists u ::
        && Entered(c, k, u, now, at) && WindowInv(c, u.odometry, u.odometryHistory)
        && r == Judged(c, u, now, at, MessagePose(m), Late(c, s.odometry.observedAt, now))
        && StampOrderAfter(u.odometry.stampGuard, at) == Success(Accept)
  }

  lemma OrderOfSample(s: State, at: int)
    requires at > 0 && s.odometry.sequenceGuard == LastStamp(s.odometryHistory.committed)
    ensures var last := LastStamp(s.odometryHistory.committed);
            && StampOrderAfter(s.odometry.sequenceGuard, at).Success?
            && (last == Some(at) <==> StampOrderAfter(s.odometry.sequenceGuard, at) == Success(Duplicate))
            && (last.Some? && at < last.value <==>
                  StampOrderAfter(s.odometry.sequenceGuard, at) == Success(Nonmonotonic))
  {
    OrderOfStatus(s.odometry.sequenceGuard, at);
    hide LastStamp;
  }

  lemma InOrderDecides(c: Contract, s: State, now: int, rosNow: int, m: OdometryMessage)
    requires ValidContract(c) && Open(c, Counted(s)) && Uncounted(c, Counted(s))
    requires MarkedInv(c, Counted(s), |s.odometryHistory.committed|)
    requires MessageFault(m) == None && StampEnters(c, LastStamp(s.odometryHistory.committed), rosNow, m)
    ensures var at, k := Nanoseconds(m.stamp), Counted(s);
            var u := CommitOdometry(c, k, now, at);
            && u.Success? && Entered(c, k, u.value, now, at)
            && WindowInv(c, u.value.odometry, u.value.odometryHistory)
            && StampOrderAfter(u.value.odometry.stampGuard, at) == Success(Accept)
            && OnValidOdometry(c, k, now, rosNow, m, at) ==
               Judged(c, u.value, now, at, MessagePose(m), Late(c, s.odometry.observedAt, now))
  {
    var at, k := Nanoseconds(m.stamp), Counted(s);
    assert at > 0 && k.odometry == s.odometry && k.odometryHistory == s.odometryHistory;
    hide *;
    GuardOfStream(c, k);
    EntersInOrder(c, k, rosNow, m);
    SameClockMeans(c, rosNow, at);
    CommitVerdict(c, k, now, at);
    CommitKeepsInv(c, k, now, at);
    var u := CommitOdometry(c, k, now, at).value;
    EnteredVerdict(c, k, now, m, at, u);
    JustCommittedOrder(c, u, at);
    ReceiptVerdict(c, k.odometry, now);
    InOrderSteps(c, k, now, rosNow, m, at);
  }

  lemma EntersInOrder(c: Contract, s: State, rosNow: int, m: OdometryMessage)
    requires s.odometry.sequenceGuard == LastStamp(s.odometryHistory.committed)
    requires StampEnters(c, LastStamp(s.odometryHistory.committed), rosNow, m)
    ensures StampOrderAfter(s.odometry.sequenceGuard, Nanoseconds(m.stamp)) == Success(Accept)
    ensures SameClock(c, rosNow, Nanoseconds(m.stamp))
  {
    hide LastStamp;
    hide Nanoseconds;
    hide MessageFault;
    hide FurtherApart;
  }

  lemma JustCommittedOrder(c: Contract, u: State, at: int)
    requires JustCommitted(c, u, at)
    ensures StampOrderAfter(u.odometry.stampGuard, at) == Success(Accept)
  {
    hide Open;
    hide MarkedInv;
    hide CommittedCount;
  }

  lemma InOrderSteps(c: Contract, s: State, now: int, rosNow: int, m: OdometryMessage, at: int)
    requires StampOrderAfter(s.odometry.sequenceGuard, at) == Success(Accept)
    requires ClockDomainMatches(c, rosNow, at) == Success(true)
    requires CommitOdometry(c, s, now, at).Success? && StampGapValid(c, s.odometry.sequenceGuard, at).Success?
    ensures OnValidOdometry(c, s, now, rosNow, m, at) ==
            JudgeOdometry(c, CommitOdometry(c, s, now, at).value, now, m, at,
                          StampGapValid(c, s.odometry.sequenceGuard, at).value, ReceiveGapValid(c, s.odometry, now))
  {
    hide StampOrderAfter;
    hide ClockDomainMatches;
    hide CommitOdometry;
    hide StampGapValid;
    hide JudgeOdometry;
    hide ReceiveGapValid;
  }

  /** What OnValidOdometry does with a stamp that does not enter. */
  lemma OutOfOrderDecides(c: Contract, s: State, now: int, rosNow: int, m: OdometryMessage, at: int)
    requires ValidContract(c) && at > 0 && s.odometry.sequenceGuard == LastStamp(s.odometryHistory.committed)
    ensures var last, n, r := LastStamp(s.odometryHistory.committed), s.counters,
                              OnValidOdometry(c, s, now, rosNow, m, at);
            && (last == Some(at) ==>
                  r == Success(RejectOdometry(c, s.(counters := n.(duplicate := n.duplicate + 1)),
                                              MarkTransient(DuplicateTimestamp))))
            && (last.Some? && at < last.value ==>
                  r == Success(RejectOdometry(c, s.(counters := n.(nonmonotonic := n.nonmonotonic + 1)),
                                              MarkLatched(NonmonotonicTimestamp))))
            && ((last.None? || last.value < at) && !SameClock(c, rosNow, at) ==>
                  r == Success(RejectOdometry(c, s.(counters := n.(clockDomainMismatch := n.clockDomainMismatch + 1)),
                                              MarkTransient(OdometryClockDomainMismatch))))
  {
    hide ValidContract;
    hide LastStamp;
    hide StampOrderAfter;
    hide ClockDomainMatches;
    hide SameClock;
    hide CommitOdometry;
    hide JudgeOdometry;
    hide StampGapValid;
    hide ReceiveGapValid;
    hide RejectOdometry;
    OrderOfSample(s, at);
    SameClockMeans(c, rosNow, at);
  }

  lemma CallbackSteps(c: Contract, s: State, now: int, rosNow: int, m: OdometryMessage)
    requires ValidContract(c)
    ensures OnOdometry(c, s, now, rosNow, m) ==
            if MessageFault(m).Some? then Success(RejectOdometry(c, Counted(s), MessageFault(m).value))
            else OnValidOdometry(c, Counted(s), now, rosNow, m, Nanoseconds(m.stamp))
    ensures MessageFault(m) == None ==> Nanoseconds(m.stamp) > 0
  {
    hide ValidHealth;
    hide ValidExtrinsic;
    hide SampleIssues;
    hide IssueEvent;
    hide OnValidOdometry;
    hide RejectOdometry;
    hide StampToNanoseconds;
    hide Nanoseconds;
    hide ValidFrameId;
    FirstIssue(m);
    NanosecondsMeans(m.stamp);
    FramesDiffer();
  }

  lemma CallbackDecides(c: Contract, s: State, now: int, rosNow: int, m: OdometryMessage)
    requires ValidContract(c) && Inv(c, s)
    ensures Decides(c, s, OnOdometry(c, s, now, rosNow, m), now, rosNow, m)
  {
    hide ValidContract;
    hide Inv;
    hide Open;
    hide Uncounted;
    hide MarkedInv;
    hide OnOdometry;
    hide OnValidOdometry;
    hide RejectOdometry;
    hide Judged;
    hide Entered;
    hide WindowInv;
    hide SameClock;
    hide Nanoseconds;
    hide MessageFault;
    hide StampOrderAfter;
    hide LastStamp;
    hide MessagePose;
    hide Late;
    hide CommitOdometry;
    CallbackSteps(c, s, now, rosNow, m);
    ReceiveOpens(c, s);
    GuardOfStream(c, Counted(s));
    if MessageFault(m) == None {
      OutOfOrderDecides(c, Counted(s), now, rosNow, m, Nanoseconds(m.stamp));
      if StampEnters(c, LastStamp(s.odometryHistory.committed), rosNow, m) {
        InOrderDecides(c, s, now, rosNow, m);
        var u := CommitOdometry(c, Counted(s), now, Nanoseconds(m.stamp)).value;
        assert Entered(c, Counted(s), u, now, Nanoseconds(m.stamp));
      }
    }
  }

  // ----- everything that the callback does -----

  function One(b: bool): nat {
    if b then 1 else 0
  }

  /** All counters, from the fault, whether the stamp enters the stream, and whether the sample is accepted. */
  ghost function SampleCounters(c: Contract, s: State, now: int, at: int, fault: Option<GateEvent>, enters: bool,
                                accepts: bool): Counters
  {
    var n, stamps := s.counters, s.odometryHistory.committed + [at];
    var jumped := fault == Some(MarkLatched(LocalizationEpochJumpDetected));
    var timed := enters && !jumped && |stamps| >= c.health.odometryRateWindowSamples;
    n.(received := n.received + 1,
       accepted := n.accepted + One(accepts),
       rejected := n.rejected + One(fault.Some?),
       duplicate := n.duplicate + One(fault == Some(MarkTransient(DuplicateTimestamp))),
       nonmonotonic := n.nonmonotonic + One(fault == Some(MarkLatched(NonmonotonicTimestamp))),
       clockDomainMismatch := n.clockDomainMismatch + One(fault == Some(MarkTransient(OdometryClockDomainMismatch))),
       stampGapViolation := n.stampGapViolation + One(enters && GapBefore(c, s.odometryHistory.committed, at)),
       receiveGapViolation := n.receiveGapViolation + One(enters && Late(c, s.odometry.observedAt, now)),
       rateViolation := n.rateViolation + One(timed && Slow(c, Window(c, stamps))),
       poseJumpViolation := n.poseJumpViolation + One(enters && jumped),
       shadowProcessed := n.shadowProcessed + One(accepts),
       shadowPoseComputed := n.shadowPoseComputed + One(accepts && c.extrinsic.IsApproved()))
  }

  /** With an approved extrinsic the shadow pose is the one that, composed with it, gives the camera pose. */
  predicate ShadowOf(c: Contract, pose: RigidTransform, before: Option<RigidTransform>, after: Option<RigidTransform>) {
    if c.extrinsic.IsApproved() then
      after.Some? && Compose(after.value, c.extrinsic.transform.value) == Success(pose)
    else after == before
  }

  /** The fields that an accepted sample leaves. */
  ghost predicate AcceptedNow(c: Contract, s: State, t: State, now: int, m: OdometryMessage) {
    var at := Nanoseconds(m.stamp);
    MessageFault(m) == None &&
    var pose := MessagePose(m);
    && pose.parent == "odom" && pose.child == "camera_link" && pose.translation == m.position.v
    && Rescales(pose.rotation, m.orientation.norm, m.orientation.q)
    && t.odometryHistory.accepted == s.odometryHistory.accepted + [Accepted(at, |s.odometryHistory.committed|, pose)]
    && t.odometry.valid && t.odometry.stampGuard == Some(at) && t.odometry.receivedAt == Some(now)
    && t.odometry.inputPose == Some(pose) && ShadowOf(c, pose, s.odometry.shadowPose, t.odometry.shadowPose)
    && Evaluated(c, s.gate.state, s.gateHistory, s.lastHealthObserved, t, now)
  }

  /** The fields that any other sample leaves. */
  predicate NotAccepted(s: State, t: State, fault: Option<GateEvent>) {
    && t.odometryHistory.accepted == s.odometryHistory.accepted
    && !t.odometry.valid && t.odometry.stampGuard == s.odometry.stampGuard
    && t.odometry.receivedAt == s.odometry.receivedAt && t.odometry.inputPose == s.odometry.inputPose
    && t.odometry.shadowPose == s.odometry.shadowPose && t.lastHealthObserved == s.lastHealthObserved
    && Called(s.gateHistory.calls, t.gateHistory.calls, fault)
  }

  /** Everything that an odometry callback does. */
  ghost predicate OdometryJudged(c: Contract, s: State, t: State, now: int, rosNow: int, m: OdometryMessage) {
    var at, last := Nanoseconds(m.stamp), LastStamp(s.odometryHistory.committed);
    var fault := SampleFault(c, s.odometryHistory, s.odometry.observedAt, now, rosNow, m);
    var enters := StampEnters(c, last, rosNow, m);
    var accepts := Accepts(c, s.odometryHistory, s.odometry.observedAt, now, rosNow, m);
    && t == s.(gate := t.gate, odometry := t.odometry, lastHealthObserved := t.lastHealthObserved,
               counters := SampleCounters(c, s, now, at, fault, enters, accepts),
               odometryHistory := t.odometryHistory, gateHistory := t.gateHistory)
    && t.odometryHistory.committed ==
       (if enters then s.odometryHistory.committed + [at] else s.odometryHistory.committed)
    && t.odometry.sequenceGuard == (if enters then Some(at) else s.odometry.sequenceGuard)
    && t.odometry.observedAt == (if enters then Some(now) else s.odometry.observedAt)
    && if accepts then AcceptedNow(c, s, t, now, m) else NotAccepted(s, t, fault)
  }

  lemma RejectMeans(c: Contract, u: State, event: GateEvent)
    requires IsFault(event)
    ensures var t := RejectOdometry(c, u, event);
            && t == u.(gate := t.gate, odometry := u.odometry.(valid := false), gateHistory := t.gateHistory,
                       counters := u.counters.(rejected := u.counters.rejected + 1))
            && t.gateHistory.calls == u.gateHistory.calls + [event]
  {
    hide Apply;
  }

  lemma AcceptMeans(c: Contract, u: State, now: int, at: int, pose: RigidTransform)
    requires ValidContract(c) && IsCameraPose(pose)
    requires StampOrderAfter(u.odometry.stampGuard, at) == Success(Accept)
    requires AcceptOdometry(c, u, now, at, pose).Success?
    requires DataInv(c, AcceptOdometry(c, u, now, at, pose).value)
    ensures var t, w := AcceptOdometry(c, u, now, at, pose).value, WithAccepted(c, u, now, at, pose);
            && t == w.(gate := t.gate, lastHealthObserved := t.lastHealthObserved, gateHistory := t.gateHistory)
            && Evaluated(c, u.gate.state, u.gateHistory, u.lastHealthObserved, t, now)
  {
    AcceptIsEvaluation(c, u, now, at, pose);
    var w := WithAccepted(c, u, now, at, pose);
    assert w.gate == u.gate && w.gateHistory == u.gateHistory && w.lastHealthObserved == u.lastHealthObserved;
    hide *;
    EvaluationVerdictAfter(c, w, now);
  }

  /** A sample that never enters the stream. */
  lemma RefusedJudged(c: Contract, s: State, t: State, now: int, rosNow: int, m: OdometryMessage)
    requires Decides(c, s, Success(t), now, rosNow, m)
    requires !StampEnters(c, LastStamp(s.odometryHistory.committed), rosNow, m)
    ensures OdometryJudged(c, s, t, now, rosNow, m)
  {
    var fault := SampleFault(c, s.odometryHistory, s.odometry.observedAt, now, rosNow, m);
    hide Nanoseconds;
    hide LastStamp;
    hide SameClock;
    hide Jumps;
    hide TimingFault;
    hide Judged;
    hide Entered;
    hide WindowInv;
    hide RejectOdometry;
    hide AcceptedNow;
    hide GapBefore;
    hide Late;
    hide Slow;
    RefusedEarly(c, s, now, rosNow, m);
    hide MessageFault;
    var k := Counted(s);
    var n := k.counters;
    forall event: GateEvent, u: State | IsFault(event)
      ensures var v := RejectOdometry(c, u, event);
              && v == u.(gate := v.gate, odometry := u.odometry.(valid := false), gateHistory := v.gateHistory,
                         counters := u.counters.(rejected := u.counters.rejected + 1))
              && v.gateHistory.calls == u.gateHistory.calls + [event]
    {
      RejectMeans(c, u, event);
    }
  }

  lemma RefusedEarly(c: Contract, s: State, now: int, rosNow: int, m: OdometryMessage)
    requires !StampEnters(c, LastStamp(s.odometryHistory.committed), rosNow, m)
    ensures SampleFault(c, s.odometryHistory, s.odometry.observedAt, now, rosNow, m).Some?
    ensures MessageFault(m).Some? ==>
              && IsFault(MessageFault(m).value)
              && MessageFault(m) !in {Some(MarkTransient(DuplicateTimestamp)), Some(MarkLatched(NonmonotonicTimestamp)),
                                      Some(MarkTransient(OdometryClockDomainMismatch)),
                                      Some(MarkLatched(LocalizationEpochJumpDetected))}
  {
    hide Nanoseconds;
    hide LastStamp;
    hide SameClock;
    hide Jumps;
    hide TimingFault;
  }

  lemma EnteredFault(c: Contract, s: State, now: int, rosNow: int, m: OdometryMessage)
    requires StampEnters(c, LastStamp(s.odometryHistory.committed), rosNow, m)
    ensures MessageFault(m) == None && m.position.FiniteVector?
    ensures MessagePose(m).translation == m.position.v && MessagePose(m).rotation == MessageRotation(m)
    ensures SampleFault(c, s.odometryHistory, s.odometry.observedAt, now, rosNow, m) ==
            if Jumps(c, s.odometryHistory.accepted, MessagePose(m).translation, MessagePose(m).rotation) then
              Some(MarkLatched(LocalizationEpochJumpDetected))
            else TimingFault(c, s.odometryHistory.committed + [Nanoseconds(m.stamp)],
                             Late(c, s.odometry.observedAt, now))
  {
    PoseIs(m);
    PoseOfMessage(m);
    hide MessageFault;
    hide MessagePose;
    hide Create;
    hide Nanoseconds;
    hide LastStamp;
    hide SameClock;
    hide Jumps;
    hide TimingFault;
    hide Late;
  }

  lemma TimingFaultKinds(c: Contract, stamps: seq<int>, late: bool)
    ensures var fault := TimingFault(c, stamps, late);
            fault in {None, Some(MarkTransient(OdometryStampGapExceeded)),
                      Some(MarkTransient(OdometryReceiveGapExceeded)), Some(MarkTransient(OdometryRateTooLow))}
    ensures |stamps| < c.health.odometryRateWindowSamples ==> TimingFault(c, stamps, late) == None
  {
    hide LongGap;
    hide Slow;
    hide Window;
  }

  /** What the state after the commit has to do with the state before the callback. */
  lemma EnteredMeans(c: Contract, s: State, u: State, now: int, at: int)
    requires Entered(c, Counted(s), u, now, at)
    ensures u == s.(odometry := u.odometry, odometryHistory := u.odometryHistory, counters := u.counters)
    ensures u.odometryHistory.committed == s.odometryHistory.committed + [at]
    ensures u.odometryHistory.accepted == s.odometryHistory.accepted
    ensures LastIndex(u.odometryHistory.committed) == |s.odometryHistory.committed|
    ensures u.odometry.sequenceGuard == Some(at) && u.odometry.observedAt == Some(now)
    ensures u.odometry.stampGuard == s.odometry.stampGuard && u.odometry.receivedAt == s.odometry.receivedAt
    ensures u.odometry.inputPose == s.odometry.inputPose && u.odometry.shadowPose == s.odometry.shadowPose
    ensures u.counters == s.counters.(
              received := s.counters.received + 1,
              receiveGapViolation := s.counters.receiveGapViolation + One(Late(c, s.odometry.observedAt, now)),
              stampGapViolation := s.counters.stampGapViolation + One(GapBefore(c, s.odometryHistory.committed, at)))
  {
    hide Late;
    hide GapBefore;
  }

  /** A sample that enters the stream and is not accepted. */
  lemma EnteredRefusal(c: Contract, s: State, u: State, t: State, now: int, rosNow: int, m: OdometryMessage,
                       event: GateEvent, v: State)
    requires StampEnters(c, LastStamp(s.odometryHistory.committed), rosNow, m)
    requires Entered(c, Counted(s), u, now, Nanoseconds(m.stamp)) && IsFault(event)
    requires SampleFault(c, s.odometryHistory, s.odometry.observedAt, now, rosNow, m) == Some(event)
    requires event !in {MarkTransient(DuplicateTimestamp), MarkLatched(NonmonotonicTimestamp),
                        MarkTransient(OdometryClockDomainMismatch)}
    requires v == u.(counters := v.counters) && t == RejectOdometry(c, v, event)
    requires var jumped := event == MarkLatched(LocalizationEpochJumpDetected);
             var stamps := s.odometryHistory.committed + [Nanoseconds(m.stamp)];
             v.counters == u.counters.(
               poseJumpViolation := u.counters.poseJumpViolation + One(jumped),
               rateViolation := u.counters.rateViolation +
                 One(!jumped && |stamps| >= c.health.odometryRateWindowSamples && Slow(c, Window(c, stamps))))
    ensures OdometryJudged(c, s, t, now, rosNow, m)
  {
    hide Nanoseconds;
    hide LastStamp;
    hide SampleFault;
    hide StampEnters;
    hide AcceptedNow;
    hide GapBefore;
    hide Late;
    hide Slow;
    hide Window;
    hide RejectOdometry;
    EnteredMeans(c, s, u, now, Nanoseconds(m.stamp));
    hide Entered;
    RejectMeans(c, v, event);
  }

  /** One of the first W - 1 samples. */
  lemma WarmUpJudged(c: Contract, s: State, u: State, t: State, now: int, rosNow: int, m: OdometryMessage)
    requires StampEnters(c, LastStamp(s.odometryHistory.committed), rosNow, m)
    requires Entered(c, Counted(s), u, now, Nanoseconds(m.stamp))
    requires SampleFault(c, s.odometryHistory, s.odometry.observedAt, now, rosNow, m) == None
    requires |s.odometryHistory.committed| + 1 < c.health.odometryRateWindowSamples
    requires t == u.(odometry := u.odometry.(valid := false))
    ensures OdometryJudged(c, s, t, now, rosNow, m)
  {
    hide Nanoseconds;
    hide LastStamp;
    hide SampleFault;
    hide StampEnters;
    hide AcceptedNow;
    hide GapBefore;
    hide Late;
    hide Slow;
    hide Window;
    EnteredMeans(c, s, u, now, Nanoseconds(m.stamp));
    hide Entered;
  }

  lemma ShadowMeans(c: Contract, u: State, now: int, at: int, pose: RigidTransform)
    requires ValidContract(c) && IsCameraPose(pose)
    ensures ShadowOf(c, pose, u.odometry.shadowPose, WithAccepted(c, u, now, at, pose).odometry.shadowPose)
  {
    hide ValidInput;
    hide ValidHealth;
    hide CameraPoseToBasePose;
    hide Compose;
    if c.extrinsic.IsApproved() {
      CameraPoseRoundTrip(pose, c.extrinsic.transform.value);
    }
  }

  lemma WithAcceptedMeans(c: Contract, u: State, now: int, at: int, pose: RigidTransform)
    ensures var w, n := WithAccepted(c, u, now, at, pose), u.counters;
            && w == u.(odometry := w.odometry, odometryHistory := w.odometryHistory, counters := w.counters)
            && w.odometryHistory.committed == u.odometryHistory.committed
            && w.odometryHistory.accepted == u.odometryHistory.accepted +
                                             [Accepted(at, LastIndex(u.odometryHistory.committed), pose)]
            && w.odometry.valid && w.odometry.stampGuard == Some(at) && w.odometry.receivedAt == Some(now)
            && w.odometry.inputPose == Some(pose) && w.odometry.sequenceGuard == u.odometry.sequenceGuard
            && w.odometry.observedAt == u.odometry.observedAt
            && w.counters == n.(accepted := n.accepted + 1, shadowProcessed := n.shadowProcessed + 1,
                                shadowPoseComputed := n.shadowPoseComputed + One(c.extrinsic.IsApproved()))
  {
    hide ShadowPose;
  }

  /** An accepted sample. */
  lemma AcceptanceJudged(c: Contract, s: State, u: State, t: State, now: int, rosNow: int, m: OdometryMessage)
    requires ValidContract(c) && DataInv(c, t)
    requires StampEnters(c, LastStamp(s.odometryHistory.committed), rosNow, m) && MessageFault(m) == None
    requires Entered(c, Counted(s), u, now, Nanoseconds(m.stamp))
    requires SampleFault(c, s.odometryHistory, s.odometry.observedAt, now, rosNow, m) == None
    requires |s.odometryHistory.committed| + 1 >= c.health.odometryRateWindowSamples
    requires !Slow(c, Window(c, s.odometryHistory.committed + [Nanoseconds(m.stamp)]))
    requires StampOrderAfter(u.odometry.stampGuard, Nanoseconds(m.stamp)) == Success(Accept)
    requires AcceptOdometry(c, u, now, Nanoseconds(m.stamp), MessagePose(m)) == Success(t)
    ensures OdometryJudged(c, s, t, now, rosNow, m)
  {
    hide ValidContract;
    hide DataInv;
    hide Nanoseconds;
    hide LastStamp;
    hide SampleFault;
    hide StampEnters;
    hide GapBefore;
    hide Late;
    hide Slow;
    hide Window;
    hide Evaluated;
    hide StampOrderAfter;
    hide AcceptOdometry;
    hide MessageFault;
    hide MessagePose;
    hide WithAccepted;
    hide Rescales;
    hide ShadowOf;
    hide NotAccepted;
    hide Entered;
    PoseOfOwn(m);
    EnteredMeans(c, s, u, now, Nanoseconds(m.stamp));
    WithAcceptedMeans(c, u, now, Nanoseconds(m.stamp), MessagePose(m));
    ShadowMeans(c, u, now, Nanoseconds(m.stamp), MessagePose(m));
    AcceptMeans(c, u, now, Nanoseconds(m.stamp), MessagePose(m));
  }

  lemma PoseOfOwn(m: OdometryMessage)
    requires MessageFault(m) == None
    ensures var pose := MessagePose(m);
            && IsCameraPose(pose) && pose.parent == "odom" && pose.child == "camera_link"
            && m.position.FiniteVector? && pose.translation == m.position.v && m.orientation.Finite?
            && Rescales(pose.rotation, m.orientation.norm, m.orientation.q)
  {
    hide MessageFault;
    hide Rescales;
    hide Create;
    hide MessageRotation;
    PoseOfMessage(m);
    PoseIs(m);
    hide MessagePose;
    FramesNamed();
  }

  /** A sample that enters the stream, from what is decided about it. */
  lemma EnteredJudged(c: Contract, s: State, u: State, t: State, now: int, rosNow: int, m: OdometryMessage)
    requires ValidContract(c) && DataInv(c, t)
    requires StampEnters(c, LastStamp(s.odometryHistory.committed), rosNow, m) && MessageFault(m) == None
    requires Entered(c, Counted(s), u, now, Nanoseconds(m.stamp))
    requires Success(t) == Judged(c, u, now, Nanoseconds(m.stamp), MessagePose(m), Late(c, s.odometry.observedAt, now))
    requires StampOrderAfter(u.odometry.stampGuard, Nanoseconds(m.stamp)) == Success(Accept)
    ensures OdometryJudged(c, s, t, now, rosNow, m)
  {
    hide ValidContract;
    hide DataInv;
    hide Nanoseconds;
    hide LastStamp;
    hide SampleFault;
    hide StampEnters;
    hide Late;
    hide StampOrderAfter;
    hide AcceptOdometry;
    hide RejectOdometry;
    hide MessageFault;
    hide MessagePose;
    hide OdometryJudged;
    hide Entered;
    hide Jumps;
    hide TimingFault;
    var at := Nanoseconds(m.stamp);
    var stamps, late := s.odometryHistory.committed + [at], Late(c, s.odometry.observedAt, now);
    EnteredFault(c, s, now, rosNow, m);
    EnteredMeans(c, s, u, now, at);
    TimingFaultKinds(c, stamps, late);
    var fault := SampleFault(c, s.odometryHistory, s.odometry.observedAt, now, rosNow, m);
    if Jumps(c, s.odometryHistory.accepted, MessagePose(m).translation, MessagePose(m).rotation) {
      EnteredRefusal(c, s, u, t, now, rosNow, m, fault.value,
                     u.(counters := u.counters.(poseJumpViolation := u.counters.poseJumpViolation + 1)));
    } else if |stamps| < c.health.odometryRateWindowSamples {
      WarmUpJudged(c, s, u, t, now, rosNow, m);
    } else if fault.Some? {
      EnteredRefusal(c, s, u, t, now, rosNow, m, fault.value, Rated(u, Slow(c, Window(c, stamps))));
    } else {
      InTime(c, stamps, late);
      AcceptanceJudged(c, s, u, t, now, rosNow, m);
    }
  }

  lemma InTime(c: Contract, stamps: seq<int>, late: bool)
    requires TimingFault(c, stamps, late) == None && |stamps| >= c.health.odometryRateWindowSamples
    ensures !Slow(c, Window(c, stamps)) && !late && !LongGap(c, Window(c, stamps))
  {
    hide LongGap;
    hide Slow;
    hide Window;
  }

  lemma OdometryVerdict(c: Contract, s: State, now: int, rosNow: int, m: OdometryMessage)
    requires ValidContract(c) && Inv(c, s)
    ensures OnOdometry(c, s, now, rosNow, m).Success?
    ensures OdometryJudged(c, s, OnOdometry(c, s, now, rosNow, m).value, now, rosNow, m)
  {
    hide ValidContract;
    hide Inv;
    hide OnOdometry;
    hide Decided;
    hide OdometryJudged;
    hide Nanoseconds;
    hide LastStamp;
    hide MessageFault;
    hide SameClock;
    hide Entered;
    hide WindowInv;
    hide Judged;
    hide RejectOdometry;
    hide StampOrderAfter;
    hide MessagePose;
    hide Late;
    hide DataInv;
    CallbackDecides(c, s, now, rosNow, m);
    OdometryKeepsInv(c, s, now, rosNow, m);
    var t := OnOdometry(c, s, now, rosNow, m).value;
    DecidedData(c, t, now);
    if StampEnters(c, LastStamp(s.odometryHistory.committed), rosNow, m) {
      var u :| Entered(c, Counted(s), u, now, Nanoseconds(m.stamp)) && WindowInv(c, u.odometry, u.odometryHistory)
               && Success(t) == Judged(c, u, now, Nanoseconds(m.stamp), MessagePose(m),
                                       Late(c, s.odometry.observedAt, now))
               && StampOrderAfter(u.odometry.stampGuard, Nanoseconds(m.stamp)) == Success(Accept);
      EnteredJudged(c, s, u, t, now, rosNow, m);
    } else {
      RefusedJudged(c, s, t, now, rosNow, m);
    }
  }

  lemma DecidedData(c: Contract, t: State, now: int)
    requires Decided(c, t, now)
    ensures DataInv(c, t)
  {
    hide Inv;
    hide HealthReason;
    InvData(c, t);
  }

  // ----- over runs -----

  /** In every run an odometry callback does exactly what OdometryJudged says. */
  lemma OdometryVerdictsOfRuns(c: Contract, startedAt: int, events: seq<Event>)
    requires ValidContract(c) && events != [] && events[|events| - 1].input.Odometry?
    ensures var e := events[|events| - 1];
            OdometryJudged(c, StateAfter(c, startedAt, events[..|events| - 1]), StateAfter(c, startedAt, events), e.now,
                           e.rosNow, e.input.sample)
  {
    hide ValidContract;
    hide Inv;
    hide StateAfter;
    hide OnOdometry;
    hide OdometryJudged;
    var e, s := events[|events| - 1], StateAfter(c, startedAt, events[..|events| - 1]);
    StateAfterSnoc(c, startedAt, events);
    OdometryVerdict(c, s, e.now, e.rosNow, e.input.sample);
  }

  /**
   A sample of the right frames, finite, with a quaternion of about unit length and valid covariances; its stamp later
   than all before it and in the clock domain; in time after the sample before it; the last W stamps, with its own,
   without a long gap and with enough rate; and neither lying nor pointing too far from the last accepted pose.
   */
  ghost predicate SampleFits(c: Contract, h: OdometryHistory, previous: Option<int>, now: int, rosNow: int,
                             m: OdometryMessage)
  {
    var at, stamps := Nanoseconds(m.stamp), h.committed + [Nanoseconds(m.stamp)];
    && m.parentFrame == "odom" && m.childFrame == "camera_link"
    && m.position.FiniteVector? && m.velocitiesFinite
    && m.orientation.Finite? && m.orientation.norm - 1.0 <= 0.001 && 1.0 - m.orientation.norm <= 0.001
    && m.poseCovarianceValid && m.twistCovarianceValid
    && at > 0 && (h.committed != [] ==> h.committed[|h.committed| - 1] < at)
    && rosNow > 0 && !FurtherApart(rosNow, at, c.health.maximumClockResidualSec)
    && (previous.Some? ==> !Longer(now - previous.value, c.health.maximumOdometryReceiveGapSec))
    && |stamps| >= c.health.odometryRateWindowSamples
    && !LongGap(c, Window(c, stamps)) && !Slow(c, Window(c, stamps))
    && (h.accepted != [] ==>
          var last := h.accepted[|h.accepted| - 1].pose;
          && NormSquared(Sub(m.position.v, last.translation)) <=
             c.health.maximumPositionStepM * c.health.maximumPositionStepM
          && !TurnsFurther(last.rotation, MessageRotation(m), c.health.maximumRotationStepHalfCosine))
  }

  lemma FitsMeans(c: Contract, h: OdometryHistory, previous: Option<int>, now: int, rosNow: int, m: OdometryMessage)
    ensures Accepts(c, h, previous, now, rosNow, m) <==> SampleFits(c, h, previous, now, rosNow, m)
  {
    hide Nanoseconds;
    hide FurtherApart;
    hide Longer;
    hide LongGap;
    hide Slow;
    hide Window;
    hide TurnsFurther;
    hide NormSquared;
    hide Sub;
    hide Normalized;
  }

  /** In every run an odometry callback accepts its sample exactly when it fits. */
  lemma AcceptedExactly(c: Contract, startedAt: int, events: seq<Event>)
    requires ValidContract(c) && events != [] && events[|events| - 1].input.Odometry?
    ensures var e, s, t := events[|events| - 1], StateAfter(c, startedAt, events[..|events| - 1]),
                           StateAfter(c, startedAt, events);
            |t.odometryHistory.accepted| > |s.odometryHistory.accepted| <==>
            SampleFits(c, s.odometryHistory, s.odometry.observedAt, e.now, e.rosNow, e.input.sample)
  {
    hide *;
    var e, s := events[|events| - 1], StateAfter(c, startedAt, events[..|events| - 1]);
    OdometryVerdictsOfRuns(c, startedAt, events);
    AcceptsMeans(c, s, StateAfter(c, startedAt, events), e.now, e.rosNow, e.input.sample);
    FitsMeans(c, s.odometryHistory, s.odometry.observedAt, e.now, e.rosNow, e.input.sample);
  }

  lemma AcceptsMeans(c: Contract, s: State, t: State, now: int, rosNow: int, m: OdometryMessage)
    requires OdometryJudged(c, s, t, now, rosNow, m)
    ensures |t.odometryHistory.accepted| > |s.odometryHistory.accepted| <==>
            Accepts(c, s.odometryHistory, s.odometry.observedAt, now, rosNow, m)
  {
    hide Accepts;
    hide SampleCounters;
    hide SampleFault;
    hide StampEnters;
    hide MessagePose;
    hide MessageFault;
    hide Rescales;
    hide ShadowOf;
    hide Evaluated;
    hide Nanoseconds;
    hide LastStamp;
  }
}
