/** A concrete contract, messages that fit it, and what the callbacks do with them. */
module ExampleCallbacks {
  import opened Contracts
  import opened Reasons
  import opened Geometry
  import opened RigidTransforms
  import opened Stamps
  import opened HealthGate
  import opened ContractConfig
  import opened OdometryValidation
  import opened AdapterState
  import opened AdapterSteps
  import opened AdapterInvariant
  import opened AdapterRuns

  // ----- a contract and the messages that fit it -----

  const FIRST: int := 1_000_000_000
  const SECOND: int := 1_500_000_000
  const LATE: int := 3_000_000_000
  const LAST: int := 3_500_000_000

  const DRIVER := RequiredDiagnostic("driver", "camera", "/driver", 0, map["state" := "ready"])

  /** Windows of two samples, recovery after one, gaps of up to a second. */
  function Demo(): Contract {
    Contract(InputContract("/slam", "/slam", ODOM, CAMERA, MAP, [1], [DRIVER]),
             HealthContract(1.0, 10.0, 10.0, 10.0, 20.0, 1, 1.0, 1.0, 1.0, 5.0, 5.0, 1.0, 0.5, 2),
             ExtrinsicGate(Blocked, None, None))
  }

  function Sample(sec: int32, nanosec: uint32): OdometryMessage {
    OneIsUnit();
    OdometryMessage(ODOM, CAMERA, Time(sec, nanosec), FiniteVector(ZERO), Finite(ONE, 1.0), true, true, true)
  }

  const GOOD_STATUS := StatusMessage(MAP, Time(1, 0), Value(0.0), Value(0.0), Value(0.0), Value(0.0), 1)
  const BAD_STATUS := GOOD_STATUS.(frame := "camera")
  const DRIVER_STATUS := DiagnosticStatus("driver", 0, "camera", [("state", "ready")])
  const EVIDENCE := DiagnosticsMessage(Time(1, 0), [DRIVER_STATUS])

  /** The callbacks, all at the same moment: the order alone matters. */
  function At(input: Input): Event {
    Event(0, FIRST, input)
  }

  function Tick(): Event {
    At(Timer(["/slam"], ["/slam"]))
  }

  function Message(): Event {
    At(Diagnostics(EVIDENCE, 7, [Endpoint(7, "/driver")]))
  }

  function FirstSample(): Event {
    At(Odometry(Sample(1, 0)))
  }

  function SecondSample(): Event {
    At(Odometry(Sample(1, 500_000_000)))
  }

  function LateSample(): Event {
    At(Odometry(Sample(3, 0)))
  }

  function LastSample(): Event {
    At(Odometry(Sample(3, 500_000_000)))
  }

  function BadStatus(): Event {
    At(Status(BAD_STATUS))
  }

  function GoodStatus(): Event {
    At(Status(GOOD_STATUS))
  }

  lemma SomeText(text: string)
    requires text != "" && text[0] != ' ' && text[|text| - 1] != ' ' && !IsBlank(text[0])
    ensures NonemptyText(text)
  {
  }

  lemma DriverIsValid()
    ensures ValidRequired(DRIVER)
  {
    SomeText("driver");
    SomeText("camera");
    SomeText("/driver");
    SomeText("state");
    SomeText("ready");
    hide NonemptyText;
    assert |"driver"| < |OWN_DIAGNOSTIC_SUFFIX|;
    assert "state" in DRIVER.requiredValues;
  }

  lemma ContractIsValid()
    ensures ValidContract(Demo())
  {
    DriverIsValid();
    SomeText("/slam");
    hide NonemptyText;
    hide ValidRequired;
    assert AbsoluteName("/slam");
    hide AbsoluteName;
    assert Demo().input.requiredDiagnostics[0] == DRIVER;
  }

  // ----- what the callbacks do with such messages -----

  lemma Stamped()
    ensures StampToNanoseconds(Time(1, 0)) == Some(FIRST)
    ensures StampToNanoseconds(Time(1, 500_000_000)) == Some(SECOND)
    ensures StampToNanoseconds(Time(3, 0)) == Some(LATE)
    ensures StampToNanoseconds(Time(3, 500_000_000)) == Some(LAST)
  {
  }

  lemma InClockDomain(stampNs: int)
    requires FIRST <= stampNs <= LAST
    ensures ClockDomainMatches(Demo(), FIRST, stampNs) == Success(true)
  {
  }

  function Pose(): RigidTransform {
    OneIsUnit();
    FramesDiffer();
    hide Unit;
    hide ValidFrameId;
    Transform(ODOM, CAMERA, ZERO, ONE)
  }

  lemma NormalizedOne()
    ensures Normalized(ONE, 1.0) == ONE
  {
  }

  lemma SampleFine(sec: int32, nanosec: uint32, stampNs: int)
    requires stampNs > 0
    ensures var m := Sample(sec, nanosec);
            && m.parentFrame == ODOM && m.childFrame == CAMERA && m.stamp == Time(sec, nanosec)
            && ValidatedIssues(m, stampNs, ODOM, CAMERA) == Success([])
            && Create(m.parentFrame, m.childFrame, m.position, m.orientation) == Success(Pose())
  {
    var m := Sample(sec, nanosec);
    OneIsUnit();
    hide QuatDot;
    assert Normalizable(m.orientation);
    NormalizedOne();
    FramesDiffer();
    hide Normalized;
    hide ValidFrameId;
    hide Unit;
    hide Normalizable;
    SampleVerdict(m, stampNs, ODOM, CAMERA);
    hide SampleIssues;
  }

  /** The state with one more sample received. */
  function Received(s: State): State {
    s.(counters := s.counters.(received := s.counters.received + 1))
  }

  /** The samples all show the same pose. */
  predicate StandsStill(s: State) {
    s.odometry.inputPose.Some? ==> s.odometry.inputPose.value == Pose()
  }

  lemma NothingToNothing()
    ensures NormSquared(ZERO) == 0.0
  {
  }

  lemma UnitDot(t: RigidTransform)
    ensures QuatDot(t.rotation, t.rotation) == 1.0
  {
    hide QuatDot;
    hide ValidFrameId;
  }

  lemma SamePose(t: RigidTransform)
    ensures MeasurePoseStep(t, t) == Success(PoseStep(0.0, 1.0))
  {
    hide Dot;
    hide NormSquared;
    hide QuatDot;
    hide Unit;
    hide WellFormed;
    hide ValidFrameId;
    assert Sub(t.translation, t.translation) == ZERO;
    NothingToNothing();
    UnitDot(t);
    hide Sub;
  }

  lemma DemoIs()
    ensures Demo().input.expectedParentFrame == ODOM && Demo().input.expectedChildFrame == CAMERA
    ensures Demo().health == HealthContract(1.0, 10.0, 10.0, 10.0, 20.0, 1, 1.0, 1.0, 1.0, 5.0, 5.0, 1.0, 0.5, 2)
    ensures !Demo().extrinsic.IsApproved()
  {
  }

  lemma NoJump(s: State)
    requires StandsStill(s)
    ensures JumpDetected(Demo(), s.odometry.inputPose, Pose()) == Success(false)
  {
    DemoIs();
    SamePose(Pose());
    hide MeasurePoseStep;
    hide Pose;
    hide Demo;
  }

  /** A sample with nothing wrong, in order and in its clock domain, that does not jump reaches the timing judgement. */
  lemma SampleJudged(c: Contract, s: State, m: OdometryMessage, stampNs: int, pose: RigidTransform, committed: State)
    requires StampToNanoseconds(m.stamp) == Some(stampNs) && stampNs > 0
    requires ValidatedIssues(m, stampNs, c.input.expectedParentFrame, c.input.expectedChildFrame) == Success([])
    requires StampOrderAfter(s.odometry.sequenceGuard, stampNs) == Success(Accept)
    requires ClockDomainMatches(c, FIRST, stampNs) == Success(true)
    requires CommitOdometry(c, Received(s), 0, stampNs) == Success(committed)
    requires Create(m.parentFrame, m.childFrame, m.position, m.orientation) == Success(pose)
    requires JumpDetected(c, committed.odometry.inputPose, pose) == Success(false)
    requires StampGapValid(c, s.odometry.sequenceGuard, stampNs).Success?
    ensures Step(c, s, At(Odometry(m))) ==
            JudgeTiming(c, committed, 0, stampNs, pose, StampGapValid(c, s.odometry.sequenceGuard, stampNs).value,
                        ReceiveGapValid(c, s.odometry, 0))
  {
    hide ReceiveGapValid;
    hide StampGapValid;
    hide StampOrderAfter;
    hide Create;
    hide ValidatedIssues;
    hide ClockDomainMatches;
    hide StampToNanoseconds;
    hide CommitOdometry;
    hide JumpDetected;
    hide JudgeTiming;
    assert JudgeOdometry(c, committed, 0, m, stampNs, StampGapValid(c, s.odometry.sequenceGuard, stampNs).value,
                         ReceiveGapValid(c, s.odometry, 0)) ==
           JudgeTiming(c, committed, 0, stampNs, pose, StampGapValid(c, s.odometry.sequenceGuard, stampNs).value,
                       ReceiveGapValid(c, s.odometry, 0));
    hide JudgeOdometry;
  }

  /** The same for the samples of this module. */
  lemma OwnSampleJudged(s: State, sec: int32, nanosec: uint32, stampNs: int, committed: State)
    requires StampToNanoseconds(Time(sec, nanosec)) == Some(stampNs) && FIRST <= stampNs <= LAST
    requires StampOrderAfter(s.odometry.sequenceGuard, stampNs) == Success(Accept)
    requires s.odometry.observedAt.None? || s.odometry.observedAt == Some(0)
    requires CommitOdometry(Demo(), Received(s), 0, stampNs) == Success(committed)
    requires StampGapValid(Demo(), s.odometry.sequenceGuard, stampNs).Success?
    requires StandsStill(s) && committed.odometry.inputPose == s.odometry.inputPose
    ensures Step(Demo(), s, At(Odometry(Sample(sec, nanosec)))) ==
            JudgeTiming(Demo(), committed, 0, stampNs, Pose(),
                        StampGapValid(Demo(), s.odometry.sequenceGuard, stampNs).value, true)
  {
    assert stampNs > 0 && StandsStill(committed);
    hide *;
    SampleFine(sec, nanosec, stampNs);
    InClockDomain(stampNs);
    NoJump(committed);
    PromptReceipt(s);
    DemoIs();
    SampleJudged(Demo(), s, Sample(sec, nanosec), stampNs, Pose(), committed);
  }

  lemma PromptReceipt(s: State)
    requires s.odometry.observedAt.None? || s.odometry.observedAt == Some(0)
    ensures ReceiveGapValid(Demo(), s.odometry, 0)
  {
    DemoIs();
    SecondsMonotone(0, 0);
    hide Seconds;
    hide Demo;
  }

  /** The first sample after a commit of none. */
  function WarmUpState(s: State, stampNs: int): State {
    Received(s).(odometry := s.odometry.(sequenceGuard := Some(stampNs), window := [stampNs], observedAt := Some(0),
                                         rateHz := None, maximumGapSec := None),
                 odometryHistory := s.odometryHistory.(committed := s.odometryHistory.committed + [stampNs]))
  }

  lemma WarmUpCommitted(s: State)
    requires s.odometry == NO_ODOMETRY
    ensures CommitOdometry(Demo(), Received(s), 0, FIRST) == Success(WarmUpState(s, FIRST))
    ensures StampGapValid(Demo(), None, FIRST) == Success(true)
  {
    DemoIs();
    hide Demo;
    assert LastStamps([] + [FIRST], 2) == [FIRST];
    hide LastStamps;
    hide Seconds;
  }

  lemma WarmUpFacts(s: State)
    requires s.odometry == NO_ODOMETRY
    ensures s.odometry.sequenceGuard == None && s.odometry.observedAt == None && StandsStill(s)
    ensures StampOrderAfter(s.odometry.sequenceGuard, FIRST) == Success(Accept)
    ensures WarmUpState(s, FIRST).odometry.inputPose == s.odometry.inputPose
    ensures JudgeTiming(Demo(), WarmUpState(s, FIRST), 0, FIRST, Pose(), true, true) == Success(WarmUpState(s, FIRST))
    ensures FirstSample() == At(Odometry(Sample(1, 0)))
  {
    hide Demo;
    hide Pose;
    hide Sample;
    hide At;
  }

  lemma WarmUpStep(s: State)
    requires s.odometry == NO_ODOMETRY
    ensures Step(Demo(), s, FirstSample()) == Success(WarmUpState(s, FIRST))
  {
    hide *;
    Stamped();
    StampsInOrder();
    WarmUpFacts(s);
    WarmUpCommitted(s);
    OwnSampleJudged(s, 1, 0, FIRST, WarmUpState(s, FIRST));
  }

  /** A sample that follows another: the window holds the two. */
  function PairState(s: State, previous: int, stampNs: int, gapValid: bool): State
    requires previous < stampNs
  {
    Received(s).(odometry := s.odometry.(sequenceGuard := Some(stampNs), window := [previous, stampNs],
                                         observedAt := Some(0), rateHz := Some(MeanRate([previous, stampNs])),
                                         maximumGapSec := Some(MaximumGap([previous, stampNs]))),
                 counters := Received(s).counters.(stampGapViolation := s.counters.stampGapViolation +
                                                                        if gapValid then 0 else 1),
                 odometryHistory := s.odometryHistory.(committed := s.odometryHistory.committed + [stampNs]))
  }

  lemma PairMetrics(a: int, b: int)
    requires 0 < a < b
    ensures WindowMetrics([a, b]) == Success(Some(StampWindowMetrics(MeanRate([a, b]), MaximumGap([a, b]))))
    ensures MeanRate([a, b]) == 1.0 / Seconds(b - a) && MaximumGap([a, b]) == Seconds(b - a)
  {
    var pair := [a, b];
    assert pair[..1] == [a];
    assert MaximumGap([a]) == 0.0;
    assert Gap(pair, 1) == Seconds(b - a);
    SecondsMonotone(0, b - a);
  }

  predicate FollowsOn(s: State, previous: int) {
    && 0 < previous && s.odometry.sequenceGuard == Some(previous) && s.odometry.observedAt == Some(0)
    && s.odometry.window != [] && |s.odometry.window| <= 2 && s.odometry.window[|s.odometry.window| - 1] == previous
    && StandsStill(s)
  }

  lemma PairUpdate(s: State, previous: int, stampNs: int)
    requires FollowsOn(s, previous) && previous < stampNs
    ensures var guarded := s.odometry.(sequenceGuard := Some(stampNs));
            UpdateOdometryRate(Demo(), guarded, stampNs) ==
            Success(guarded.(window := [previous, stampNs], rateHz := Some(MeanRate([previous, stampNs])),
                             maximumGapSec := Some(MaximumGap([previous, stampNs]))))
  {
    DemoIs();
    PairMetrics(previous, stampNs);
    hide Demo;
    hide Seconds;
    hide MeanRate;
    hide MaximumGap;
    hide WindowMetrics;
    hide StandsStill;
    assert LastStamps(s.odometry.window + [stampNs], 2) == [previous, stampNs];
    hide LastStamps;
  }

  lemma PairGap(previous: int, stampNs: int, gapValid: bool)
    requires 0 < previous < stampNs && (gapValid <==> Seconds(stampNs - previous) <= 1.0)
    ensures StampGapValid(Demo(), Some(previous), stampNs) == Success(gapValid)
  {
    DemoIs();
    hide Demo;
    hide Seconds;
  }

  lemma PairCommitted(s: State, previous: int, stampNs: int, gapValid: bool)
    requires FollowsOn(s, previous) && previous < stampNs
    requires gapValid <==> Seconds(stampNs - previous) <= 1.0
    ensures CommitOdometry(Demo(), Received(s), 0, stampNs) == Success(PairState(s, previous, stampNs, gapValid))
  {
    PairUpdate(s, previous, stampNs);
    PairGap(previous, stampNs, gapValid);
    PromptReceipt(s);
    hide Demo;
    hide Seconds;
    hide MeanRate;
    hide MaximumGap;
    hide StandsStill;
    hide UpdateOdometryRate;
    hide StampGapValid;
    hide ReceiveGapValid;
  }

  /** The state once such a sample is accepted. */
  function AcceptedState(s: State, previous: int, stampNs: int): State
    requires previous < stampNs
  {
    RecordAccepted(PairState(s, previous, stampNs, true), 0, stampNs, Some(stampNs), Pose())
  }

  lemma PairTiming(s: State, previous: int, stampNs: int)
    requires 0 < previous && stampNs == previous + 500_000_000
    requires s.odometry.stampGuard.None? || s.odometry.stampGuard.value <= previous
    ensures JudgeTiming(Demo(), PairState(s, previous, stampNs, true), 0, stampNs, Pose(), true, true) ==
            MaybeAdvanceHealth(Demo(), AcceptedState(s, previous, stampNs), 0)
  {
    DemoIs();
    PairMetrics(previous, stampNs);
    assert Seconds(stampNs - previous) == 0.5;
    hide Demo;
    hide MeanRate;
    hide MaximumGap;
    hide Seconds;
    hide Pose;
    hide MaybeAdvanceHealth;
  }

  lemma HalfASecond(previous: int)
    ensures Seconds(previous + 500_000_000 - previous) == 0.5
  {
  }

  lemma StampsInOrder()
    ensures 0 < FIRST < SECOND < LATE < LAST
    ensures Seconds(LATE - SECOND) == 1.5
    ensures SECOND == FIRST + 500_000_000 && LAST == LATE + 500_000_000
  {
  }

  lemma PairFacts(s: State, previous: int, stampNs: int, gapValid: bool)
    requires FollowsOn(s, previous) && previous < stampNs
    ensures StampOrderAfter(s.odometry.sequenceGuard, stampNs) == Success(Accept)
    ensures PairState(s, previous, stampNs, gapValid).odometry.inputPose == s.odometry.inputPose
    ensures s.odometry.sequenceGuard == Some(previous) && s.odometry.observedAt == Some(0) && StandsStill(s)
    ensures 0 < previous
  {
    hide StandsStill;
    hide MeanRate;
    hide MaximumGap;
  }

  /** Half a second after the previous sample, the next one is accepted and the health evaluated. */
  lemma PairStep(s: State, previous: int, sec: int32, nanosec: uint32, stampNs: int)
    requires FollowsOn(s, previous) && stampNs == previous + 500_000_000 && FIRST <= stampNs <= LAST
    requires StampToNanoseconds(Time(sec, nanosec)) == Some(stampNs)
    requires s.odometry.stampGuard.None? || s.odometry.stampGuard.value <= previous
    ensures Step(Demo(), s, At(Odometry(Sample(sec, nanosec)))) ==
            MaybeAdvanceHealth(Demo(), AcceptedState(s, previous, stampNs), 0)
  {
    hide *;
    PairFacts(s, previous, stampNs, true);
    HalfASecond(previous);
    var pair := PairState(s, previous, stampNs, true);
    PairTiming(s, previous, stampNs);
    PairGap(previous, stampNs, true);
    PairCommitted(s, previous, stampNs, true);
    OwnSampleJudged(s, sec, nanosec, stampNs, pair);
  }

  lemma GapTiming(s: State)
    ensures JudgeTiming(Demo(), PairState(s, SECOND, LATE, false), 0, LATE, Pose(), false, true) ==
            Success(RejectOdometry(Demo(), RatedLow(PairState(s, SECOND, LATE, false)),
                                   MarkTransient(OdometryStampGapExceeded)))
  {
    DemoIs();
    PairMetrics(SECOND, LATE);
    assert Seconds(LATE - SECOND) == 1.5;
    assert 1.0 / 1.5 < 1.0;
    hide Demo;
    hide MeanRate;
    hide MaximumGap;
    hide Seconds;
    hide Pose;
    hide RejectOdometry;
  }

  function RatedLow(s: State): State {
    s.(counters := s.counters.(rateViolation := s.counters.rateViolation + 1))
  }

  /** A sample after an over-long gap is rejected. */
  lemma GapStep(s: State)
    requires FollowsOn(s, SECOND)
    ensures Step(Demo(), s, At(Odometry(Sample(3, 0)))) ==
            Success(RejectOdometry(Demo(), RatedLow(PairState(s, SECOND, LATE, false)),
                                   MarkTransient(OdometryStampGapExceeded)))
  {
    hide *;
    StampsInOrder();
    PairFacts(s, SECOND, LATE, false);
    var pair := PairState(s, SECOND, LATE, false);
    Stamped();
    GapTiming(s);
    PairGap(SECOND, LATE, false);
    PairCommitted(s, SECOND, LATE, false);
    OwnSampleJudged(s, 3, 0, LATE, pair);
  }

  // ----- the other callbacks -----

  function Started(): State {
    InitialState(Demo(), 0)
  }

  function Ticked(): State {
    var s := Started();
    s.(publishers := PublisherEvidence(1, true, 1, true),
       gate := Gate(Starting, WaitingForOdometry, 0),
       gateHistory := s.gateHistory.(calls := [MarkStarting(WaitingForOdometry)], lastTick := Some(0)))
  }

  const OBSERVED := map["driver" := Observation(0, FIRST, 0)]

  function Evidenced(): State {
    var s := Ticked();
    s.(diagnostics := DiagnosticTrack(map["driver" := Some(FIRST)], OBSERVED),
       counters := s.counters.(diagnosticReceived := 1))
  }

  lemma TickStep()
    ensures Step(Demo(), Started(), Tick()) == Success(Ticked())
  {
    hide DiagnosticNames;
    SecondsMonotone(0, 0);
    hide Seconds;
    var s := Started();
    var seen := s.(publishers := PublisherEvidence(1, true, 1, true),
                   gateHistory := s.gateHistory.(lastTick := Some(0)));
    assert CheckAuthority(Demo(), s, 0, ["/slam"], ["/slam"]) == seen;
    assert HealthReason(Demo(), seen, 0) == Success(WaitingForOdometry);
    assert KeepStarting(Demo(), seen, WaitingForOdometry) == Ticked();
    assert TickHealth(Demo(), seen, 0) == Success(Ticked());
  }

  lemma Names()
    ensures DiagnosticNames([DRIVER]) == {"driver"}
    ensures CandidateNames([Candidate(DRIVER_STATUS, DRIVER)]) == {"driver"}
  {
    var candidates := [Candidate(DRIVER_STATUS, DRIVER)];
    assert [DRIVER][0].name in DiagnosticNames([DRIVER]);
    assert candidates[0].status.name in CandidateNames(candidates);
  }

  lemma Found()
    ensures Collect([DRIVER], EVIDENCE.statuses) == Collected([Candidate(DRIVER_STATUS, DRIVER)], None, 1)
  {
    var none: seq<DiagnosticStatus> := [];
    assert EVIDENCE.statuses[..0] == none;
    assert Collect([DRIVER], none) == Collected([], None, 0);
    assert FindRequired([DRIVER], "driver") == Some(DRIVER);
    hide FindRequired;
    assert CandidateNames([]) == {};
  }

  lemma Sender(candidates: seq<Candidate>)
    requires candidates == [Candidate(DRIVER_STATUS, DRIVER)]
    ensures SourceFault(candidates, 7, [Endpoint(7, "/driver")]) == None
  {
    var publishers := [Endpoint(7, "/driver")];
    assert publishers[..0] == [];
    assert MatchingNodes([], 7) == [];
    assert CountNode([], "/driver") == 0;
  }

  lemma Orderly(candidates: seq<Candidate>, guards: map<string, Option<int>>)
    requires candidates == [Candidate(DRIVER_STATUS, DRIVER)] && guards == map["driver" := None]
    ensures FirstStampFault(guards, candidates, FIRST) == Success(Accept)
    ensures CommitGuards(guards, candidates, FIRST) == Success(map["driver" := Some(FIRST)])
    ensures FirstEvidenceError(candidates) == None
    ensures StoreEvidence(map[], candidates, FIRST, 0) == map["driver" := Observation(0, FIRST, 0)]
  {
    assert candidates[1..] == [];
    var moved := guards["driver" := Some(FIRST)];
    assert moved == map["driver" := Some(FIRST)];
    assert CommitGuards(moved, [], FIRST) == Success(moved);
    assert FirstEvidenceError([]) == None;
  }

  /** A message from the expected publisher, in order and with all that is required, becomes evidence. */
  lemma Diagnosed(c: Contract, s: State, m: DiagnosticsMessage, gid: int, publishers: seq<Endpoint>,
                  candidates: seq<Candidate>, stampNs: int, guards: map<string, Option<int>>)
    requires Collect(c.input.requiredDiagnostics, m.statuses) == Collected(candidates, None, |candidates|)
    requires candidates != [] && SourceFault(candidates, gid, publishers) == None
    requires StampToNanoseconds(m.stamp) == Some(stampNs) && stampNs > 0
    requires ClockDomainMatches(c, FIRST, stampNs) == Success(true)
    requires FirstStampFault(s.diagnostics.guards, candidates, stampNs) == Success(Accept)
    requires CommitGuards(s.diagnostics.guards, candidates, stampNs) == Success(guards)
    requires FirstEvidenceError(candidates) == None
    ensures Step(c, s, At(Diagnostics(m, gid, publishers))) ==
            MaybeAdvanceHealth(c, s.(
              diagnostics := DiagnosticTrack(guards, StoreEvidence(
                s.diagnostics.observations - CandidateNames(candidates), candidates, stampNs, 0)),
              counters := s.counters.(diagnosticReceived := s.counters.diagnosticReceived + |candidates|)), 0)
  {
    hide Collect;
    hide CandidateNames;
    hide SourceFault;
    hide FirstStampFault;
    hide CommitGuards;
    hide StoreEvidence;
    hide FirstEvidenceError;
    hide ClockDomainMatches;
    hide StampToNanoseconds;
    hide MaybeAdvanceHealth;
  }

  lemma TickedGuards()
    ensures Ticked().diagnostics == DiagnosticTrack(map["driver" := None], map[])
    ensures Ticked().diagnostics.observations - {"driver"} == map[]
  {
    Names();
    hide DiagnosticNames;
  }

  lemma EvidencedWaits()
    ensures MaybeAdvanceHealth(Demo(), Evidenced(), 0) == Success(Evidenced())
  {
    EvidencedIsPrepared();
    hide Evidenced;
    hide Demo;
    hide HealthReason;
    hide MaybeAdvanceHealth;
    hide Surroundings;
    OdometryMissing(Evidenced());
    KeepsStarting(Demo(), Evidenced());
  }

  lemma DemoRequires()
    ensures Demo().input.requiredDiagnostics == [DRIVER] && EVIDENCE.stamp == Time(1, 0)
    ensures Message() == At(Diagnostics(EVIDENCE, 7, [Endpoint(7, "/driver")]))
  {
    hide At;
  }

  lemma DiagnosticsStep()
    ensures Step(Demo(), Ticked(), Message()) == Success(Evidenced())
  {
    hide Collect;
    hide CandidateNames;
    hide SourceFault;
    hide FirstStampFault;
    hide CommitGuards;
    hide StoreEvidence;
    hide FirstEvidenceError;
    hide ClockDomainMatches;
    hide StampToNanoseconds;
    hide MaybeAdvanceHealth;
    hide Step;
    hide At;
    hide Demo;
    hide Ticked;
    hide Message;
    Names();
    Found();
    var candidates := [Candidate(DRIVER_STATUS, DRIVER)];
    Sender(candidates);
    TickedGuards();
    TickedCounts();
    Orderly(candidates, Ticked().diagnostics.guards);
    InClockDomain(FIRST);
    Stamped();
    DemoRequires();
    Diagnosed(Demo(), Ticked(), EVIDENCE, 7, [Endpoint(7, "/driver")], candidates, FIRST,
              map["driver" := Some(FIRST)]);
    EvidencedWaits();
  }

  lemma TickedCounts()
    ensures Ticked().counters == NO_COUNTS
  {
    hide DiagnosticNames;
    hide Demo;
  }

  /** A well-formed status in order and in its clock domain is committed. */
  lemma StatusCommitted(c: Contract, s: State, m: StatusMessage, stampNs: int)
    requires StatusWellFormed(c, m) && m.voState in c.input.acceptedVoStates
    requires StampToNanoseconds(m.stamp) == Some(stampNs) && stampNs > 0 && s.status.sequenceGuard == None
    requires ClockDomainMatches(c, FIRST, stampNs) == Success(true)
    ensures Step(c, s, At(Status(m))) ==
            CommitStatus(c, s.(counters := s.counters.(statusReceived := s.counters.statusReceived + 1)), 0, stampNs,
                         true)
  {
    hide StampToNanoseconds;
    hide StatusWellFormed;
    hide CommitStatus;
    hide ClockDomainMatches;
  }

  lemma GoodStatusWellFormed()
    ensures StatusWellFormed(Demo(), GOOD_STATUS) && GOOD_STATUS.voState in Demo().input.acceptedVoStates
    ensures StampToNanoseconds(GOOD_STATUS.stamp) == Some(FIRST)
  {
  }

  function WithStatus(s: State): State {
    s.(status := StatusTrack(Some(FIRST), Some(FIRST), Some(0), true),
       counters := s.counters.(statusReceived := s.counters.statusReceived + 1))
  }

  lemma StatusTracked(s: State)
    requires s.status == StatusTrack(None, None, None, false)
    ensures CommitStatus(Demo(), s.(counters := s.counters.(statusReceived := s.counters.statusReceived + 1)), 0, FIRST,
                         true) == MaybeAdvanceHealth(Demo(), WithStatus(s), 0)
  {
    hide Demo;
    hide MaybeAdvanceHealth;
  }

  /** The first good status is committed and the health evaluated. */
  lemma StatusStep(s: State)
    requires s.status == StatusTrack(None, None, None, false)
    ensures Step(Demo(), s, At(Status(GOOD_STATUS))) == MaybeAdvanceHealth(Demo(), WithStatus(s), 0)
  {
    InClockDomain(FIRST);
    hide *;
    GoodStatusWellFormed();
    StampsInOrder();
    StatusCommitted(Demo(), s, GOOD_STATUS, FIRST);
    StatusTracked(s);
  }

  lemma BadStatusIll()
    ensures !StatusWellFormed(Demo(), BAD_STATUS)
  {
    assert BAD_STATUS.frame[0] == 'c' && MAP[0] == 'm';
    hide StampToNanoseconds;
  }

  function AfterBadStatus(s: State): State {
    RejectStatus(Demo(), s.(counters := s.counters.(statusReceived := s.counters.statusReceived + 1)),
                 MarkTransient(TrackingStatusInvalid))
  }

  /** A status in the wrong frame is a transient fault. */
  lemma IllStatusStep(c: Contract, s: State, m: StatusMessage)
    requires !StatusWellFormed(c, m)
    ensures Step(c, s, At(Status(m))) ==
            Success(RejectStatus(c, s.(counters := s.counters.(statusReceived := s.counters.statusReceived + 1)),
                                 MarkTransient(TrackingStatusInvalid)))
  {
    hide RejectStatus;
    hide StatusWellFormed;
  }

  lemma BadStatusStep(s: State)
    ensures Step(Demo(), s, At(Status(BAD_STATUS))) == Success(AfterBadStatus(s))
  {
    BadStatusIll();
    hide Step;
    hide Demo;
    hide StatusWellFormed;
    hide RejectStatus;
    IllStatusStep(Demo(), s, BAD_STATUS);
  }

  // ----- health -----

  /** Both publishers are the expected ones and the driver's evidence is there. */
  predicate Surroundings(s: State) {
    s.publishers == PublisherEvidence(1, true, 1, true) && s.diagnostics.observations == OBSERVED
  }

  predicate GoodOdometry(o: OdometryTrack) {
    && o.valid && o.receivedAt == Some(0)
    && o.stampGuard.Some? && FIRST <= o.stampGuard.value <= LAST
    && o.rateHz.Some? && o.rateHz.value >= 1.0 && o.maximumGapSec.Some? && o.maximumGapSec.value <= 1.0
  }

  predicate StatusIsGood(t: StatusTrack) {
    t == StatusTrack(Some(FIRST), Some(FIRST), Some(0), true)
  }

  lemma DriverHealthy()
    ensures Demo().input.requiredDiagnostics == [DRIVER]
    ensures DiagnosticsReason([DRIVER], OBSERVED, 10.0, 0) == InputHealthy
  {
    SecondsMonotone(0, 0);
    hide Seconds;
    assert [DRIVER][1..] == [];
  }

  lemma SmallSkew(stampNs: int)
    requires FIRST <= stampNs <= LAST
    ensures AbsoluteStampDifferenceSeconds(stampNs, FIRST).Success?
    ensures AbsoluteStampDifferenceSeconds(stampNs, FIRST).value <= 5.0
  {
  }

  lemma AllHealthy(s: State)
    requires Surroundings(s) && GoodOdometry(s.odometry) && StatusIsGood(s.status)
    ensures HealthReason(Demo(), s, 0) == Success(InputHealthy)
  {
    DemoIs();
    DriverHealthy();
    SmallSkew(s.odometry.stampGuard.value);
    SecondsMonotone(0, 0);
    hide Demo;
    hide Seconds;
    hide DiagnosticsReason;
    hide AbsoluteStampDifferenceSeconds;
    assert PublishersReason(s.publishers) == InputHealthy;
    hide PublishersReason;
  }

  /** A healthy state with an uncounted sample has it counted, unless it is latched. */
  lemma CountsSample(s: State)
    requires Surroundings(s) && GoodOdometry(s.odometry) && StatusIsGood(s.status)
    requires s.gate.state != LatchedFault && s.lastHealthObserved != s.odometry.stampGuard
    requires s.gateHistory.evaluatedAt == 0
    ensures MaybeAdvanceHealth(Demo(), s, 0) == Success(Observe(Demo(), s))
  {
    AllHealthy(s);
    hide HealthReason;
    hide Demo;
    hide Surroundings;
    hide StatusIsGood;
    assert s.(gateHistory := s.gateHistory.(evaluatedAt := 0)) == s;
    hide Observe;
  }

  /** While starting, unhealthy inputs change nothing. */
  lemma KeepsStarting(c: Contract, s: State)
    requires HealthReason(c, s, 0).Success? && HealthReason(c, s, 0).value != InputHealthy
    requires s.gate.state == Starting && s.gateHistory.evaluatedAt == 0
    ensures MaybeAdvanceHealth(c, s, 0) == Success(s)
  {
    hide HealthReason;
    assert s.(gateHistory := s.gateHistory.(evaluatedAt := 0)) == s;
  }

  lemma StatusMissing(s: State)
    requires Surroundings(s) && s.odometry.receivedAt.Some? && s.status.receivedAt.None?
    ensures HealthReason(Demo(), s, 0) == Success(WaitingForTrackingStatus)
  {
    hide Demo;
  }

  lemma OdometryMissing(s: State)
    requires Surroundings(s) && s.odometry == NO_ODOMETRY && s.counters.received == 0
    ensures HealthReason(Demo(), s, 0) == Success(WaitingForOdometry)
  {
    hide Demo;
  }

  lemma RunExtends(c: Contract, startedAt: int, events: seq<Event>, e: Event, s: State, t: State)
    requires Run(c, startedAt, events) == Success(s) && Step(c, s, e) == Success(t)
    ensures Run(c, startedAt, events + [e]) == Success(t)
  {
    hide Step;
    assert (events + [e])[..|events|] == events;
  }

  lemma StartOfRun()
    ensures Run(Demo(), 0, []) == Success(Started())
  {
    hide Demo;
    hide InitialState;
  }

  /** What the node has before the first sample, the driver's evidence included. */
  predicate Prepared(s: State) {
    && Surroundings(s) && s.odometry == NO_ODOMETRY && s.counters.received == 0
    && s.gate.state == Starting && s.gateHistory.evaluatedAt == 0 && s.lastHealthObserved == None
    && s.odometryHistory == OdometryHistory([], []) && s.gateHistory.calls == [MarkStarting(WaitingForOdometry)]
  }

  function FirstTwo(): seq<Event> {
    [] + [Tick()] + [Message()]
  }

  lemma PreparedRun()
    ensures Run(Demo(), 0, FirstTwo()) == Success(Evidenced())
  {
    hide Demo;
    hide Step;
    hide Tick;
    hide Message;
    hide Started;
    hide Ticked;
    hide Evidenced;
    hide Run;
    StartOfRun();
    TickStep();
    DiagnosticsStep();
    var none: seq<Event> := [];
    RunExtends(Demo(), 0, none, Tick(), Started(), Ticked());
    RunExtends(Demo(), 0, none + [Tick()], Message(), Ticked(), Evidenced());
  }

  lemma EvidencedIsPrepared()
    ensures Prepared(Evidenced()) && Evidenced().status == StatusTrack(None, None, None, false)
  {
    hide DiagnosticNames;
    hide Demo;
  }

  /** Two samples half a second apart, from a prepared state. */
  function TwoSamples(s: State): State {
    AcceptedState(WarmUpState(s, FIRST), FIRST, SECOND)
  }

  lemma WarmUpMeans(s: State)
    requires Prepared(s)
    ensures var w := WarmUpState(s, FIRST);
            && w == s.(odometry := w.odometry, counters := w.counters, odometryHistory := OdometryHistory([FIRST], []))
            && FollowsOn(w, FIRST) && w.odometry.stampGuard == None
  {
    hide Surroundings;
    hide Pose;
    assert [] + [FIRST] == [FIRST];
  }

  lemma PairMeans(w: State, previous: int, stampNs: int)
    requires FollowsOn(w, previous) && stampNs == previous + 500_000_000 && FIRST <= stampNs <= LAST
    ensures var t := AcceptedState(w, previous, stampNs);
            && t == w.(odometry := t.odometry, counters := t.counters, odometryHistory := t.odometryHistory)
            && FollowsOn(t, stampNs) && t.odometry.stampGuard == Some(stampNs) && GoodOdometry(t.odometry)
            && t.odometryHistory.committed == w.odometryHistory.committed + [stampNs]
            && |t.odometryHistory.accepted| == |w.odometryHistory.accepted| + 1
  {
    PairMetrics(previous, stampNs);
    HalfASecond(previous);
    hide Pose;
    hide MeanRate;
    hide MaximumGap;
    hide Seconds;
  }

  /** What the two samples leave of a prepared state. */
  predicate SampledFrom(s: State, t: State) {
    && t == s.(odometry := t.odometry, counters := t.counters, odometryHistory := t.odometryHistory)
    && FollowsOn(t, SECOND) && t.odometry.stampGuard == Some(SECOND) && GoodOdometry(t.odometry)
    && |t.odometryHistory.accepted| == 1 && t.odometryHistory.committed == [FIRST, SECOND]
  }

  lemma TwoSamplesFrom(s: State)
    requires Prepared(s)
    ensures SampledFrom(s, TwoSamples(s))
  {
    hide FollowsOn;
    hide GoodOdometry;
    hide WarmUpState;
    hide AcceptedState;
    WarmUpMeans(s);
    hide Prepared;
    StampsInOrder();
    PairMeans(WarmUpState(s, FIRST), FIRST, SECOND);
  }

  /** The two steps, up to the evaluation of the second. */
  lemma TwoSteps(s: State)
    requires Prepared(s)
    ensures Step(Demo(), s, FirstSample()) == Success(WarmUpState(s, FIRST))
    ensures Step(Demo(), WarmUpState(s, FIRST), SecondSample()) == MaybeAdvanceHealth(Demo(), TwoSamples(s), 0)
  {
    hide Demo;
    hide Step;
    hide Sample;
    hide StampToNanoseconds;
    hide WarmUpState;
    hide AcceptedState;
    hide FollowsOn;
    hide MaybeAdvanceHealth;
    hide Surroundings;
    WarmUpMeans(s);
    WarmUpStep(s);
    hide Prepared;
    Stamped();
    StampsInOrder();
    PairStep(WarmUpState(s, FIRST), FIRST, 1, 500_000_000, SECOND);
  }
}
