/** Runs on concrete contracts: promises that fail, and a bound that is attained. */
module RunExample {
  import opened Contracts
  import opened Reasons
  import opened RigidTransforms
  import opened Stamps
  import opened HealthGate
  import opened ContractConfig
  import opened AdapterState
  import opened AdapterSteps
  import opened AdapterInvariant
  import opened DiagnosticEvidence
  import opened AdapterRuns
  import opened RunRecovery
  import opened RunFrames
  import opened RunEvidence
  import opened ExampleCallbacks

  // ----- the first run: an older frame recovers the gate -----

  function Sampled(): State {
    TwoSamples(Evidenced())
  }

  lemma SampledStep()
    ensures Step(Demo(), Evidenced(), FirstSample()) == Success(WarmUpState(Evidenced(), FIRST))
    ensures Step(Demo(), WarmUpState(Evidenced(), FIRST), SecondSample()) == Success(Sampled())
  {
    assert Sampled() == TwoSamples(Evidenced());
    hide *;
    EvidencedIsPrepared();
    TwoSteps(Evidenced());
    SampledWaits(Evidenced());
  }

  lemma WaitsForStatus(t: State)
    requires Surroundings(t) && t.odometry.receivedAt.Some? && t.status.receivedAt.None?
    requires t.gate.state == Starting && t.gateHistory.evaluatedAt == 0
    ensures MaybeAdvanceHealth(Demo(), t, 0) == Success(t)
  {
    hide *;
    StatusMissing(t);
    KeepsStarting(Demo(), t);
  }

  lemma SampledWaits(s: State)
    requires Prepared(s) && s.status == StatusTrack(None, None, None, false)
    ensures MaybeAdvanceHealth(Demo(), TwoSamples(s), 0) == Success(TwoSamples(s))
  {
    hide Demo;
    hide TwoSamples;
    hide MaybeAdvanceHealth;
    hide FollowsOn;
    TwoSamplesFrom(s);
    WaitsForStatus(TwoSamples(s));
  }

  function Recovered(): State {
    var s := WithStatus(AfterBadStatus(Sampled()));
    if s.odometry.stampGuard.Some? then Observe(Demo(), s) else s
  }

  /** What a transient fault on the sampled state leaves. */
  predicate FaultyFrom(t: State, f: State) {
    && f == t.(gate := f.gate, counters := f.counters, gateHistory := f.gateHistory)
    && f.gate.state == TransientFault && f.gateHistory.evaluatedAt == 0
    && f.gateHistory.calls == [MarkStarting(WaitingForOdometry), MarkTransient(TrackingStatusInvalid)]
    && f.gateHistory.faultAccepted == 1
  }

  lemma FaultMeans(s: State, t: State)
    requires Prepared(s) && SampledFrom(s, t) && t.status == StatusTrack(None, None, None, false)
    ensures FaultyFrom(t, AfterBadStatus(t))
  {
    hide Demo;
    hide FollowsOn;
    hide GoodOdometry;
    hide Surroundings;
    assert [MarkStarting(WaitingForOdometry)] + [MarkTransient(TrackingStatusInvalid)] ==
           [MarkStarting(WaitingForOdometry), MarkTransient(TrackingStatusInvalid)];
  }

  lemma ReadyAgain(s: State, t: State, f: State)
    requires Prepared(s) && SampledFrom(s, t) && t.status == StatusTrack(None, None, None, false) && FaultyFrom(t, f)
    ensures f.status == StatusTrack(None, None, None, false)
    ensures var w := WithStatus(f);
            && Surroundings(w) && GoodOdometry(w.odometry) && StatusIsGood(w.status)
            && w.gate.state != LatchedFault && w.lastHealthObserved != w.odometry.stampGuard
            && w.gateHistory.evaluatedAt == 0 && w.odometry.stampGuard.Some?
  {
    hide FollowsOn;
    hide GoodOdometry;
  }

  lemma ObservedAgain(t: State, f: State)
    requires FaultyFrom(t, f) && |t.odometryHistory.accepted| == 1 && f.odometry.stampGuard.Some?
    ensures var r := Observe(Demo(), WithStatus(f));
            && r.gate.state == Healthy
            && r.gateHistory.calls ==
               [MarkStarting(WaitingForOdometry), MarkTransient(TrackingStatusInvalid), ObserveHealthySample]
            && r.gateHistory.faultAccepted == 1 && |r.odometryHistory.accepted| == 1
  {
    DemoIs();
    hide Demo;
  }

  lemma RecoveredStep()
    ensures Step(Demo(), AfterBadStatus(Sampled()), GoodStatus()) == Success(Recovered())
    ensures Recovered().gate.state == Healthy
    ensures Recovered().gateHistory.calls ==
            [MarkStarting(WaitingForOdometry), MarkTransient(TrackingStatusInvalid), ObserveHealthySample]
    ensures Recovered().gateHistory.faultAccepted == 1 && |Recovered().odometryHistory.accepted| == 1
  {
    var s, t, f := Evidenced(), Sampled(), AfterBadStatus(Sampled());
    hide Evidenced;
    hide Demo;
    hide TwoSamples;
    hide AfterBadStatus;
    hide Step;
    hide MaybeAdvanceHealth;
    hide GoodOdometry;
    hide Surroundings;
    hide FollowsOn;
    hide Observe;
    EvidencedIsPrepared();
    TwoSamplesFrom(s);
    hide Prepared;
    FaultMeans(s, t);
    ReadyAgain(s, t, f);
    hide WithStatus;
    StatusStep(f);
    CountsSample(WithStatus(f));
    StillThere(t, f);
    hide FaultyFrom;
    ObservedAgain(t, f);
  }

  lemma StillThere(t: State, f: State)
    requires FaultyFrom(t, f)
    ensures WithStatus(f).odometry == f.odometry == t.odometry
  {
  }

  lemma SameSurroundings(s: State, t: State)
    requires Surroundings(s) && t.publishers == s.publishers && t.diagnostics == s.diagnostics
    ensures Surroundings(t)
  {
  }

  function OlderFrameEvents(): seq<Event> {
    FirstTwo() + [FirstSample()] + [SecondSample()] + [BadStatus()] + [GoodStatus()]
  }

  /**
   Recovery is promised after N frames since the fault; here N is one, and the gate is Healthy with no frame accepted
   since the fault.
   */
  lemma PendingSampleRecovers()
    ensures ValidContract(Demo())
    ensures var s := StateAfter(Demo(), 0, OlderFrameEvents());
            && s.gate.state == Healthy && Recoverable(s)
            && FreshFrames(s) == 0 < Demo().health.recoveryConsecutiveSamples == 1
            && OlderFrameCounts(Demo(), 0, OlderFrameEvents())
  {
    ContractIsValid();
    hide ValidContract;
    DemoIs();
    RecoveredStep();
    CallsRecoverable();
    hide Recovered;
    hide Demo;
    hide Step;
    hide Run;
    hide Evidenced;
    hide Sampled;
    hide AfterBadStatus;
    hide WarmUpState;
    hide FirstTwo;
    hide FirstSample;
    hide SecondSample;
    hide StateAfter;
    hide OlderFrameCounts;
    hide LastLatch;
    hide LastTransient;
    PreparedRun();
    SampledStep();
    BadStatusStep(Sampled());
    var e := FirstTwo();
    RunExtends(Demo(), 0, e, FirstSample(), Evidenced(), WarmUpState(Evidenced(), FIRST));
    e := e + [FirstSample()];
    RunExtends(Demo(), 0, e, SecondSample(), WarmUpState(Evidenced(), FIRST), Sampled());
    e := e + [SecondSample()];
    RunExtends(Demo(), 0, e, BadStatus(), Sampled(), AfterBadStatus(Sampled()));
    e := e + [BadStatus()];
    RunExtends(Demo(), 0, e, GoodStatus(), AfterBadStatus(Sampled()), Recovered());
    StateInv(Demo(), 0, OlderFrameEvents());
    RecoveryNeedsFrames(Demo(), 0, OlderFrameEvents());
  }

  lemma CallsRecoverable()
    ensures var calls := [MarkStarting(WaitingForOdometry), MarkTransient(TrackingStatusInvalid), ObserveHealthySample];
            LastTransient(calls).Some? && LastLatch(calls).None?
  {
    var calls := [MarkStarting(WaitingForOdometry), MarkTransient(TrackingStatusInvalid), ObserveHealthySample];
    var two := [MarkStarting(WaitingForOdometry), MarkTransient(TrackingStatusInvalid)];
    assert calls[..2] == two;
    assert two[..1] == [MarkStarting(WaitingForOdometry)];
    assert LastLatch([MarkStarting(WaitingForOdometry)]) == None;
    assert LastLatch(two) == None;
    assert LastTransient(two) == Some(TrackingStatusInvalid);
  }

  // ----- the second run: the bound on quarantine is attained -----

  function WithGoodStatus(): State {
    WithStatus(Evidenced())
  }

  lemma GoodStatusFirst()
    ensures Step(Demo(), Evidenced(), GoodStatus()) == Success(WithGoodStatus())
    ensures Prepared(WithGoodStatus()) && StatusIsGood(WithGoodStatus().status)
  {
    EvidencedIsPrepared();
    var s, t := Evidenced(), WithGoodStatus();
    hide Evidenced;
    SameSurroundings(s, t);
    hide Surroundings;
    hide Demo;
    hide Step;
    hide HealthReason;
    hide MaybeAdvanceHealth;
    assert Prepared(t);
    StatusStep(s);
    OdometryMissing(t);
    KeepsStarting(Demo(), t);
  }

  /** A state whose next sample, half a second on, is counted at once. */
  predicate CountsNext(s: State, stampNs: int) {
    && Surroundings(s) && StatusIsGood(s.status) && s.gate.state != LatchedFault && s.gateHistory.evaluatedAt == 0
    && (s.lastHealthObserved.None? || s.lastHealthObserved.value < stampNs)
  }

  function Counts(s: State): State {
    if s.odometry.stampGuard.Some? then Observe(Demo(), s) else s
  }

  /** What is left once the gate has counted a sample. */
  predicate CountedFrom(s: State, t: State) {
    && t == s.(gate := t.gate, lastHealthObserved := s.odometry.stampGuard, gateHistory := t.gateHistory)
    && t.gateHistory.evaluatedAt == s.gateHistory.evaluatedAt
    && (s.gate.state == Starting || s.gate.state == TransientFault ==> t.gate.state == Healthy)
  }

  lemma CountsMeans(s: State)
    requires s.odometry.stampGuard.Some?
    ensures CountedFrom(s, Counts(s))
  {
    DemoIs();
    hide Demo;
  }

  function FirstHealthy(): State {
    Counts(TwoSamples(WithGoodStatus()))
  }

  /** A sample that the gate is about to count. */
  predicate AboutToCount(s: State) {
    && Surroundings(s) && GoodOdometry(s.odometry) && StatusIsGood(s.status)
    && s.gate.state != LatchedFault && s.gateHistory.evaluatedAt == 0
    && s.odometry.stampGuard.Some? && s.lastHealthObserved != s.odometry.stampGuard
  }

  lemma CountsNow(s: State)
    requires AboutToCount(s)
    ensures MaybeAdvanceHealth(Demo(), s, 0) == Success(Counts(s)) && CountedFrom(s, Counts(s))
  {
    CountsSample(s);
    CountsMeans(s);
    hide MaybeAdvanceHealth;
    hide Observe;
    hide Demo;
    hide Surroundings;
    hide GoodOdometry;
    hide StatusIsGood;
    hide CountedFrom;
  }

  lemma SampledIsReady(s: State, t: State)
    requires Prepared(s) && StatusIsGood(s.status) && SampledFrom(s, t)
    ensures AboutToCount(t) && t.gate.state == Starting
  {
    hide FollowsOn;
    hide GoodOdometry;
    hide StatusIsGood;
  }

  lemma CountedSampled(s: State, t: State, h: State)
    requires Prepared(s) && StatusIsGood(s.status) && SampledFrom(s, t) && CountedFrom(t, h)
    ensures FollowsOn(h, SECOND) && h.odometry.stampGuard == Some(SECOND)
    ensures h.gate.state == Healthy && CountsNext(h, LAST)
    ensures h.odometryHistory.committed == [FIRST, SECOND]
  {
    hide Pose;
    hide GoodOdometry;
    hide StatusIsGood;
  }

  lemma FirstHealthyMeans()
    ensures FollowsOn(FirstHealthy(), SECOND) && FirstHealthy().odometry.stampGuard == Some(SECOND)
    ensures FirstHealthy().gate.state == Healthy && CountsNext(FirstHealthy(), LAST)
    ensures FirstHealthy().odometryHistory.committed == [FIRST, SECOND]
    ensures MaybeAdvanceHealth(Demo(), TwoSamples(WithGoodStatus()), 0) == Success(FirstHealthy())
  {
    GoodStatusFirst();
    var s, t := WithGoodStatus(), TwoSamples(WithGoodStatus());
    assert FirstHealthy() == Counts(t);
    hide *;
    TwoSamplesFrom(s);
    SampledIsReady(s, t);
    CountsNow(t);
    CountedSampled(s, t, Counts(t));
  }

  lemma HealthyStep()
    ensures Step(Demo(), WithGoodStatus(), FirstSample()) == Success(WarmUpState(WithGoodStatus(), FIRST))
    ensures Step(Demo(), WarmUpState(WithGoodStatus(), FIRST), SecondSample()) == Success(FirstHealthy())
  {
    hide *;
    GoodStatusFirst();
    TwoSteps(WithGoodStatus());
    FirstHealthyMeans();
  }

  function AfterGap(s: State): State {
    RejectOdometry(Demo(), RatedLow(PairState(s, SECOND, LATE, false)), MarkTransient(OdometryStampGapExceeded))
  }

  lemma GapMeans(s: State)
    requires FollowsOn(s, SECOND) && s.odometry.stampGuard == Some(SECOND) && CountsNext(s, LAST)
    requires s.odometryHistory.committed == [FIRST, SECOND] && s.gate.state == Healthy
    ensures var t := AfterGap(s);
            && FollowsOn(t, LATE) && t.odometry.stampGuard == Some(SECOND) && CountsNext(t, LAST)
            && t.gate.state == TransientFault && t.odometryHistory.committed == [FIRST, SECOND, LATE]
  {
    hide Pose;
    hide Demo;
    hide MeanRate;
    hide MaximumGap;
    assert [FIRST, SECOND] + [LATE] == [FIRST, SECOND, LATE];
  }

  lemma NextMeans(s: State)
    requires FollowsOn(s, LATE) && s.odometry.stampGuard == Some(SECOND) && CountsNext(s, LAST)
    requires s.gate.state == TransientFault && s.odometryHistory.committed == [FIRST, SECOND, LATE]
    ensures var t := AcceptedState(s, LATE, LAST);
            && AboutToCount(t) && t.gate.state == TransientFault
            && t.odometryHistory.committed == [FIRST, SECOND, LATE, LAST]
  {
    hide FollowsOn;
    hide GoodOdometry;
    hide StatusIsGood;
    hide AcceptedState;
    StampsInOrder();
    PairMeans(s, LATE, LAST);
    assert [FIRST, SECOND, LATE] + [LAST] == [FIRST, SECOND, LATE, LAST];
  }

  function Quarantined(): State {
    AfterGap(FirstHealthy())
  }

  function HealthyAgain(): State {
    Counts(AcceptedState(Quarantined(), LATE, LAST))
  }

  lemma LateStep()
    ensures Step(Demo(), FirstHealthy(), LateSample()) == Success(Quarantined())
    ensures FollowsOn(Quarantined(), LATE) && Quarantined().odometry.stampGuard == Some(SECOND)
    ensures CountsNext(Quarantined(), LAST) && Quarantined().gate.state == TransientFault
    ensures Quarantined().odometryHistory.committed == [FIRST, SECOND, LATE]
  {
    var h := FirstHealthy();
    hide Demo;
    hide Step;
    hide Sample;
    hide FollowsOn;
    hide CountsNext;
    hide FirstHealthy;
    hide RejectOdometry;
    hide Pose;
    FirstHealthyMeans();
    GapMeans(h);
    GapStep(h);
    hide RatedLow;
  }

  lemma AgainStep()
    ensures Step(Demo(), Quarantined(), LastSample()) == Success(HealthyAgain())
    ensures HealthyAgain().gate.state == Healthy
    ensures HealthyAgain().odometryHistory.committed == [FIRST, SECOND, LATE, LAST]
  {
    hide Demo;
    hide Step;
    hide Sample;
    hide StampToNanoseconds;
    hide FollowsOn;
    hide CountsNext;
    hide AboutToCount;
    hide MaybeAdvanceHealth;
    hide Quarantined;
    hide Counts;
    LateStep();
    var n := AcceptedState(Quarantined(), LATE, LAST);
    NextMeans(Quarantined());
    Stamped();
    StampsInOrder();
    PairStep(Quarantined(), LATE, 3, 500_000_000, LAST);
    hide AcceptedState;
    CountsNow(n);
  }

  function QuarantineEvents(): seq<Event> {
    FirstTwo() + [GoodStatus()] + [FirstSample()] + [SecondSample()] + [LateSample()] + [LastSample()]
  }

  /** The gate can be Healthy at the (W - 1 + N)-th sample committed since a gap: the quarantine's bound is attained. */
  lemma QuarantineIsTight()
    ensures ValidContract(Demo())
    ensures var s, h := StateAfter(Demo(), 0, QuarantineEvents()), Demo().health;
            && GapAt(Demo(), s.odometryHistory.committed, 2)
            && s.gate.state == Healthy
            && |s.odometryHistory.committed| - 2 == h.odometryRateWindowSamples - 1 + h.recoveryConsecutiveSamples
  {
    ContractIsValid();
    DemoIs();
    GapThere();
    hide ValidContract;
    hide GapAt;
    hide Demo;
    hide Step;
    hide Run;
    hide Evidenced;
    hide WithGoodStatus;
    hide WarmUpState;
    hide FirstHealthy;
    hide Quarantined;
    hide HealthyAgain;
    hide FirstTwo;
    hide GoodStatus;
    hide FirstSample;
    hide SecondSample;
    hide LateSample;
    hide LastSample;
    hide StateAfter;
    hide FollowsOn;
    hide CountsNext;
    hide Prepared;
    hide StatusIsGood;
    PreparedRun();
    GoodStatusFirst();
    HealthyStep();
    LateStep();
    AgainStep();
    var e := FirstTwo();
    RunExtends(Demo(), 0, e, GoodStatus(), Evidenced(), WithGoodStatus());
    e := e + [GoodStatus()];
    RunExtends(Demo(), 0, e, FirstSample(), WithGoodStatus(), WarmUpState(WithGoodStatus(), FIRST));
    e := e + [FirstSample()];
    RunExtends(Demo(), 0, e, SecondSample(), WarmUpState(WithGoodStatus(), FIRST), FirstHealthy());
    e := e + [SecondSample()];
    RunExtends(Demo(), 0, e, LateSample(), FirstHealthy(), Quarantined());
    e := e + [LateSample()];
    RunExtends(Demo(), 0, e, LastSample(), Quarantined(), HealthyAgain());
    StateInv(Demo(), 0, QuarantineEvents());
  }

  lemma GapThere()
    ensures GapAt(Demo(), [FIRST, SECOND, LATE, LAST], 2)
  {
    DemoIs();
    hide Demo;
    assert Seconds(LATE - SECOND) == 1.5;
  }

  // ----- the third run: old evidence beside erased evidence -----

  const LENS := DRIVER.(name := "lens")
  const LENS_STATUS := DRIVER_STATUS.(name := "lens")

  /** The contract with two required diagnostics of one publisher. */
  function TwoDrivers(): Contract {
    Demo().(input := Demo().input.(requiredDiagnostics := [DRIVER, LENS]))
  }

  function BothNamed(): seq<DiagnosticStatus> {
    [DRIVER_STATUS, LENS_STATUS]
  }

  /** The driver comes twice, so the lens is never reached. */
  function DriverTwice(): seq<DiagnosticStatus> {
    [DRIVER_STATUS, DRIVER_STATUS, LENS_STATUS]
  }

  function FromDriver(statuses: seq<DiagnosticStatus>): Event {
    At(Diagnostics(DiagnosticsMessage(Time(1, 0), statuses), 7, [Endpoint(7, "/driver")]))
  }

  lemma TwoDriversValid()
    ensures ValidContract(TwoDrivers())
  {
    ContractIsValid();
    DriverIsValid();
    SomeText("lens");
    assert |"lens"| < |OWN_DIAGNOSTIC_SUFFIX|;
    LensIsValid();
    hide ValidRequired;
    hide NonemptyText;
    hide AbsoluteName;
    assert TwoDrivers().input.requiredDiagnostics[1].name[0] == 'l';
    assert TwoDrivers().input.requiredDiagnostics[0].name[0] == 'd';
  }

  lemma LensIsValid()
    ensures ValidRequired(LENS)
  {
    SomeText("lens");
    DriverIsValid();
    hide NonemptyText;
    hide AbsoluteName;
    assert |"lens"| < |OWN_DIAGNOSTIC_SUFFIX|;
  }

  lemma TwoDriversRequire()
    ensures TwoDrivers().input.requiredDiagnostics == [DRIVER, LENS]
    ensures TwoDrivers().health == Demo().health
    ensures FindRequired([DRIVER, LENS], "driver") == Some(DRIVER)
    ensures FindRequired([DRIVER, LENS], "lens") == Some(LENS)
  {
    hide Demo;
    assert "driver"[0] != "lens"[0];
    assert [DRIVER, LENS][1..] == [LENS];
    assert FindRequired([LENS], "lens") == Some(LENS);
  }

  lemma FindsBoth()
    ensures Collect([DRIVER, LENS], BothNamed()) ==
            Collected([Candidate(DRIVER_STATUS, DRIVER), Candidate(LENS_STATUS, LENS)], None, 2)
  {
    TwoDriversRequire();
    hide FindRequired;
    var one := [DRIVER_STATUS];
    assert BothNamed()[..1] == one;
    assert one[..0] == [];
    assert Collect([DRIVER, LENS], []) == Collected([], None, 0);
    assert CandidateNames([]) == {};
    assert Collect([DRIVER, LENS], one) == Collected([Candidate(DRIVER_STATUS, DRIVER)], None, 1);
    assert "driver"[0] != "lens"[0];
  }

  lemma FindsTwice()
    ensures Collect([DRIVER, LENS], DriverTwice()).duplicate == Some("driver")
    ensures NamedTwice([DRIVER, LENS], DriverTwice(), 0, 1)
    ensures "lens" in RequiredNamesIn([DRIVER, LENS], DriverTwice())
  {
    TwoDriversRequire();
    hide FindRequired;
    var one, two := [DRIVER_STATUS], [DRIVER_STATUS, DRIVER_STATUS];
    assert DriverTwice()[..2] == two;
    assert two[..1] == one;
    assert one[..0] == [];
    assert Collect([DRIVER, LENS], []) == Collected([], None, 0);
    assert CandidateNames([]) == {};
    assert Collect([DRIVER, LENS], one) == Collected([Candidate(DRIVER_STATUS, DRIVER)], None, 1);
    var found := [Candidate(DRIVER_STATUS, DRIVER)];
    assert found[0].status.name in CandidateNames(found);
    assert Collect([DRIVER, LENS], two).duplicate == Some("driver");
    assert DriverTwice()[2].name == "lens";
  }

  lemma BothSatisfy()
    ensures Satisfies(Candidate(DRIVER_STATUS, DRIVER)) && Satisfies(Candidate(LENS_STATUS, LENS))
  {
    assert DRIVER_STATUS.values[0] == ("state", "ready");
  }

  lemma BothSent(candidates: seq<Candidate>)
    requires candidates == [Candidate(DRIVER_STATUS, DRIVER), Candidate(LENS_STATUS, LENS)]
    ensures SourceFault(candidates, 7, [Endpoint(7, "/driver")]) == None
  {
    var publishers := [Endpoint(7, "/driver")];
    assert publishers[..0] == [];
    assert MatchingNodes([], 7) == [];
    assert CountNode([], "/driver") == 0;
  }

  lemma BothAdmissible()
    ensures Admissible(TwoDrivers(), StateAfterNothing().diagnostics, FIRST,
                       DiagnosticsMessage(Time(1, 0), BothNamed()), 7, [Endpoint(7, "/driver")])
  {
    TwoDriversRequire();
    FindsBoth();
    BothSatisfy();
    var candidates := [Candidate(DRIVER_STATUS, DRIVER), Candidate(LENS_STATUS, LENS)];
    BothSent(candidates);
    Stamped();
    FirstInDomain();
    NamesRequired();
    hide Collect;
    hide Satisfies;
    hide SourceFault;
    hide StampToNanoseconds;
    hide ClockDomainMatches;
    hide TwoDrivers;
    hide BothNamed;
    hide FindRequired;
    forall n | n in CandidateNames(candidates)
      ensures n in StateAfterNothing().diagnostics.guards && StateAfterNothing().diagnostics.guards[n] == None
    {
      var i :| 0 <= i < |candidates| && candidates[i].status.name == n;
      assert n == "driver" || n == "lens";
    }
  }

  function StateAfterNothing(): State {
    InitialState(TwoDrivers(), 0)
  }

  lemma FirstInDomain()
    ensures ClockDomainMatches(TwoDrivers(), FIRST, FIRST) == Success(true)
  {
    InClockDomain(FIRST);
    TwoDriversRequire();
    hide Demo;
  }

  lemma NamesRequired()
    ensures "driver" in DiagnosticNames([DRIVER, LENS]) && "lens" in DiagnosticNames([DRIVER, LENS])
  {
    assert [DRIVER, LENS][0].name == "driver" && [DRIVER, LENS][1].name == "lens";
  }

  lemma NamesIn()
    ensures "driver" in RequiredNamesIn([DRIVER, LENS], BothNamed())
    ensures "lens" in RequiredNamesIn([DRIVER, LENS], BothNamed())
  {
    TwoDriversRequire();
    hide FindRequired;
    assert BothNamed()[0].name == "driver" && BothNamed()[1].name == "lens";
  }

  lemma AdmissibleStores(c: Contract, s: State, t: State, e: Event)
    requires e.input.Diagnostics?
    requires AllOrNothing(c, s, t, e.now, e.rosNow, e.input.message, e.input.publisherGid, e.input.publishers)
    requires Admissible(c, s.diagnostics, e.rosNow, e.input.message, e.input.publisherGid, e.input.publishers)
    ensures RequiredNamesIn(c.input.requiredDiagnostics, e.input.message.statuses) <= t.diagnostics.observations.Keys
  {
    hide Admissible;
    hide NewEvidence;
    hide RequiredNamesIn;
    hide StampToNanoseconds;
  }

  lemma FromDriverIs(statuses: seq<DiagnosticStatus>)
    ensures var e := FromDriver(statuses);
            && e.input == Diagnostics(DiagnosticsMessage(Time(1, 0), statuses), 7, [Endpoint(7, "/driver")])
            && e.rosNow == FIRST && [e] != [] && [e][0] == e && [e][..0] == []
  {
  }

  lemma StartsThere()
    ensures Run(TwoDrivers(), 0, []) == Success(StateAfterNothing())
  {
    hide TwoDrivers;
    hide InitialState;
  }

  /** After the first message the node has evidence of both. */
  lemma BothEvidenced()
    ensures ValidContract(TwoDrivers())
    ensures var d := StateAfter(TwoDrivers(), 0, [FromDriver(BothNamed())]).diagnostics;
            "driver" in d.observations && "lens" in d.observations
  {
    hide *;
    TwoDriversValid();
    TwoDriversRequire();
    NamesIn();
    BothAdmissible();
    FromDriverIs(BothNamed());
    var e := FromDriver(BothNamed());
    StartsThere();
    StateInv(TwoDrivers(), 0, []);
    EvidenceAllOrNothing(TwoDrivers(), 0, [e]);
    AdmissibleStores(TwoDrivers(), StateAfterNothing(), StateAfter(TwoDrivers(), 0, [e]), e);
  }

  /**
   A message that names the driver twice and the lens once erases the driver's evidence and leaves that of the lens: it
   replaces neither and does not erase both.
   */
  lemma OldEvidenceStays()
    ensures ValidContract(TwoDrivers())
    ensures var first, second := FromDriver(BothNamed()), FromDriver(DriverTwice());
            var s, t := StateAfter(TwoDrivers(), 0, [first]), StateAfter(TwoDrivers(), 0, [first, second]);
            && !ReplacedOrErased(TwoDrivers(), s, t, second.input.message, second.now)
            && "lens" in s.diagnostics.observations && "lens" in t.diagnostics.observations
            && t.diagnostics.observations["lens"] == s.diagnostics.observations["lens"]
            && "driver" in s.diagnostics.observations && "driver" !in t.diagnostics.observations
            && t.gate.state == LatchedFault
  {
    BothEvidenced();
    TwoDriversRequire();
    FindsTwice();
    assert "driver"[0] != "lens"[0];
    var first, second := FromDriver(BothNamed()), FromDriver(DriverTwice());
    assert second.input.message.statuses == DriverTwice();
    hide ValidContract;
    hide StateAfter;
    hide TwoDrivers;
    hide BothNamed;
    hide DriverTwice;
    hide FromDriver;
    hide Collect;
    hide NamedTwice;
    hide RequiredNamesIn;
    hide ReplacedOrErased;
    hide Replaced;
    hide SourceFault;
    hide StampToNanoseconds;
    hide ClockDomainMatches;
    hide StampOrderAfter;
    hide Satisfies;
    hide FindRequired;
    assert [first, second][..1] == [first];
    EvidenceAllOrNothing(TwoDrivers(), 0, [first, second]);
    ReplacedOrErasedExactly(TwoDrivers(), 0, [first, second]);
  }
}
