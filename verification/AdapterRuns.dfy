/** Theorems about every run of the node: any contract, any sequence of callbacks. */
module AdapterRuns {
  import opened Contracts
  import opened Reasons
  import opened Geometry
  import opened RigidTransforms
  import opened Stamps
  import opened HealthGate
  import opened ContractConfig
  import opened OdometryValidation
  import opened AdapterState
  import opened AdapterSteps
  import opened AdapterInvariant
  import opened DiagnosticEvidence
  import opened AdapterEffects

  // ----- no callback throws -----

  /** Every callback reaches a decision about the gate, except on a diagnostics message that names nothing required. */
  predicate Deciding(c: Contract, e: Event) {
    e.input.Diagnostics? ==>
      exists i | 0 <= i < |e.input.message.statuses| ::
        FindRequired(c.input.requiredDiagnostics, e.input.message.statuses[i].name).Some?
  }

  lemma StepKeepsInv(c: Contract, s: State, e: Event)
    requires ValidContract(c) && Inv(c, s)
    ensures Step(c, s, e).Success?
    ensures Inv(c, Step(c, s, e).value)
    ensures if Deciding(c, e) then Decided(c, Step(c, s, e).value, e.now) else Step(c, s, e).value == s
  {
    hide ValidContract;
    hide Inv;
    hide HealthReason;
    hide OnOdometry;
    hide OnVisualSlamStatus;
    hide OnUpstreamDiagnostics;
    hide OnDiagnosticTimer;
    hide FindRequired;
    match e.input
    case Odometry(m) => OdometryKeepsInv(c, s, e.now, e.rosNow, m);
    case Status(m) => StatusKeepsInv(c, s, e.now, e.rosNow, m);
    case Timer(odometry, status) => TimerKeepsInv(c, s, e.now, odometry, status);
    case Diagnostics(m, gid, publishers) =>
      DiagnosticsKeepsInv(c, s, e.now, e.rosNow, m, gid, publishers);
      var names := RequiredNamesIn(c.input.requiredDiagnostics, m.statuses);
      if i :| 0 <= i < |m.statuses| && FindRequired(c.input.requiredDiagnostics, m.statuses[i].name).Some? {
        assert m.statuses[i].name in names;
      } else {
        assert names == {};
      }
  }

  /** Whatever the messages, the clocks and the ROS graph do, no callback lets an exception out. */
  lemma {:induction false} NoCallbackThrows(c: Contract, startedAt: int, events: seq<Event>)
    requires ValidContract(c)
    ensures Run(c, startedAt, events).Success?
    ensures Inv(c, Run(c, startedAt, events).value)
  {
    hide ValidContract;
    hide Inv;
    hide Step;
    if events == [] {
      InitialInv(c, startedAt);
    } else {
      var before := events[..|events| - 1];
      NoCallbackThrows(c, startedAt, before);
      StepKeepsInv(c, Run(c, startedAt, before).value, events[|events| - 1]);
    }
  }

  /** The state of a run. */
  ghost function StateAfter(c: Contract, startedAt: int, events: seq<Event>): State
    requires ValidContract(c)
  {
    NoCallbackThrows(c, startedAt, events);
    hide ValidContract;
    hide Inv;
    hide Run;
    Run(c, startedAt, events).value
  }

  lemma StateInv(c: Contract, startedAt: int, events: seq<Event>)
    requires ValidContract(c)
    ensures Run(c, startedAt, events) == Success(StateAfter(c, startedAt, events))
    ensures Inv(c, StateAfter(c, startedAt, events))
  {
    hide ValidContract;
    hide Inv;
    hide Run;
    NoCallbackThrows(c, startedAt, events);
  }

  lemma StateAfterSnoc(c: Contract, startedAt: int, events: seq<Event>)
    requires ValidContract(c) && events != []
    ensures Step(c, StateAfter(c, startedAt, events[..|events| - 1]), events[|events| - 1]) ==
            Success(StateAfter(c, startedAt, events))
    ensures Inv(c, StateAfter(c, startedAt, events[..|events| - 1])) && Inv(c, StateAfter(c, startedAt, events))
  {
    hide ValidContract;
    hide Inv;
    hide Step;
    hide StateAfter;
    StateInv(c, startedAt, events[..|events| - 1]);
    StateInv(c, startedAt, events);
  }

  // ----- whole-run health safety -----

  /**
   After every callback that decides, a gate that is Healthy or Recovering means that the inputs are healthy at that
   very moment; the other callbacks change nothing at all.
   */
  lemma HealthSafety(c: Contract, startedAt: int, events: seq<Event>)
    requires ValidContract(c) && events != []
    ensures var s, e := StateAfter(c, startedAt, events), events[|events| - 1];
            if Deciding(c, e) then
              Trusting(s.gate.state) ==> HealthReason(c, s, e.now) == Success(InputHealthy)
            else s == StateAfter(c, startedAt, events[..|events| - 1])
  {
    hide ValidContract;
    hide Inv;
    hide Step;
    hide Run;
    hide HealthReason;
    hide Deciding;
    hide StateAfter;
    StateAfterSnoc(c, startedAt, events);
    StepKeepsInv(c, StateAfter(c, startedAt, events[..|events| - 1]), events[|events| - 1]);
  }

  /** At any later moment the inputs were still healthy when last evaluated, and have not been touched since. */
  lemma TrustWasEarned(c: Contract, startedAt: int, events: seq<Event>)
    requires ValidContract(c)
    ensures var s := StateAfter(c, startedAt, events);
            Trusting(s.gate.state) ==> HealthReason(c, s, s.gateHistory.evaluatedAt) == Success(InputHealthy)
  {
    hide ValidContract;
    hide DataInv;
    hide ObservedInv;
    hide FaultInv;
    hide MarkedInv;
    hide Run;
    hide HealthReason;
    hide Replay;
    hide StateAfter;
    StateInv(c, startedAt, events);
    var s := StateAfter(c, startedAt, events);
  }

  // ----- the window refines the history -----

  /** The deque is the last min(n, W) committed stamps; the metrics exist exactly when n >= W and are the deque's. */
  ghost predicate RefinesHistory(c: Contract, o: OdometryTrack, committed: seq<int>) {
    var n, W := |committed|, c.health.odometryRateWindowSamples;
    && |o.window| == (if n < W then n else W)
    && o.window == committed[n - |o.window|..]
    && (n > 0 ==> o.window != [] && o.sequenceGuard == Some(o.window[|o.window| - 1]))
    && (o.rateHz.Some? <==> n >= W) && (o.maximumGapSec.Some? <==> n >= W)
    && (n >= W ==>
          && WindowMetrics(o.window) == Success(Some(StampWindowMetrics(o.rateHz.value, o.maximumGapSec.value)))
          && MetricsMean(o.window, StampWindowMetrics(o.rateHz.value, o.maximumGapSec.value)))
  }

  lemma WindowRefines(c: Contract, o: OdometryTrack, h: OdometryHistory)
    requires WindowInv(c, o, h) && c.health.odometryRateWindowSamples >= 2
    ensures RefinesHistory(c, o, h.committed)
  {
    hide MeanRate;
    hide MaximumGap;
    hide MetricsMean;
    SuffixIncreasing(h.committed, c.health.odometryRateWindowSamples);
    if |h.committed| >= c.health.odometryRateWindowSamples {
      MetricsOfWindow(o.window);
    }
    hide StrictlyIncreasing;
    hide Positive;
  }

  /** In every run the committed stamps are positive and strictly increasing, and the window refines them. */
  lemma WindowRefinesHistory(c: Contract, startedAt: int, events: seq<Event>)
    requires ValidContract(c)
    ensures var s := StateAfter(c, startedAt, events);
            && StrictlyIncreasing(s.odometryHistory.committed) && Positive(s.odometryHistory.committed)
            && RefinesHistory(c, s.odometry, s.odometryHistory.committed)
  {
    hide ValidInput;
    hide ValidExtrinsic;
    hide AcceptedInv;
    hide CountersInv;
    hide StatusInv;
    hide DiagnosticsInv;
    hide GateInv;
    hide ObservedInv;
    hide FaultInv;
    hide MarkedInv;
    hide Run;
    hide LastStamps;
    hide MeanRate;
    hide MaximumGap;
    hide RefinesHistory;
    hide StateAfter;
    StateInv(c, startedAt, events);
    var s := StateAfter(c, startedAt, events);
    WindowRefines(c, s.odometry, s.odometryHistory);
    hide StrictlyIncreasing;
    hide Positive;
  }

  // ----- conservation -----

  function CountOdometry(events: seq<Event>): nat {
    if events == [] then 0
    else CountOdometry(events[..|events| - 1]) + (if events[|events| - 1].input.Odometry? then 1 else 0)
  }

  /** Every odometry message is accepted, rejected or one of the first W - 1 commits; shadow poses follow acceptance. */
  lemma {:induction false} OdometryConservation(c: Contract, startedAt: int, events: seq<Event>)
    requires ValidContract(c)
    ensures var s := StateAfter(c, startedAt, events);
            var n, W := |s.odometryHistory.committed|, c.health.odometryRateWindowSamples;
            && s.counters.received == CountOdometry(events)
            && s.counters.received == s.counters.accepted + s.counters.rejected + (if n < W then n else W - 1)
            && s.counters.shadowProcessed == s.counters.accepted == |s.odometryHistory.accepted|
            && s.counters.shadowPoseComputed == (if c.extrinsic.IsApproved() then s.counters.accepted else 0)
  {
    hide ValidInput;
    hide ValidExtrinsic;
    hide WindowInv;
    hide AcceptedInv;
    hide StatusInv;
    hide DiagnosticsInv;
    hide GateInv;
    hide ObservedInv;
    hide FaultInv;
    hide MarkedInv;
    hide Step;
    hide StateAfter;
    StateInv(c, startedAt, events);
    if events != [] {
      var before := events[..|events| - 1];
      OdometryConservation(c, startedAt, before);
      StateAfterSnoc(c, startedAt, events);
      StepCounts(c, StateAfter(c, startedAt, before), events[|events| - 1]);
    }
  }

  lemma StepCounts(c: Contract, s: State, e: Event)
    requires ValidContract(c) && Inv(c, s)
    ensures Step(c, s, e).Success?
    ensures Step(c, s, e).value.counters.received == s.counters.received + (if e.input.Odometry? then 1 else 0)
  {
    hide ValidContract;
    hide Inv;
    hide OnOdometry;
    hide OnVisualSlamStatus;
    hide OnUpstreamDiagnostics;
    hide OnDiagnosticTimer;
    hide OdometryEffect;
    hide EvidenceEffect;
    hide OneCall;
    match e.input
    case Odometry(m) => OdometryChanges(c, s, e.now, e.rosNow, m);
    case Status(m) => StatusChanges(c, s, e.now, e.rosNow, m);
    case Timer(odometry, status) => TimerChanges(c, s, e.now, odometry, status);
    case Diagnostics(m, gid, publishers) => DiagnosticsChanges(c, s, e.now, e.rosNow, m, gid, publishers);
  }

  // ----- one call per callback, and two latches that never come -----

  lemma StepCalls(c: Contract, s: State, e: Event)
    requires ValidContract(c) && Inv(c, s)
    ensures Step(c, s, e).Success?
    ensures OneCall(c, s.gateHistory, s.lastHealthObserved, Step(c, s, e).value)
  {
    hide ValidContract;
    hide Inv;
    hide OnOdometry;
    hide OnVisualSlamStatus;
    hide OnUpstreamDiagnostics;
    hide OnDiagnosticTimer;
    hide EvidenceEffect;
    hide OneCall;
    hide Settled;
    hide ClockDomainMatches;
    match e.input
    case Odometry(m) => OdometryChanges(c, s, e.now, e.rosNow, m);
    case Status(m) => StatusChanges(c, s, e.now, e.rosNow, m);
    case Timer(odometry, status) => TimerChanges(c, s, e.now, odometry, status);
    case Diagnostics(m, gid, publishers) => DiagnosticsChanges(c, s, e.now, e.rosNow, m, gid, publishers);
  }

  /** No callback calls the gate more than once, and only with ordinary events. */
  lemma {:induction false} CallsAreOrdinary(c: Contract, startedAt: int, events: seq<Event>)
    requires ValidContract(c)
    ensures var calls := StateAfter(c, startedAt, events).gateHistory.calls;
            |calls| <= |events| && forall i | 0 <= i < |calls| :: Ordinary(c, calls[i])
  {
    hide Inv;
    hide Step;
    hide ValidContract;
    hide Ordinary;
    hide CallMade;
    hide StateAfter;
    StateInv(c, startedAt, events);
    if events != [] {
      var before := events[..|events| - 1];
      CallsAreOrdinary(c, startedAt, before);
      StateAfterSnoc(c, startedAt, events);
      StepCalls(c, StateAfter(c, startedAt, before), events[|events| - 1]);
      var earlier := StateAfter(c, startedAt, before).gateHistory.calls;
      var calls := StateAfter(c, startedAt, events).gateHistory.calls;
      assert forall i | 0 <= i < |earlier| && calls != earlier :: calls[i] == calls[..|earlier|][i];
    }
  }

  /** Over exact reals neither INPUT_POSE_CONSTRUCTION_FAILED nor SHADOW_POSE_TRANSFORM_FAILED is ever raised. */
  lemma TransformLatchesUnreachable(c: Contract, startedAt: int, events: seq<Event>)
    requires ValidContract(c)
    ensures var calls := StateAfter(c, startedAt, events).gateHistory.calls;
            forall i | 0 <= i < |calls| :: calls[i].ObserveHealthySample? || !TransformFailure(calls[i].reason)
    ensures !TransformFailure(StateAfter(c, startedAt, events).gate.reason)
  {
    hide Inv;
    hide ValidContract;
    hide Run;
    hide RateCanBeLow;
    hide StateAfter;
    StateInv(c, startedAt, events);
    CallsAreOrdinary(c, startedAt, events);
    var s := StateAfter(c, startedAt, events);
    GateReplays(c, s);
    ReplayedReason(c.health.recoveryConsecutiveSamples, s.gateHistory.calls);
  }

  /** ODOMETRY_RATE_TOO_LOW is raised only if the minimum rate is above the reciprocal of the allowed gap. */
  lemma LowRateNeedsHighMinimum(c: Contract, startedAt: int, events: seq<Event>)
    requires ValidContract(c)
    ensures c.health.maximumOdometryStampGapSec > 0.0
    ensures MarkTransient(OdometryRateTooLow) in StateAfter(c, startedAt, events).gateHistory.calls
            || StateAfter(c, startedAt, events).gate.reason == OdometryRateTooLow ==>
              c.health.minimumOdometryRateHz > 1.0 / c.health.maximumOdometryStampGapSec
  {
    hide Inv;
    hide ValidInput;
    hide ValidExtrinsic;
    hide Run;
    hide StateAfter;
    StateInv(c, startedAt, events);
    CallsAreOrdinary(c, startedAt, events);
    var s := StateAfter(c, startedAt, events);
    GateReplays(c, s);
    ReasonWasCalled(c.health.recoveryConsecutiveSamples, s.gateHistory.calls);
  }

  /** The gate's reason is its own or that of some call. */
  lemma {:induction false} ReasonWasCalled(required: nat, calls: seq<GateEvent>)
    ensures Replay(required, calls).reason in {WaitingForInput, InputHealthy, RecoveryInProgress} ||
            exists i | 0 <= i < |calls| ::
              !calls[i].ObserveHealthySample? && calls[i].reason == Replay(required, calls).reason
  {
    if calls != [] {
      var before := calls[..|calls| - 1];
      ReasonWasCalled(required, before);
      assert forall i | 0 <= i < |before| :: before[i] == calls[i];
    }
  }

  lemma GateReplays(c: Contract, s: State)
    requires Inv(c, s)
    ensures s.gate == Replay(c.health.recoveryConsecutiveSamples, s.gateHistory.calls)
  {
    hide DataInv;
    hide HealthReason;
    hide ObservedInv;
    hide FaultInv;
    hide MarkedInv;
    hide Replay;
  }

  lemma ReplayedReason(required: nat, calls: seq<GateEvent>)
    requires forall i | 0 <= i < |calls| :: calls[i].ObserveHealthySample? || !TransformFailure(calls[i].reason)
    ensures !TransformFailure(Replay(required, calls).reason)
  {
    ReasonWasCalled(required, calls);
  }
}
