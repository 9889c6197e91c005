/**
 The adapter node as an object (adapter_node.cpp, adapter_node.hpp): its fields, its four callbacks, and its private
 helpers. Every method is proved to do what the step functions say; the theorems about runs are about those.
 */
module AdapterNode {
  import opened Contracts
  import opened Reasons
  import opened RigidTransforms
  import opened Stamps
  import opened HealthGate
  import opened ContractConfig
  import opened OdometryValidation
  import opened AdapterState
  import opened AdapterSteps
  import opened AdapterInvariant
  import opened DiagnosticEvidence
  import opened AdapterRuns

  class CuvslamLocalizationAdapter {
    const contract: Contract
    const healthGate: RuntimeHealthGate
    const odometrySequenceGuard: StrictStampGuard
    const stampGuard: StrictStampGuard
    const statusSequenceGuard: StrictStampGuard
    const statusStampGuard: StrictStampGuard
    const diagnosticSequenceGuards: map<string, StrictStampGuard>
    const startedAt: int

    var lastOdometryReceivedAt: Option<int>
    var lastOdometryObservedAt: Option<int>
    var lastStatusReceivedAt: Option<int>
    var lastHealthObservedStampNs: Option<int>
    var lastOdometryValid: bool
    var lastStatusValid: bool
    var upstreamDiagnostics: map<string, Observation>
    var recentOdometryStampsNs: seq<int>
    var observedOdometryRateHz: Option<real>
    var maximumRecentStampGapSec: Option<real>
    var lastInputPose: Option<RigidTransform>
    var lastShadowPose: Option<RigidTransform>
    var publishers: PublisherEvidence
    var counters: Counters

    ghost var odometryHistory: OdometryHistory
    ghost var gateHistory: GateHistory

    /** The objects that belong to the node, apart from itself. */
    ghost function Parts(): set<object> {
      {healthGate, odometrySequenceGuard, stampGuard, statusSequenceGuard, statusStampGuard}
      + diagnosticSequenceGuards.Values
    }

    ghost function DiagnosticGuards(): map<string, Option<int>>
      reads diagnosticSequenceGuards.Values
    {
      map n | n in diagnosticSequenceGuards :: diagnosticSequenceGuards[n].lastAcceptedNs
    }

    ghost function OdometryValue(): OdometryTrack
      reads `lastOdometryReceivedAt, `lastOdometryObservedAt, `lastOdometryValid, `recentOdometryStampsNs
      reads `observedOdometryRateHz, `maximumRecentStampGapSec, `lastInputPose, `lastShadowPose
      reads odometrySequenceGuard, stampGuard
    {
      OdometryTrack(odometrySequenceGuard.lastAcceptedNs, stampGuard.lastAcceptedNs, lastOdometryReceivedAt,
                    lastOdometryObservedAt, lastOdometryValid, recentOdometryStampsNs, observedOdometryRateHz,
                    maximumRecentStampGapSec, lastInputPose, lastShadowPose)
    }

    ghost function StatusValue(): StatusTrack
      reads `lastStatusReceivedAt, `lastStatusValid, statusSequenceGuard, statusStampGuard
    {
      StatusTrack(statusSequenceGuard.lastAcceptedNs, statusStampGuard.lastAcceptedNs, lastStatusReceivedAt,
                  lastStatusValid)
    }

    /** The node's state as a value. */
    ghost function Value(): State
      reads this, Parts()
    {
      State(healthGate.Value(), OdometryValue(), StatusValue(),
            DiagnosticTrack(DiagnosticGuards(), upstreamDiagnostics), publishers,
            lastHealthObservedStampNs, startedAt, counters, odometryHistory, gateHistory)
    }

    /** The parts are distinct, and the gate is the contract's. */
    ghost predicate Wired()
      reads `gateHistory, healthGate
    {
      && odometrySequenceGuard != stampGuard && odometrySequenceGuard != statusSequenceGuard
      && odometrySequenceGuard != statusStampGuard && stampGuard != statusSequenceGuard
      && stampGuard != statusStampGuard && statusSequenceGuard != statusStampGuard
      && {odometrySequenceGuard, stampGuard, statusSequenceGuard, statusStampGuard} !! diagnosticSequenceGuards.Values
      && (forall m, n | m in diagnosticSequenceGuards && n in diagnosticSequenceGuards && m != n ::
            diagnosticSequenceGuards[m] != diagnosticSequenceGuards[n])
      && healthGate.Valid()
      && healthGate.recoveryRequired == contract.health.recoveryConsecutiveSamples
      && gateHistory.calls == healthGate.calls
    }

    /** What holds between callbacks. */
    ghost predicate Valid()
      reads this, Parts()
    {
      ValidContract(contract) && Wired() && Inv(contract, Value())
    }

    /** A guard of its own for every required diagnostic. */
    static method NewGuards(required: seq<RequiredDiagnostic>) returns (guards: map<string, StrictStampGuard>)
      ensures guards.Keys == DiagnosticNames(required)
      ensures fresh(guards.Values)
      ensures forall n | n in guards :: guards[n].lastAcceptedNs == None
      ensures forall m, n | m in guards && n in guards && m != n :: guards[m] != guards[n]
    {
      guards := map[];
      for i := 0 to |required|
        invariant guards.Keys == DiagnosticNames(required[..i])
        invariant fresh(guards.Values)
        invariant forall n | n in guards :: guards[n].lastAcceptedNs == None
        invariant forall m, n | m in guards && n in guards && m != n :: guards[m] != guards[n]
      {
        var guard := new StrictStampGuard();
        assert forall n | n in guards :: guards[n] in guards.Values;
        guards := guards[required[i].name := guard];
        NamesGrow(required, i);
      }
      assert required[..|required|] == required;
    }

    static lemma NamesGrow(required: seq<RequiredDiagnostic>, i: nat)
      requires i < |required|
      ensures DiagnosticNames(required[..i + 1]) == DiagnosticNames(required[..i]) + {required[i].name}
    {
      var longer := required[..i + 1];
      assert longer[i] == required[i];
      assert forall j | 0 <= j < i :: longer[j] == required[..i][j];
    }

    constructor (contract: Contract, now: int)
      requires ValidContract(contract)
      ensures Valid() && fresh(Parts())
      ensures this.contract == contract && Value() == InitialState(contract, now)
    {
      hide Inv;
      hide ValidContract;
      hide Replay;
      hide WellFormed;
      hide DiagnosticNames;
      RecoveryPositive(contract);
      this.contract := contract;
      healthGate := new RuntimeHealthGate(contract.health.recoveryConsecutiveSamples);
      odometrySequenceGuard := new StrictStampGuard();
      stampGuard := new StrictStampGuard();
      statusSequenceGuard := new StrictStampGuard();
      statusStampGuard := new StrictStampGuard();
      var guards := NewGuards(contract.input.requiredDiagnostics);
      diagnosticSequenceGuards := guards;
      startedAt := now;
      lastOdometryReceivedAt, lastOdometryObservedAt, lastStatusReceivedAt := None, None, None;
      lastHealthObservedStampNs := None;
      lastOdometryValid, lastStatusValid := false, false;
      upstreamDiagnostics := map[];
      recentOdometryStampsNs := [];
      observedOdometryRateHz, maximumRecentStampGapSec := None, None;
      lastInputPose, lastShadowPose := None, None;
      publishers := PublisherEvidence(0, false, 0, false);
      counters := NO_COUNTS;
      odometryHistory := OdometryHistory([], []);
      gateHistory := GateHistory([], [], 0, 0, 0, false, now, None);
      new;
      assert forall o | o in Parts() :: fresh(o);
      hide Parts;
      assert Wired();
      hide Wired;
      hide Value;
      hide OdometryValue;
      hide StatusValue;
      hide DiagnosticGuards;
      hide InitialState;
      InitialInv(contract, now);
      InitialReplay(contract.health.recoveryConsecutiveSamples);
      InitialValue();
    }

    lemma InitialValue()
      requires healthGate.Value() == INITIAL_GATE
      requires odometrySequenceGuard.lastAcceptedNs == None && stampGuard.lastAcceptedNs == None
      requires statusSequenceGuard.lastAcceptedNs == None && statusStampGuard.lastAcceptedNs == None
      requires diagnosticSequenceGuards.Keys == DiagnosticNames(contract.input.requiredDiagnostics)
      requires forall n | n in diagnosticSequenceGuards :: diagnosticSequenceGuards[n].lastAcceptedNs == None
      requires lastOdometryReceivedAt == None && lastOdometryObservedAt == None && lastStatusReceivedAt == None
      requires lastHealthObservedStampNs == None && !lastOdometryValid && !lastStatusValid
      requires upstreamDiagnostics == map[] && recentOdometryStampsNs == []
      requires observedOdometryRateHz == None && maximumRecentStampGapSec == None
      requires lastInputPose == None && lastShadowPose == None
      requires publishers == PublisherEvidence(0, false, 0, false) && counters == NO_COUNTS
      requires odometryHistory == OdometryHistory([], [])
      requires gateHistory == GateHistory([], [], 0, 0, 0, false, startedAt, None)
      ensures Value() == InitialState(contract, startedAt)
    {
      hide DiagnosticNames;
      hide WellFormed;
      assert DiagnosticGuards() == map n | n in DiagnosticNames(contract.input.requiredDiagnostics) :: None;
    }

    static lemma RecoveryPositive(c: Contract)
      requires ValidContract(c)
      ensures c.health.recoveryConsecutiveSamples > 0
    {
      hide ValidInput;
      hide ValidExtrinsic;
    }

    static lemma InitialReplay(required: nat)
      ensures Replay(required, []) == INITIAL_GATE
    {
    }

    // ----- the gate -----

    method MarkFault(event: GateEvent)
      requires Wired() && IsFault(event)
      modifies this`gateHistory, healthGate
      ensures Wired() && Value() == Fault(contract, old(Value()), event)
    {
      hide Replay;
      hide ClosedForm;
      hide Apply;
      hide DiagnosticGuards;
      hide StatusValue;
      hide WellFormed;
      ghost var pending := Pending(Value());
      match event {
        case MarkTransient(reason) => healthGate.MarkTransientFor(reason);
        case MarkLatched(reason) => healthGate.MarkLatchedFor(reason);
        case _ =>
      }
      GateApplied(event);
      gateHistory := gateHistory.(calls := healthGate.calls,
                                  faultCommitted := |odometryHistory.committed|,
                                  faultAccepted := |odometryHistory.accepted|,
                                  faultObserved := |gateHistory.observed|,
                                  faultPending := pending);
    }

    /** The gate's value after a call, from its value before. */
    twostate lemma GateApplied(event: GateEvent)
      requires old(healthGate.Valid()) && healthGate.Valid()
      requires healthGate.calls == old(healthGate.calls) + [event]
      ensures healthGate.Value() == Apply(healthGate.recoveryRequired, old(healthGate.Value()), event)
    {
      ReplayAppend(healthGate.recoveryRequired, old(healthGate.calls), event);
    }

    method ObserveSample()
      requires Wired() && stampGuard.lastAcceptedNs.Some?
      modifies this`gateHistory, this`lastHealthObservedStampNs, healthGate
      ensures Wired() && Value() == Observe(contract, old(Value()))
    {
      hide Replay;
      hide ClosedForm;
      hide Apply;
      hide DiagnosticGuards;
      hide StatusValue;
      hide WellFormed;
      healthGate.ObserveHealthy();
      GateApplied(ObserveHealthySample);
      lastHealthObservedStampNs := stampGuard.lastAcceptedNs;
      gateHistory := gateHistory.(calls := healthGate.calls,
                                  observed := gateHistory.observed + [stampGuard.lastAcceptedNs.value]);
    }

    method RejectOdometrySample(event: GateEvent)
      requires Wired() && IsFault(event)
      modifies this, healthGate
      ensures Wired() && Value() == RejectOdometry(contract, old(Value()), event)
    {
      hide Fault;
      hide Wired;
      hide DiagnosticGuards;
      hide StatusValue;
      hide WellFormed;
      counters := counters.(rejected := counters.rejected + 1);
      lastOdometryValid := false;
      MarkFault(event);
    }

    // ----- the health predicate -----

    method DiagnosticsHealth(now: int) returns (reason: Reason)
      ensures reason == DiagnosticsReason(contract.input.requiredDiagnostics, upstreamDiagnostics,
                                          contract.health.diagnosticStaleAfterSec, now)
    {
      var required, stale := contract.input.requiredDiagnostics, contract.health.diagnosticStaleAfterSec;
      for i := 0 to |required|
        invariant DiagnosticsReason(required, upstreamDiagnostics, stale, now) ==
                  DiagnosticsReason(required[i..], upstreamDiagnostics, stale, now)
      {
        if required[i].name !in upstreamDiagnostics {
          return WaitingForUpstreamDiagnostic;
        }
        var observation := upstreamDiagnostics[required[i].name];
        if observation.level > required[i].maximumLevel {
          return UpstreamDiagnosticNotOk;
        }
        if Seconds(now - observation.receivedAt) > stale {
          return UpstreamDiagnosticStale;
        }
      }
      return InputHealthy;
    }

    method InputsAreHealthy(now: int) returns (reason: Result<Reason>)
      ensures reason == HealthReason(contract, Value(), now)
    {
      var p := publishers;
      if p.odometryCount == 0 {
        return Success(WaitingForOdometryPublisher);
      }
      if p.odometryCount != 1 || !p.odometryIdentityValid {
        return Success(OdometryPublisherAuthorityInvalid);
      }
      if p.statusCount == 0 {
        return Success(WaitingForTrackingStatusPublisher);
      }
      if p.statusCount != 1 || !p.statusIdentityValid {
        return Success(TrackingStatusPublisherAuthorityInvalid);
      }
      if lastOdometryReceivedAt.None? {
        if observedOdometryRateHz.None? && |recentOdometryStampsNs| > 0 {
          return Success(WaitingForOdometryRateWindow);
        }
        if counters.received > 0 && !lastOdometryValid {
          return Success(OdometryInvalid);
        }
        return Success(WaitingForOdometry);
      }
      if lastStatusReceivedAt.None? {
        return Success(WaitingForTrackingStatus);
      }
      if !lastOdometryValid {
        return Success(OdometryInvalid);
      }
      if !lastStatusValid {
        return Success(TrackingStateNotAccepted);
      }
      if observedOdometryRateHz.None? {
        return Success(WaitingForOdometryRateWindow);
      }
      if observedOdometryRateHz.value < contract.health.minimumOdometryRateHz {
        return Success(OdometryRateTooLow);
      }
      if maximumRecentStampGapSec.None?
         || maximumRecentStampGapSec.value > contract.health.maximumOdometryStampGapSec {
        return Success(OdometryStampGapExceeded);
      }
      var odometryStamp, statusStamp := stampGuard.lastAcceptedNs, statusStampGuard.lastAcceptedNs;
      if odometryStamp.None? || statusStamp.None? {
        return Success(WaitingForCrossStreamTimestamps);
      }
      var skew :- AbsoluteStampDifferenceSeconds(odometryStamp.value, statusStamp.value);
      if skew > contract.health.maximumStatusOdometrySkewSec {
        return Success(OdometryStatusSkewExceeded);
      }
      if Seconds(now - lastOdometryReceivedAt.value) > contract.health.odometryStaleAfterSec {
        return Success(OdometryStale);
      }
      if Seconds(now - lastStatusReceivedAt.value) > contract.health.trackingStaleAfterSec {
        return Success(TrackingStatusStale);
      }
      var diagnostics := DiagnosticsHealth(now);
      return Success(diagnostics);
    }

    method MaybeAdvance(now: int) returns (done: Result<()>)
      requires Wired()
      modifies this`gateHistory, this`lastHealthObservedStampNs, healthGate
      ensures Outcome(MaybeAdvanceHealth(contract, old(Value()), now), done)
    {
      hide HealthReason;
      hide RuntimeHealthGate.Valid;
      hide Fault;
      hide Observe;
      hide DiagnosticGuards;
      hide StatusValue;
      hide WellFormed;
      if healthGate.state == LatchedFault {
        return Success(());
      }
      var reason :- InputsAreHealthy(now);
      gateHistory := gateHistory.(evaluatedAt := now);
      if reason != InputHealthy {
        if healthGate.state != Starting {
          MarkFault(MarkTransient(reason));
        }
        return Success(());
      }
      var stamp := stampGuard.lastAcceptedNs;
      if stamp.None? || lastHealthObservedStampNs == stamp {
        return Success(());
      }
      ObserveSample();
      return Success(());
    }

    /** A method ends as its step function says: in the state it gives, or with the exception it gives. */
    ghost predicate Outcome(step: Result<State>, done: Result<()>)
      reads this, Parts()
    {
      match step
      case Success(s) => done.Success? && Wired() && Value() == s
      case Failure(e) => done == Failure(e)
    }
 
    // ----- odometry -----

    /** A track method ends as its step function says. */
    ghost predicate TrackOutcome(step: Result<OdometryTrack>, done: Result<()>)
      reads this, odometrySequenceGuard, stampGuard
    {
      match step
      case Success(o) => done.Success? && OdometryValue() == o
      case Failure(e) => done == Failure(e)
    }

    method UpdateRate(stampNs: int) returns (done: Result<()>)
      modifies `recentOdometryStampsNs, `observedOdometryRateHz, `maximumRecentStampGapSec
      ensures TrackOutcome(UpdateOdometryRate(contract, old(OdometryValue()), stampNs), done)
    {
      hide WindowMetrics;
      hide WellFormed;
      var n := contract.health.odometryRateWindowSamples;
      recentOdometryStampsNs := recentOdometryStampsNs + [stampNs];
      ghost var window := LastStamps(recentOdometryStampsNs, n);
      while |recentOdometryStampsNs| > n
        invariant LastStamps(recentOdometryStampsNs, n) == window
        invariant observedOdometryRateHz == old(observedOdometryRateHz)
        invariant maximumRecentStampGapSec == old(maximumRecentStampGapSec)
        decreases |recentOdometryStampsNs|
      {
        recentOdometryStampsNs := recentOdometryStampsNs[1..];
      }
      if |recentOdometryStampsNs| < n {
        observedOdometryRateHz := None;
        maximumRecentStampGapSec := None;
        return Success(());
      }
      var metrics :- ComputeStampWindowMetrics(recentOdometryStampsNs);
      if metrics.None? {
        return Failure(BadOptionalAccess);
      }
      observedOdometryRateHz := Some(metrics.value.rateHz);
      maximumRecentStampGapSec := Some(metrics.value.maximumGapSec);
      return Success(());
    }

    /** Whether the stamp gap and the receive gap are within bounds, counting violations. */
    method CheckGaps(previous: Option<int>, observedAt: Option<int>, now: int, stampNs: int)
      returns (gaps: Result<(bool, bool)>)
      modifies `counters
      ensures match StampGapValid(contract, previous, stampNs)
              case Failure(e) => gaps == Failure(e)
              case Success(stampGapValid) =>
                var receiveGapValid := ReceiveGapValid(contract, NO_ODOMETRY.(observedAt := observedAt), now);
                gaps == Success((stampGapValid, receiveGapValid)) &&
                Value() == old(Value()).(counters := old(Value()).counters.(
                  receiveGapViolation := old(Value()).counters.receiveGapViolation + (if receiveGapValid then 0 else 1),
                  stampGapViolation := old(Value()).counters.stampGapViolation + (if stampGapValid then 0 else 1)))
    {
      hide Seconds;
      hide WellFormed;
      hide OdometryValue;
      hide StatusValue;
      hide DiagnosticGuards;
      hide RuntimeHealthGate.Value;
      var receiveGapValid := true;
      if observedAt.Some? {
        receiveGapValid := Seconds(now - observedAt.value) <= contract.health.maximumOdometryReceiveGapSec;
        if !receiveGapValid {
          counters := counters.(receiveGapViolation := counters.receiveGapViolation + 1);
        }
      }
      var stampGapValid := true;
      if previous.Some? {
        var stampGapSec :- AbsoluteStampDifferenceSeconds(stampNs, previous.value);
        stampGapValid := stampGapSec <= contract.health.maximumOdometryStampGapSec;
        if !stampGapValid {
          counters := counters.(stampGapViolation := counters.stampGapViolation + 1);
        }
      }
      return Success((stampGapValid, receiveGapValid));
    }

    /** The odometry fields after a commit: guard, window, metrics and observation time. */
    method CommitTrack(now: int, stampNs: int) returns (done: Result<()>)
      modifies `recentOdometryStampsNs, `observedOdometryRateHz, `maximumRecentStampGapSec, `lastOdometryObservedAt
      modifies odometrySequenceGuard
      requires odometrySequenceGuard != stampGuard
      ensures var guard := CommitStamp(old(odometrySequenceGuard.lastAcceptedNs), stampNs);
              match guard
              case Failure(e) => done == Failure(e)
              case Success(g) =>
                match UpdateOdometryRate(contract, old(OdometryValue()).(sequenceGuard := g), stampNs)
                case Failure(e) => done == Failure(e)
                case Success(track) => done.Success? && OdometryValue() == track.(observedAt := Some(now))
    {
      hide WellFormed;
      hide UpdateOdometryRate;
      ghost var before := OdometryValue();
      var _ :- odometrySequenceGuard.Commit(stampNs);
      assert OdometryValue() == before.(sequenceGuard := Some(stampNs));
      var _ :- UpdateRate(stampNs);
      lastOdometryObservedAt := Some(now);
      return Success(());
    }

    method CommitValue(now: int, stampNs: int) returns (done: Result<()>)
      modifies `recentOdometryStampsNs, `observedOdometryRateHz, `maximumRecentStampGapSec, `lastOdometryObservedAt
      modifies odometrySequenceGuard
      requires Wired()
      ensures match CommitStamp(old(odometrySequenceGuard.lastAcceptedNs), stampNs)
              case Failure(e) => done == Failure(e)
              case Success(g) =>
                match UpdateOdometryRate(contract, old(Value()).odometry.(sequenceGuard := g), stampNs)
                case Failure(e) => done == Failure(e)
                case Success(track) =>
                  done.Success? && Wired() && Value() == old(Value()).(odometry := track.(observedAt := Some(now)))
    {
      hide WellFormed;
      hide RuntimeHealthGate.Value;
      hide UpdateOdometryRate;
      hide CommitStamp;
      hide StatusValue;
      hide OdometryValue;
      hide DiagnosticGuards;
      WiredApart();
      hide Wired;
      done := CommitTrack(now, stampNs);
    }

    method NoteCommit(stampNs: int)
      modifies `odometryHistory
      ensures Value() == old(Value()).(odometryHistory := old(Value()).odometryHistory.(
                           committed := old(Value()).odometryHistory.committed + [stampNs]))
    {
      hide WellFormed;
      hide RuntimeHealthGate.Value;
      hide StatusValue;
      hide OdometryValue;
      hide DiagnosticGuards;
      odometryHistory := odometryHistory.(committed := odometryHistory.committed + [stampNs]);
    }

    /** Guard, window and gap bookkeeping; answers whether the stamp gap and the receive gap are within bounds. */
    method CommitSample(now: int, stampNs: int) returns (gaps: Result<(bool, bool)>)
      requires Wired()
      modifies this, odometrySequenceGuard
      ensures match CommitOdometry(contract, old(Value()), now, stampNs)
              case Success(s) =>
                && gaps.Success? && Wired() && Value() == s
                && StampGapValid(contract, old(Value()).odometry.sequenceGuard, stampNs) == Success(gaps.value.0)
                && gaps.value.1 == ReceiveGapValid(contract, old(Value()).odometry, now)
              case Failure(e) => gaps == Failure(e)
    {
      hide WellFormed;
      hide UpdateOdometryRate;
      hide StampGapValid;
      hide CommitStamp;
      hide Seconds;
      hide Wired;
      var previous, observedAt := odometrySequenceGuard.lastAcceptedNs, lastOdometryObservedAt;
      assert Value().odometry.sequenceGuard == previous && Value().odometry.observedAt == observedAt;
      hide Value;
      var _ :- CommitValue(now, stampNs);
      gaps := CheckGaps(previous, observedAt, now, stampNs);
      NoteCommit(stampNs);
    }

    /** The guards are distinct objects, and the gate is another. */
    lemma WiredApart()
      requires Wired()
      ensures odometrySequenceGuard != stampGuard && odometrySequenceGuard != statusSequenceGuard
      ensures odometrySequenceGuard != statusStampGuard && stampGuard != statusSequenceGuard
      ensures stampGuard != statusStampGuard && statusSequenceGuard != statusStampGuard
      ensures {odometrySequenceGuard, stampGuard, statusSequenceGuard, statusStampGuard} !!
              diagnosticSequenceGuards.Values
    {
    }

    /** The odometry fields after an acceptance. */
    method RecordTrack(now: int, stampNs: int, pose: RigidTransform) returns (done: Result<()>)
      requires odometrySequenceGuard != stampGuard
      modifies `lastInputPose, `lastOdometryValid, `lastOdometryReceivedAt, stampGuard
      ensures match CommitStamp(old(stampGuard.lastAcceptedNs), stampNs)
              case Success(guard) =>
                done.Success? && OdometryValue() == old(OdometryValue()).(
                  stampGuard := guard, inputPose := Some(pose), valid := true, receivedAt := Some(now))
              case Failure(e) => done == Failure(e)
    {
      hide WellFormed;
      var _ :- stampGuard.Commit(stampNs);
      lastInputPose := Some(pose);
      lastOdometryValid := true;
      lastOdometryReceivedAt := Some(now);
      return Success(());
    }

    method RecordSample(now: int, stampNs: int, pose: RigidTransform) returns (done: Result<()>)
      requires Wired()
      modifies this, stampGuard
      ensures match CommitStamp(old(stampGuard.lastAcceptedNs), stampNs)
              case Success(guard) =>
                done.Success? && Wired() && Value() == RecordAccepted(old(Value()), now, stampNs, guard, pose)
              case Failure(e) => done == Failure(e)
    {
      hide WellFormed;
      hide RuntimeHealthGate.Value;
      hide StatusValue;
      hide OdometryValue;
      hide DiagnosticGuards;
      hide CommitStamp;
      WiredApart();
      hide Wired;
      var _ :- RecordTrack(now, stampNs, pose);
      counters := counters.(accepted := counters.accepted + 1, shadowProcessed := counters.shadowProcessed + 1);
      odometryHistory := odometryHistory.(accepted := odometryHistory.accepted +
        [Accepted(stampNs, LastIndex(odometryHistory.committed), pose)]);
      return Success(());
    }

    method RecordShadowPose(base: RigidTransform)
      requires Wired()
      modifies `lastShadowPose, `counters
      ensures Wired() && Value() == RecordShadow(old(Value()), base)
    {
      hide WellFormed;
      hide RuntimeHealthGate.Valid;
      hide StatusValue;
      hide DiagnosticGuards;
      lastShadowPose := Some(base);
      counters := counters.(shadowPoseComputed := counters.shadowPoseComputed + 1);
    }

    method AcceptSample(now: int, stampNs: int, pose: RigidTransform) returns (done: Result<()>)
      requires Wired()
      modifies this, stampGuard, healthGate
      ensures Outcome(AcceptOdometry(contract, old(Value()), now, stampNs, pose), done)
    {
      hide WellFormed;
      WiredApart();
      hide Wired;
      hide RejectOdometry;
      hide MaybeAdvanceHealth;
      hide CameraPoseToBasePose;
      hide RecordAccepted;
      hide RecordShadow;
      assert Value().odometry.stampGuard == stampGuard.lastAcceptedNs;
      hide Value;
      var _ :- RecordSample(now, stampNs, pose);
      if contract.extrinsic.IsApproved() {
        var base := CameraPoseToBasePose(pose, contract.extrinsic.transform.value);
        if base.Failure? {
          RejectOdometrySample(MarkLatched(ShadowPoseTransformFailed));
          return Success(());
        }
        RecordShadowPose(base.value);
      }
      done := MaybeAdvance(now);
    }
 
    method Count(n: Counters)
      modifies `counters
      ensures Value() == old(Value()).(counters := n)
    {
      hide WellFormed;
      hide RuntimeHealthGate.Value;
      hide StatusValue;
      hide OdometryValue;
      hide DiagnosticGuards;
      counters := n;
    }

    method InvalidateOdometry()
      modifies `lastOdometryValid
      ensures Value() == old(Value()).(odometry := old(Value()).odometry.(valid := false))
    {
      hide WellFormed;
      hide RuntimeHealthGate.Value;
      hide StatusValue;
      hide DiagnosticGuards;
      lastOdometryValid := false;
    }

    method JudgeSampleTiming(now: int, stampNs: int, pose: RigidTransform, stampGapValid: bool, receiveGapValid: bool)
      returns (done: Result<()>)
      requires Wired()
      modifies this, stampGuard, healthGate
      ensures Outcome(JudgeTiming(contract, old(Value()), now, stampNs, pose, stampGapValid, receiveGapValid), done)
    {
      hide WellFormed;
      hide Wired;
      hide RejectOdometry;
      hide AcceptOdometry;
      assert Value().odometry.rateHz == observedOdometryRateHz;
      assert Value().odometry.maximumGapSec == maximumRecentStampGapSec;
      assert Value().counters == counters;
      hide Value;
      var limit := contract.health.maximumOdometryStampGapSec;
      var rate, gap := observedOdometryRateHz, maximumRecentStampGapSec;
      if rate.None? {
        InvalidateOdometry();
        return Success(());
      }
      var rateValid := rate.value >= contract.health.minimumOdometryRateHz;
      if !rateValid {
        Count(counters.(rateViolation := counters.rateViolation + 1));
      }
      if !stampGapValid || !receiveGapValid || !rateValid || (gap.Some? && gap.value > limit) {
        if stampGapValid && gap.None? {
          return Failure(BadOptionalAccess);
        }
        if !stampGapValid || gap.value > limit {
          RejectOdometrySample(MarkTransient(OdometryStampGapExceeded));
        } else if !receiveGapValid {
          RejectOdometrySample(MarkTransient(OdometryReceiveGapExceeded));
        } else {
          RejectOdometrySample(MarkTransient(OdometryRateTooLow));
        }
        return Success(());
      }
      done := AcceptSample(now, stampNs, pose);
    }

    method JudgeSample(now: int, m: OdometryMessage, stampNs: int, stampGapValid: bool, receiveGapValid: bool)
      returns (done: Result<()>)
      requires Wired()
      modifies this, stampGuard, healthGate
      ensures Outcome(JudgeOdometry(contract, old(Value()), now, m, stampNs, stampGapValid, receiveGapValid), done)
    {
      hide WellFormed;
      hide Wired;
      hide RejectOdometry;
      hide JudgeTiming;
      hide ExceedsStep;
      hide ValidFrameId;
      hide Normalizable;
      assert Value().odometry.inputPose == lastInputPose && Value().counters == counters;
      hide Value;
      var pose := Create(m.parentFrame, m.childFrame, m.position, m.orientation);
      if pose.Failure? {
        RejectOdometrySample(MarkLatched(InputPoseConstructionFailed));
        return Success(());
      }
      if lastInputPose.Some? {
        var step :- MeasurePoseStep(lastInputPose.value, pose.value);
        if ExceedsStep(contract.health, step) {
          Count(counters.(poseJumpViolation := counters.poseJumpViolation + 1));
          RejectOdometrySample(MarkLatched(LocalizationEpochJumpDetected));
          return Success(());
        }
      }
      done := JudgeSampleTiming(now, stampNs, pose.value, stampGapValid, receiveGapValid);
    }

    method ProcessSample(now: int, rosNow: int, m: OdometryMessage, stampNs: int) returns (done: Result<()>)
      requires Wired()
      modifies this, odometrySequenceGuard, stampGuard, healthGate
      ensures Outcome(OnValidOdometry(contract, old(Value()), now, rosNow, m, stampNs), done)
    {
      hide WellFormed;
      hide Wired;
      hide RejectOdometry;
      hide JudgeOdometry;
      hide CommitOdometry;
      hide StampGapValid;
      hide ReceiveGapValid;
      hide ClockDomainMatches;
      assert Value().odometry.sequenceGuard == odometrySequenceGuard.lastAcceptedNs && Value().counters == counters;
      hide Value;
      var order :- odometrySequenceGuard.Classify(stampNs);
      if order == Duplicate {
        Count(counters.(duplicate := counters.duplicate + 1));
        RejectOdometrySample(MarkTransient(DuplicateTimestamp));
        return Success(());
      }
      if order == Nonmonotonic {
        Count(counters.(nonmonotonic := counters.nonmonotonic + 1));
        RejectOdometrySample(MarkLatched(NonmonotonicTimestamp));
        return Success(());
      }
      var clockValid :- ClockDomainMatches(contract, rosNow, stampNs);
      if !clockValid {
        Count(counters.(clockDomainMismatch := counters.clockDomainMismatch + 1));
        RejectOdometrySample(MarkTransient(OdometryClockDomainMismatch));
        return Success(());
      }
      var gaps :- CommitSample(now, stampNs);
      done := JudgeSample(now, m, stampNs, gaps.0, gaps.1);
    }

    method ReceiveSample(now: int, rosNow: int, m: OdometryMessage) returns (done: Result<()>)
      requires Wired()
      modifies this, odometrySequenceGuard, stampGuard, healthGate
      ensures Outcome(OnOdometry(contract, old(Value()), now, rosNow, m), done)
    {
      hide WellFormed;
      hide OnValidOdometry;
      hide RejectOdometry;
      hide IssueEvent;
      hide SampleIssues;
      hide Normalizable;
      hide ValidFrameId;
      hide StampToNanoseconds;
      assert Value().counters == counters;
      hide Value;
      hide Wired;
      Count(counters.(received := counters.received + 1));
      var stampNs := StampToNanoseconds(m.stamp).GetOr(0);
      var issues :- ValidateOdometrySample(m, stampNs, contract.input.expectedParentFrame,
                                           contract.input.expectedChildFrame);
      if issues != [] {
        SampleVerdict(m, stampNs, contract.input.expectedParentFrame, contract.input.expectedChildFrame);
        RejectOdometrySample(IssueEvent(issues));
        return Success(());
      }
      done := ProcessSample(now, rosNow, m, stampNs);
    }

    /** The callback on an odometry sample: it keeps the node valid and lets no exception out. */
    method OnOdometryMessage(now: int, rosNow: int, m: OdometryMessage) returns (done: Result<()>)
      requires Valid()
      modifies this, Parts()
      ensures Valid() && done.Success?
      ensures OnOdometry(contract, old(Value()), now, rosNow, m) == Success(Value())
    {
      hide ValidContract;
      hide Inv;
      hide Decided;
      hide OnOdometry;
      OdometryKeepsInv(contract, Value(), now, rosNow, m);
      DecidedIsInv(contract, OnOdometry(contract, Value(), now, rosNow, m).value, now);
      hide Value;
      hide Wired;
      done := ReceiveSample(now, rosNow, m);
    }

    static lemma DecidedIsInv(c: Contract, s: State, now: int)
      requires Decided(c, s, now)
      ensures Inv(c, s)
    {
      hide Inv;
      hide HealthReason;
    }
 
    // ----- tracking status -----

    method RejectStatusMessage(event: GateEvent)
      requires Wired() && IsFault(event)
      modifies this, healthGate
      ensures Wired() && Value() == RejectStatus(contract, old(Value()), event)
    {
      hide Fault;
      hide Wired;
      hide DiagnosticGuards;
      hide OdometryValue;
      hide WellFormed;
      lastStatusValid := false;
      counters := counters.(statusRejected := counters.statusRejected + 1);
      MarkFault(event);
    }

    method SequenceStatus(stampNs: int, accepted: bool) returns (done: Result<()>)
      requires Wired()
      modifies `lastStatusValid, statusSequenceGuard
      ensures match CommitStamp(old(Value()).status.sequenceGuard, stampNs)
              case Success(guard) =>
                done.Success? && Wired() &&
                Value() == old(Value()).(status := old(Value()).status.(sequenceGuard := guard, valid := accepted))
              case Failure(e) => done == Failure(e)
    {
      hide WellFormed;
      hide RuntimeHealthGate.Value;
      hide OdometryValue;
      hide DiagnosticGuards;
      WiredApart();
      hide Wired;
      var _ :- statusSequenceGuard.Commit(stampNs);
      lastStatusValid := accepted;
      return Success(());
    }

    method AcceptStatus(now: int, stampNs: int) returns (done: Result<()>)
      requires Wired()
      modifies `lastStatusReceivedAt, statusStampGuard
      ensures match CommitStamp(old(Value()).status.stampGuard, stampNs)
              case Success(guard) =>
                done.Success? && Wired() &&
                Value() == old(Value()).(status := old(Value()).status.(stampGuard := guard, receivedAt := Some(now)))
              case Failure(e) => done == Failure(e)
    {
      hide WellFormed;
      hide RuntimeHealthGate.Value;
      hide OdometryValue;
      hide DiagnosticGuards;
      WiredApart();
      hide Wired;
      var _ :- statusStampGuard.Commit(stampNs);
      lastStatusReceivedAt := Some(now);
      return Success(());
    }

    method ReceiveStatus(now: int, rosNow: int, m: StatusMessage) returns (done: Result<()>)
      requires Wired()
      modifies this, statusSequenceGuard, statusStampGuard, healthGate
      ensures Outcome(OnVisualSlamStatus(contract, old(Value()), now, rosNow, m), done)
    {
      hide WellFormed;
      hide RejectStatus;
      hide MaybeAdvanceHealth;
      hide Fault;
      hide StampToNanoseconds;
      hide ClockDomainMatches;
      hide CommitStamp;
      assert Value().counters == counters && Value().status.sequenceGuard == statusSequenceGuard.lastAcceptedNs;
      hide Value;
      hide Wired;
      Count(counters.(statusReceived := counters.statusReceived + 1));
      if !StatusWellFormed(contract, m) {
        RejectStatusMessage(MarkTransient(TrackingStatusInvalid));
        return Success(());
      }
      var stampNs := StampToNanoseconds(m.stamp).value;
      var order := statusSequenceGuard.Classify(stampNs);
      if order == Success(Duplicate) {
        Count(counters.(statusDuplicate := counters.statusDuplicate + 1));
        RejectStatusMessage(MarkTransient(TrackingStatusDuplicateTimestamp));
        return Success(());
      }
      if order == Success(Nonmonotonic) {
        Count(counters.(statusNonmonotonic := counters.statusNonmonotonic + 1));
        RejectStatusMessage(MarkLatched(TrackingStatusNonmonotonicTimestamp));
        return Success(());
      }
      var clockValid :- ClockDomainMatches(contract, rosNow, stampNs);
      if !clockValid {
        Count(counters.(clockDomainMismatch := counters.clockDomainMismatch + 1));
        RejectStatusMessage(MarkTransient(TrackingStatusClockDomainMismatch));
        return Success(());
      }
      var accepted := m.voState in contract.input.acceptedVoStates;
      var _ :- SequenceStatus(stampNs, accepted);
      if !accepted {
        MarkFault(MarkTransient(TrackingStateNotAccepted));
        return Success(());
      }
      var _ :- AcceptStatus(now, stampNs);
      done := MaybeAdvance(now);
    }

    /** The callback on a tracking status. */
    method OnStatusMessage(now: int, rosNow: int, m: StatusMessage) returns (done: Result<()>)
      requires Valid()
      modifies this, Parts()
      ensures Valid() && done.Success?
      ensures OnVisualSlamStatus(contract, old(Value()), now, rosNow, m) == Success(Value())
    {
      hide ValidContract;
      hide Inv;
      hide Decided;
      hide OnVisualSlamStatus;
      StatusKeepsInv(contract, Value(), now, rosNow, m);
      DecidedIsInv(contract, OnVisualSlamStatus(contract, Value(), now, rosNow, m).value, now);
      hide Value;
      hide Wired;
      done := ReceiveStatus(now, rosNow, m);
    }

    // ----- upstream diagnostics -----

    static method Find(required: seq<RequiredDiagnostic>, name: string) returns (found: Option<RequiredDiagnostic>)
      ensures found == FindRequired(required, name)
    {
      for i := 0 to |required|
        invariant FindRequired(required, name) == FindRequired(required[i..], name)
      {
        if required[i].name == name {
          return Some(required[i]);
        }
      }
      return None;
    }

    static method CollectCandidates(required: seq<RequiredDiagnostic>, statuses: seq<DiagnosticStatus>)
      returns (found: Collected)
      ensures found == Collect(required, statuses)
    {
      var candidates: seq<Candidate> := [];
      var namesInMessage := {};
      for i := 0 to |statuses|
        invariant Collect(required, statuses[..i]) == Collected(candidates, None, |candidates|)
        invariant namesInMessage == CandidateNames(candidates)
      {
        assert statuses[..i + 1][..i] == statuses[..i];
        var requirement := Find(required, statuses[i].name);
        if requirement.Some? {
          if statuses[i].name in namesInMessage {
            found := Collected(candidates, Some(statuses[i].name), |candidates| + 1);
            CollectStops(required, statuses, i + 1);
            return;
          }
          NamesSnoc(candidates, Candidate(statuses[i], requirement.value));
          namesInMessage := namesInMessage + {statuses[i].name};
          candidates := candidates + [Candidate(statuses[i], requirement.value)];
        }
      }
      assert statuses[..|statuses|] == statuses;
      return Collected(candidates, None, |candidates|);
    }

    /** Nothing after a repeated name is looked at. */
    static lemma {:induction false} CollectStops(required: seq<RequiredDiagnostic>, statuses: seq<DiagnosticStatus>,
                                                 n: nat)
      requires n <= |statuses| && Collect(required, statuses[..n]).duplicate.Some?
      ensures Collect(required, statuses) == Collect(required, statuses[..n])
      decreases |statuses|
    {
      if n == |statuses| {
        assert statuses[..n] == statuses;
      } else {
        var before := statuses[..|statuses| - 1];
        assert before[..n] == statuses[..n];
        CollectStops(required, before, n);
      }
    }

    /** The node of the only endpoint with this identifier, or why there is none. */
    static method ResolveSource(gid: int, publishers: seq<Endpoint>) returns (nodes: seq<string>)
      ensures |MatchingNodes(publishers, gid)| > 1 <==> |nodes| > 1
      ensures |nodes| <= 1 ==> nodes == MatchingNodes(publishers, gid)
    {
      nodes := [];
      for i := 0 to |publishers|
        invariant nodes == MatchingNodes(publishers[..i], gid) && |nodes| <= 1
      {
        assert publishers[..i + 1][..i] == publishers[..i];
        if publishers[i].gid == gid {
          nodes := nodes + [publishers[i].node];
          if |nodes| > 1 {
            MatchingGrows(publishers, gid, i + 1);
            return;
          }
        }
      }
      assert publishers[..|publishers|] == publishers;
    }

    static lemma {:induction false} MatchingGrows(publishers: seq<Endpoint>, gid: int, n: nat)
      requires n <= |publishers|
      ensures |MatchingNodes(publishers[..n], gid)| <= |MatchingNodes(publishers, gid)|
      decreases |publishers|
    {
      if n == |publishers| {
        assert publishers[..n] == publishers;
      } else {
        var before := publishers[..|publishers| - 1];
        assert before[..n] == publishers[..n];
        MatchingGrows(before, gid, n);
      }
    }

    static method CountPublishers(publishers: seq<Endpoint>, node: string) returns (count: nat)
      ensures count == CountNode(publishers, node)
    {
      count := 0;
      for i := 0 to |publishers|
        invariant count == CountNode(publishers[..i], node)
      {
        assert publishers[..i + 1][..i] == publishers[..i];
        if publishers[i].node == node {
          count := count + 1;
        }
      }
      assert publishers[..|publishers|] == publishers;
    }

    static method VerifySource(candidates: seq<Candidate>, gid: int, publishers: seq<Endpoint>)
      returns (fault: Option<GateEvent>)
      ensures fault == SourceFault(candidates, gid, publishers)
    {
      hide MatchingNodes;
      hide CountNode;
      var nodes := ResolveSource(gid, publishers);
      if |nodes| > 1 {
        return Some(MarkLatched(DiagnosticSourceGidNotUnique));
      }
      if |nodes| == 0 {
        return Some(MarkTransient(DiagnosticSourceNotDiscovered));
      }
      var sameName := CountPublishers(publishers, nodes[0]);
      if sameName != 1 {
        return Some(MarkLatched(DiagnosticPublisherNotUnique));
      }
      for i := 0 to |candidates|
        invariant AllExpect(candidates[..i], nodes[0])
      {
        if nodes[0] != candidates[i].required.expectedPublisher {
          return Some(MarkLatched(DiagnosticPublisherIdentityMismatch));
        }
      }
      return None;
    }

    method ClassifyCandidates(candidates: seq<Candidate>, stampNs: int) returns (order: Result<StampOrder>)
      ensures order == FirstStampFault(DiagnosticGuards(), candidates, stampNs)
    {
      for i := 0 to |candidates|
        invariant FirstStampFault(DiagnosticGuards(), candidates, stampNs) ==
                  FirstStampFault(DiagnosticGuards(), candidates[i..], stampNs)
      {
        var name := candidates[i].required.name;
        if name !in diagnosticSequenceGuards {
          return Failure(OutOfRange);
        }
        var one :- diagnosticSequenceGuards[name].Classify(stampNs);
        if one != Accept {
          return Success(one);
        }
      }
      return Success(Accept);
    }

    /** Distinct names have distinct guards. */
    ghost predicate GuardsApart() {
      forall m, n | m in diagnosticSequenceGuards && n in diagnosticSequenceGuards && m != n ::
        diagnosticSequenceGuards[m] != diagnosticSequenceGuards[n]
    }

    method CommitGuard(name: string, stampNs: int) returns (done: Result<()>)
      requires GuardsApart() && name in diagnosticSequenceGuards
      modifies diagnosticSequenceGuards[name]
      ensures name in old(DiagnosticGuards())
      ensures match CommitStamp(old(DiagnosticGuards())[name], stampNs)
              case Success(guard) => done.Success? && DiagnosticGuards() == old(DiagnosticGuards())[name := guard]
              case Failure(e) => done == Failure(e)
    {
      done := diagnosticSequenceGuards[name].Commit(stampNs);
    }

    method CommitCandidates(candidates: seq<Candidate>, stampNs: int) returns (done: Result<()>)
      requires GuardsApart()
      modifies diagnosticSequenceGuards.Values
      ensures match CommitGuards(old(DiagnosticGuards()), candidates, stampNs)
              case Success(guards) => done.Success? && DiagnosticGuards() == guards
              case Failure(e) => done == Failure(e)
    {
      for i := 0 to |candidates|
        invariant CommitGuards(old(DiagnosticGuards()), candidates, stampNs) ==
                  CommitGuards(DiagnosticGuards(), candidates[i..], stampNs)
      {
        var name := candidates[i].required.name;
        assert name in DiagnosticGuards() <==> name in diagnosticSequenceGuards;
        if name !in diagnosticSequenceGuards {
          return Failure(OutOfRange);
        }
        hide DiagnosticGuards;
        hide CommitStamp;
        assert candidates[i..][1..] == candidates[i + 1..];
        var _ :- CommitGuard(name, stampNs);
      }
      return Success(());
    }

    static method CheckEvidence(candidates: seq<Candidate>) returns (error: Option<Reason>)
      ensures error == FirstEvidenceError(candidates)
    {
      hide EvidenceError;
      for i := 0 to |candidates|
        invariant FirstEvidenceError(candidates) == FirstEvidenceError(candidates[i..])
      {
        assert candidates[i..][1..] == candidates[i + 1..];
        var status := candidates[i].status;
        error := CheckDiagnosticEvidence(candidates[i].required, status.level, status.hardwareId, status.values);
        if error.Some? {
          return;
        }
      }
      return None;
    }

    method StoreCandidates(candidates: seq<Candidate>, stampNs: int, now: int)
      requires Wired()
      modifies `upstreamDiagnostics
      ensures Wired() && Value() == old(Value()).(diagnostics := old(Value()).diagnostics.(
                observations := StoreEvidence(old(Value()).diagnostics.observations, candidates, stampNs, now)))
    {
      hide WellFormed;
      hide RuntimeHealthGate.Value;
      hide OdometryValue;
      hide StatusValue;
      hide DiagnosticGuards;
      hide Wired;
      for i := 0 to |candidates|
        invariant Wired()
        invariant StoreEvidence(old(upstreamDiagnostics), candidates, stampNs, now) ==
                  StoreEvidence(upstreamDiagnostics, candidates[i..], stampNs, now)
      {
        assert candidates[i..][1..] == candidates[i + 1..];
        var status := candidates[i].status;
        upstreamDiagnostics := upstreamDiagnostics[status.name := Observation(status.level, stampNs, now)];
      }
    }

    method EraseEvidence(names: set<string>)
      modifies `upstreamDiagnostics
      ensures Value() == old(Value()).(diagnostics := old(Value()).diagnostics.(
                observations := old(Value()).diagnostics.observations - names))
    {
      hide WellFormed;
      hide RuntimeHealthGate.Value;
      hide OdometryValue;
      hide StatusValue;
      hide DiagnosticGuards;
      upstreamDiagnostics := upstreamDiagnostics - names;
    }

    method RejectDiagnosticMessage(count: nat, event: GateEvent)
      requires Wired() && IsFault(event)
      modifies `counters, `gateHistory, healthGate
      ensures Wired() && Value() == RejectDiagnostics(contract, old(Value()), count, event)
    {
      hide WellFormed;
      hide Fault;
      hide Wired;
      assert Value().counters == counters;
      hide Value;
      Count(counters.(diagnosticRejected := counters.diagnosticRejected + count));
      MarkFault(event);
    }

    method CommitEvidence(candidates: seq<Candidate>, stampNs: int) returns (done: Result<()>)
      requires Wired()
      modifies diagnosticSequenceGuards.Values
      ensures match CommitGuards(old(Value()).diagnostics.guards, candidates, stampNs)
              case Success(guards) =>
                done.Success? && Wired() &&
                Value() == old(Value()).(diagnostics := old(Value()).diagnostics.(guards := guards))
              case Failure(e) => done == Failure(e)
    {
      hide WellFormed;
      hide RuntimeHealthGate.Value;
      hide OdometryValue;
      hide StatusValue;
      hide DiagnosticGuards;
      hide CommitGuards;
      WiredApart();
      assert GuardsApart();
      hide Wired;
      done := CommitCandidates(candidates, stampNs);
    }

    method ApplyDiagnostics(now: int, stampNs: int, candidates: seq<Candidate>) returns (done: Result<()>)
      requires Wired()
      modifies this, diagnosticSequenceGuards.Values, healthGate
      ensures Outcome(OnOrderedDiagnostics(contract, old(Value()), now, stampNs, candidates), done)
    {
      hide WellFormed;
      hide RejectDiagnostics;
      hide MaybeAdvanceHealth;
      hide CommitGuards;
      hide FirstEvidenceError;
      hide StoreEvidence;
      var _ :- CommitEvidence(candidates, stampNs);
      ghost var guards := CommitGuards(old(Value()).diagnostics.guards, candidates, stampNs);
      ghost var committed := Value();
      assert committed == old(Value()).(diagnostics := old(Value()).diagnostics.(guards := guards.value));
      var error := CheckEvidence(candidates);
      assert Value() == committed;
      hide Value;
      hide Wired;
      if error.Some? {
        var event := if error.value == UpstreamDiagnosticDuplicateValueKey then MarkLatched(error.value)
                     else MarkTransient(error.value);
        RejectDiagnosticMessage(|candidates|, event);
        return Success(());
      }
      StoreCandidates(candidates, stampNs, now);
      assert Value() == committed.(diagnostics := committed.diagnostics.(observations :=
          StoreEvidence(old(Value()).diagnostics.observations, candidates, stampNs, now)));
      done := MaybeAdvance(now);
    }

    method ProcessDiagnostics(now: int, rosNow: int, stamp: Time, candidates: seq<Candidate>)
      returns (done: Result<()>)
      requires Wired()
      modifies this, diagnosticSequenceGuards.Values, healthGate
      ensures Outcome(OnSourcedDiagnostics(contract, old(Value()), now, rosNow, stamp, candidates), done)
    {
      hide WellFormed;
      hide RejectDiagnostics;
      hide MaybeAdvanceHealth;
      hide StampToNanoseconds;
      hide ClockDomainMatches;
      hide FirstStampFault;
      hide OnOrderedDiagnostics;
      assert Value().counters == counters && Value().diagnostics.guards == DiagnosticGuards();
      hide Value;
      hide Wired;
      var stampNs, n := StampToNanoseconds(stamp), |candidates|;
      if stampNs.None? || stampNs.value <= 0 {
        RejectDiagnosticMessage(n, MarkTransient(UpstreamDiagnosticTimestampInvalid));
        return Success(());
      }
      var clockValid :- ClockDomainMatches(contract, rosNow, stampNs.value);
      if !clockValid {
        Count(counters.(clockDomainMismatch := counters.clockDomainMismatch + 1));
        RejectDiagnosticMessage(n, MarkTransient(UpstreamDiagnosticClockDomainMismatch));
        return Success(());
      }
      var order :- ClassifyCandidates(candidates, stampNs.value);
      if order == Duplicate {
        Count(counters.(diagnosticDuplicate := counters.diagnosticDuplicate + 1));
        RejectDiagnosticMessage(n, MarkTransient(UpstreamDiagnosticDuplicateTimestamp));
        return Success(());
      }
      if order == Nonmonotonic {
        Count(counters.(diagnosticNonmonotonic := counters.diagnosticNonmonotonic + 1));
        RejectDiagnosticMessage(n, MarkLatched(UpstreamDiagnosticNonmonotonicTimestamp));
        return Success(());
      }
      done := ApplyDiagnostics(now, stampNs.value, candidates);
    }

    /** Only a message from the expected publisher is processed. */
    method AttributeDiagnostics(now: int, rosNow: int, stamp: Time, candidates: seq<Candidate>, gid: int,
                                publishers: seq<Endpoint>)
      returns (done: Result<()>)
      requires Wired()
      modifies this, diagnosticSequenceGuards.Values, healthGate
      ensures SourceFault(candidates, gid, publishers).Some? ==>
                IsFault(SourceFault(candidates, gid, publishers).value)
      ensures Outcome(
                match SourceFault(candidates, gid, publishers)
                case Some(event) => Success(RejectDiagnostics(contract, old(Value()), |candidates|, event))
                case None => OnSourcedDiagnostics(contract, old(Value()), now, rosNow, stamp, candidates), done)
    {
      SourceFaultIsFault(candidates, gid, publishers);
      hide WellFormed;
      hide RejectDiagnostics;
      hide OnSourcedDiagnostics;
      hide SourceFault;
      hide Wired;
      ghost var before := Value();
      var fault := VerifySource(candidates, gid, publishers);
      assert Value() == before;
      hide Value;
      if fault.Some? {
        RejectDiagnosticMessage(|candidates|, fault.value);
        return Success(());
      }
      done := ProcessDiagnostics(now, rosNow, stamp, candidates);
    }

    method ReceiveDiagnostics(now: int, rosNow: int, m: DiagnosticsMessage, gid: int, publishers: seq<Endpoint>)
      returns (done: Result<()>)
      requires Wired()
      modifies this, diagnosticSequenceGuards.Values, healthGate
      ensures Outcome(OnUpstreamDiagnostics(contract, old(Value()), now, rosNow, m, gid, publishers), done)
    {
      hide WellFormed;
      hide RejectDiagnostics;
      hide OnSourcedDiagnostics;
      hide SourceFault;
      hide Collect;
      assert Value().counters == counters;
      hide Value;
      hide Wired;
      var found := CollectCandidates(contract.input.requiredDiagnostics, m.statuses);
      Count(counters.(diagnosticReceived := counters.diagnosticReceived + found.received));
      if found.duplicate.Some? {
        EraseEvidence({found.duplicate.value});
        RejectDiagnosticMessage(1, MarkLatched(DuplicateRequiredDiagnosticStatus));
        return Success(());
      }
      if found.candidates == [] {
        return Success(());
      }
      EraseEvidence(CandidateNames(found.candidates));
      done := AttributeDiagnostics(now, rosNow, m.stamp, found.candidates, gid, publishers);
    }

    /** The callback on upstream diagnostics. */
    method OnDiagnosticsMessage(now: int, rosNow: int, m: DiagnosticsMessage, gid: int, publishers: seq<Endpoint>)
      returns (done: Result<()>)
      requires Valid()
      modifies this, Parts()
      ensures Valid() && done.Success?
      ensures OnUpstreamDiagnostics(contract, old(Value()), now, rosNow, m, gid, publishers) == Success(Value())
    {
      hide ValidContract;
      hide Inv;
      hide Decided;
      hide OnUpstreamDiagnostics;
      DiagnosticsKeepsInv(contract, Value(), now, rosNow, m, gid, publishers);
      ghost var after := OnUpstreamDiagnostics(contract, Value(), now, rosNow, m, gid, publishers).value;
      if RequiredNamesIn(contract.input.requiredDiagnostics, m.statuses) != {} {
        DecidedIsInv(contract, after, now);
      }
      hide Value;
      hide Wired;
      done := ReceiveDiagnostics(now, rosNow, m, gid, publishers);
    }

    // ----- the timer -----

    method UpdatePublisherEvidence(now: int, odometry: seq<string>, status: seq<string>)
      requires Wired()
      modifies `publishers, `gateHistory
      ensures Wired() && Value() == old(Value()).(
                publishers := ObservedPublishers(contract, odometry, status),
                gateHistory := old(Value()).gateHistory.(lastTick := Some(now)))
    {
      hide WellFormed;
      hide RuntimeHealthGate.Value;
      hide RuntimeHealthGate.Valid;
      hide OdometryValue;
      hide StatusValue;
      hide DiagnosticGuards;
      publishers := PublisherEvidence(
        |odometry|, |odometry| == 1 && odometry[0] == contract.input.expectedOdometryPublisher,
        |status|, |status| == 1 && status[0] == contract.input.expectedStatusPublisher);
      gateHistory := gateHistory.(lastTick := Some(now));
    }

    method StayStarting(reason: Reason)
      requires Wired()
      modifies `gateHistory, healthGate
      ensures Wired() && Value() == KeepStarting(contract, old(Value()), reason)
    {
      hide Replay;
      hide ClosedForm;
      hide Apply;
      hide DiagnosticGuards;
      hide StatusValue;
      hide OdometryValue;
      hide WellFormed;
      healthGate.MarkStartingFor(reason);
      GateApplied(MarkStarting(reason));
      gateHistory := gateHistory.(calls := healthGate.calls);
    }

    method CheckPublishers(now: int, odometry: seq<string>, status: seq<string>)
      requires Wired()
      modifies `publishers, `gateHistory, healthGate
      ensures Wired() && Value() == CheckAuthority(contract, old(Value()), now, odometry, status)
    {
      hide WellFormed;
      hide Fault;
      hide ObservedPublishers;
      hide Wired;
      UpdatePublisherEvidence(now, odometry, status);
      assert publishers == Value().publishers;
      hide Value;
      if publishers.odometryCount > 1 {
        MarkFault(MarkLatched(OdometryPublisherNotUnique));
      } else if publishers.odometryCount == 1 && !publishers.odometryIdentityValid {
        MarkFault(MarkLatched(OdometryPublisherIdentityMismatch));
      } else if publishers.statusCount > 1 {
        MarkFault(MarkLatched(TrackingStatusPublisherNotUnique));
      } else if publishers.statusCount == 1 && !publishers.statusIdentityValid {
        MarkFault(MarkLatched(TrackingStatusPublisherIdentityMismatch));
      }
    }

    /** What a tick does when the inputs are not healthy. */
    method MarkUnhealthy(now: int, reason: Reason)
      requires Wired()
      modifies `gateHistory, healthGate
      ensures Wired()
      ensures Value() ==
              if reason.Waiting() && Seconds(now - startedAt) <= contract.health.startupTimeoutSec
                 && old(healthGate.state) == Starting
              then KeepStarting(contract, old(Value()), reason)
              else if reason.Waiting() && old(healthGate.state) == Starting
              then Fault(contract, old(Value()), MarkTransient(StartupTimeout))
              else Fault(contract, old(Value()), MarkTransient(reason))
    {
      hide WellFormed;
      hide Fault;
      hide KeepStarting;
      hide Seconds;
      hide Value;
      hide Wired;
      var startupAge := Seconds(now - startedAt);
      if reason.Waiting() && startupAge <= contract.health.startupTimeoutSec && healthGate.state == Starting {
        StayStarting(reason);
      } else if reason.Waiting() && healthGate.state == Starting {
        MarkFault(MarkTransient(StartupTimeout));
      } else {
        MarkFault(MarkTransient(reason));
      }
    }

    method AdvanceOnTick(now: int) returns (done: Result<()>)
      requires Wired()
      modifies `gateHistory, `lastHealthObservedStampNs, healthGate
      ensures Outcome(TickHealth(contract, old(Value()), now), done)
    {
      hide WellFormed;
      hide Fault;
      hide KeepStarting;
      hide MaybeAdvanceHealth;
      hide HealthReason;
      hide Seconds;
      hide Wired;
      assert healthGate.state == Value().gate.state && startedAt == Value().startedAt;
      hide Value;
      if healthGate.state == LatchedFault {
        return Success(());
      }
      var reason :- InputsAreHealthy(now);
      if reason == InputHealthy {
        done := MaybeAdvance(now);
      } else {
        MarkUnhealthy(now, reason);
        done := Success(());
      }
    }

    method Tick(now: int, odometry: seq<string>, status: seq<string>) returns (done: Result<()>)
      requires Wired()
      modifies this, healthGate
      ensures Outcome(OnDiagnosticTimer(contract, old(Value()), now, odometry, status), done)
    {
      hide Value;
      hide Wired;
      hide CheckAuthority;
      hide TickHealth;
      CheckPublishers(now, odometry, status);
      done := AdvanceOnTick(now);
    }

    /** The wall timer. */
    method OnTimer(now: int, odometry: seq<string>, status: seq<string>) returns (done: Result<()>)
      requires Valid()
      modifies this, Parts()
      ensures Valid() && done.Success?
      ensures OnDiagnosticTimer(contract, old(Value()), now, odometry, status) == Success(Value())
    {
      hide ValidContract;
      hide Inv;
      hide Decided;
      hide OnDiagnosticTimer;
      TimerKeepsInv(contract, Value(), now, odometry, status);
      DecidedIsInv(contract, OnDiagnosticTimer(contract, Value(), now, odometry, status).value, now);
      hide Value;
      hide Wired;
      done := Tick(now, odometry, status);
    }
  }
}
