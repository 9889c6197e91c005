/** The reason codes that the node reports, one constructor for each string constant. */
module Reasons {

  datatype Reason =
    // what the health predicate can answer (and the gate's initial reason)
    | WaitingForInput
    | WaitingForOdometryPublisher
    | WaitingForTrackingStatusPublisher
    | WaitingForOdometryRateWindow
    | WaitingForOdometry
    | WaitingForTrackingStatus
    | WaitingForCrossStreamTimestamps
    | WaitingForUpstreamDiagnostic
    | OdometryPublisherAuthorityInvalid
    | TrackingStatusPublisherAuthorityInvalid
    | OdometryInvalid
    | TrackingStateNotAccepted
    | OdometryRateTooLow
    | OdometryStampGapExceeded
    | OdometryStatusSkewExceeded
    | OdometryStale
    | TrackingStatusStale
    | UpstreamDiagnosticNotOk
    | UpstreamDiagnosticStale
    | InputHealthy
    // gate and timer
    | RecoveryInProgress
    | StartupTimeout
    | OdometryPublisherNotUnique
    | OdometryPublisherIdentityMismatch
    | TrackingStatusPublisherNotUnique
    | TrackingStatusPublisherIdentityMismatch
    // odometry samples
    | ParentFrameMismatch
    | ChildFrameMismatch
    | InvalidTimestamp
    | NonfiniteMeasurement
    | InvalidQuaternion
    | InvalidPoseCovariance
    | InvalidTwistCovariance
    | DuplicateTimestamp
    | NonmonotonicTimestamp
    | OdometryClockDomainMismatch
    | InputPoseConstructionFailed
    | LocalizationEpochJumpDetected
    | OdometryReceiveGapExceeded
    | ShadowPoseTransformFailed
    // tracking status
    | TrackingStatusInvalid
    | TrackingStatusDuplicateTimestamp
    | TrackingStatusNonmonotonicTimestamp
    | TrackingStatusClockDomainMismatch
    // upstream diagnostics
    | DuplicateRequiredDiagnosticStatus
    | DiagnosticSourceGidNotUnique
    | DiagnosticSourceNotDiscovered
    | DiagnosticPublisherNotUnique
    | DiagnosticPublisherIdentityMismatch
    | UpstreamDiagnosticTimestampInvalid
    | UpstreamDiagnosticClockDomainMismatch
    | UpstreamDiagnosticDuplicateTimestamp
    | UpstreamDiagnosticNonmonotonicTimestamp
    | UpstreamDiagnosticIdentityOrLevelMismatch
    | UpstreamDiagnosticDuplicateValueKey
    | UpstreamDiagnosticValueMismatch
  {
    /** The reasons whose code starts with WAITING_FOR_. */
    predicate Waiting() {
      || WaitingForInput?
      || WaitingForOdometryPublisher?
      || WaitingForTrackingStatusPublisher?
      || WaitingForOdometryRateWindow?
      || WaitingForOdometry?
      || WaitingForTrackingStatus?
      || WaitingForCrossStreamTimestamps?
      || WaitingForUpstreamDiagnostic?
    }
  }
}

/** The five-state runtime health gate (gate.cpp), and what its state says about the history of calls. */
module HealthGate {
  import opened Contracts
  import opened Reasons

  datatype HealthState = Starting | Healthy | TransientFault | Recovering | LatchedFault

  datatype GateEvent =
    | MarkStarting(reason: Reason)
    | MarkTransient(reason: Reason)
    | MarkLatched(reason: Reason)
    | ObserveHealthySample

  datatype Gate = Gate(state: HealthState, reason: Reason, progress: nat)

  const INITIAL_GATE := Gate(Starting, WaitingForInput, 0)

  /** One call on a gate that needs required samples to recover. */
  function Apply(required: nat, gate: Gate, event: GateEvent): Gate {
    match event
    case MarkStarting(reason) =>
      if gate.state != Starting then gate else Gate(Starting, reason, 0)
    case MarkTransient(reason) =>
      if gate.state == LatchedFault then gate else Gate(TransientFault, reason, 0)
    case MarkLatched(reason) =>
      Gate(LatchedFault, reason, 0)
    case ObserveHealthySample =>
      match gate.state
      case LatchedFault => gate
      case Healthy => gate
      case Starting => gate.(state := Healthy, reason := InputHealthy)
      case _ =>
        if gate.progress + 1 >= required then Gate(Healthy, InputHealthy, 0)
        else Gate(Recovering, RecoveryInProgress, gate.progress + 1)
  }

  function Replay(required: nat, events: seq<GateEvent>): Gate {
    if events == [] then INITIAL_GATE
    else Apply(required, Replay(required, events[..|events| - 1]), events[|events| - 1])
  }

  // ----- the history, summarized -----

  /** The reason of the last latch, if anything ever latched. */
  function LastLatch(events: seq<GateEvent>): Option<Reason> {
    if events == [] then None
    else
      var last := events[|events| - 1];
      if last.MarkLatched? then Some(last.reason) else LastLatch(events[..|events| - 1])
  }

  function LastTransient(events: seq<GateEvent>): Option<Reason> {
    if events == [] then None
    else
      var last := events[|events| - 1];
      if last.MarkTransient? then Some(last.reason) else LastTransient(events[..|events| - 1])
  }

  function LastStarting(events: seq<GateEvent>): Reason {
    if events == [] then WaitingForInput
    else
      var last := events[|events| - 1];
      if last.MarkStarting? then last.reason else LastStarting(events[..|events| - 1])
  }

  /** The healthy samples observed since the last transient fault, or ever when there was none. */
  function HealthySinceTransient(events: seq<GateEvent>): nat {
    if events == [] then 0
    else
      var before := events[..|events| - 1];
      match events[|events| - 1]
      case MarkTransient(_) => 0
      case ObserveHealthySample => HealthySinceTransient(before) + 1
      case _ => HealthySinceTransient(before)
  }

  /** The gate as a function of four summaries of its history. */
  function ClosedForm(required: nat, events: seq<GateEvent>): Gate {
    var k := HealthySinceTransient(events);
    match (LastLatch(events), LastTransient(events))
    case (Some(reason), _) => Gate(LatchedFault, reason, 0)
    case (None, Some(reason)) =>
      if k == 0 then Gate(TransientFault, reason, 0)
      else if k < required then Gate(Recovering, RecoveryInProgress, k)
      else Gate(Healthy, InputHealthy, 0)
    case (None, None) =>
      if k == 0 then Gate(Starting, LastStarting(events), 0) else Gate(Healthy, InputHealthy, 0)
  }

  /** State, reason and progress are exactly those of the closed form, after every sequence of calls. */
  lemma {:induction false} GateClosedForm(required: nat, events: seq<GateEvent>)
    requires required > 0
    ensures Replay(required, events) == ClosedForm(required, events)
  {
    if events != [] {
      GateClosedForm(required, events[..|events| - 1]);
    }
  }

  lemma ReplayAppend(required: nat, events: seq<GateEvent>, event: GateEvent)
    ensures Replay(required, events + [event]) == Apply(required, Replay(required, events), event)
  {
    assert (events + [event])[..|events|] == events;
  }

  /** A latched gate stays latched, and a gate that left Starting never comes back to it, whatever follows. */
  lemma {:induction false} LatchedForeverStartingOnce(required: nat, events: seq<GateEvent>, more: seq<GateEvent>)
    ensures Replay(required, events).state == LatchedFault ==> Replay(required, events + more).state == LatchedFault
    ensures Replay(required, events + more).state == Starting ==> Replay(required, events).state == Starting
  {
    if more == [] {
      assert events + more == events;
    } else {
      var before := more[..|more| - 1];
      LatchedForeverStartingOnce(required, events, before);
      assert (events + more)[..|events + more| - 1] == events + before;
    }
  }

  /** The gate's run of k healthy samples. */
  function HealthyRun(k: nat): seq<GateEvent> {
    if k == 0 then [] else HealthyRun(k - 1) + [ObserveHealthySample]
  }

  /** After a transient fault, observations bring the gate back at the required-th one and not before. */
  lemma {:induction false} RecoveryTakesExactly(required: nat, events: seq<GateEvent>, reason: Reason, k: nat)
    requires required > 0
    requires Replay(required, events).state != LatchedFault
    ensures Replay(required, events + [MarkTransient(reason)] + HealthyRun(k)) ==
            if k == 0 then Gate(TransientFault, reason, 0)
            else if k < required then Gate(Recovering, RecoveryInProgress, k)
            else Gate(Healthy, InputHealthy, 0)
  {
    hide Replay;
    var faulted := events + [MarkTransient(reason)];
    if k == 0 {
      assert faulted + HealthyRun(0) == faulted;
      ReplayAppend(required, events, MarkTransient(reason));
    } else {
      RecoveryTakesExactly(required, events, reason, k - 1);
      assert faulted + HealthyRun(k) == faulted + HealthyRun(k - 1) + [ObserveHealthySample];
      ReplayAppend(required, faulted + HealthyRun(k - 1), ObserveHealthySample);
    }
  }

  // ----- the class -----

  class RuntimeHealthGate {
    const recoveryRequired: nat
    var state: HealthState
    var reason: Reason
    var recoveryProgress: nat
    /** Every call so far. */
    ghost var calls: seq<GateEvent>

    function Value(): Gate
      reads this
    {
      Gate(state, reason, recoveryProgress)
    }

    ghost predicate Valid()
      reads this
    {
      recoveryRequired > 0 && Value() == Replay(recoveryRequired, calls)
    }

    /** A gate, or std::invalid_argument when it would need no sample to recover. */
    static method Make(recoveryConsecutiveSamples: nat) returns (gate: Result<RuntimeHealthGate>)
      ensures gate.Success? <==> recoveryConsecutiveSamples > 0
      ensures gate.Failure? ==> gate.error == InvalidArgument
      ensures gate.Success? ==>
                && fresh(gate.value) && gate.value.Valid() && gate.value.calls == []
                && gate.value.recoveryRequired == recoveryConsecutiveSamples
                && gate.value.Value() == INITIAL_GATE
    {
      if recoveryConsecutiveSamples == 0 {
        return Failure(InvalidArgument);
      }
      var made := new RuntimeHealthGate(recoveryConsecutiveSamples);
      return Success(made);
    }

    constructor (recoveryConsecutiveSamples: nat)
      requires recoveryConsecutiveSamples > 0
      ensures Valid() && calls == [] && recoveryRequired == recoveryConsecutiveSamples
    {
      recoveryRequired := recoveryConsecutiveSamples;
      state, reason, recoveryProgress := Starting, WaitingForInput, 0;
      calls := [];
    }

    method MarkStartingFor(because: Reason)
      requires Valid()
      modifies this
      ensures Valid() && calls == old(calls) + [MarkStarting(because)]
      ensures Value() == ClosedForm(recoveryRequired, calls)
    {
      calls := calls + [MarkStarting(because)];
      if state == Starting {
        reason := because;
        recoveryProgress := 0;
      }
      ReplayAppend(recoveryRequired, old(calls), MarkStarting(because));
      GateClosedForm(recoveryRequired, old(calls));
      GateClosedForm(recoveryRequired, calls);
    }

    method MarkTransientFor(because: Reason)
      requires Valid()
      modifies this
      ensures Valid() && calls == old(calls) + [MarkTransient(because)]
      ensures Value() == ClosedForm(recoveryRequired, calls)
    {
      calls := calls + [MarkTransient(because)];
      if state != LatchedFault {
        state := TransientFault;
        reason := because;
        recoveryProgress := 0;
      }
      ReplayAppend(recoveryRequired, old(calls), MarkTransient(because));
      GateClosedForm(recoveryRequired, calls);
    }

    method MarkLatchedFor(because: Reason)
      requires Valid()
      modifies this
      ensures Valid() && calls == old(calls) + [MarkLatched(because)]
      ensures Value() == ClosedForm(recoveryRequired, calls)
    {
      calls := calls + [MarkLatched(because)];
      state := LatchedFault;
      reason := because;
      recoveryProgress := 0;
      ReplayAppend(recoveryRequired, old(calls), MarkLatched(because));
      GateClosedForm(recoveryRequired, calls);
    }

    method ObserveHealthy()
      requires Valid()
      modifies this
      ensures Valid() && calls == old(calls) + [ObserveHealthySample]
      ensures Value() == ClosedForm(recoveryRequired, calls)
    {
      calls := calls + [ObserveHealthySample];
      ReplayAppend(recoveryRequired, old(calls), ObserveHealthySample);
      GateClosedForm(recoveryRequired, calls);
      if state == LatchedFault {
        return;
      }
      if state == Starting {
        state := Healthy;
        reason := InputHealthy;
        return;
      }
      if state == TransientFault || state == Recovering {
        state := Recovering;
        recoveryProgress := recoveryProgress + 1;
        reason := RecoveryInProgress;
        if recoveryProgress >= recoveryRequired {
          state := Healthy;
          reason := InputHealthy;
          recoveryProgress := 0;
        }
      }
    }
  }
}
