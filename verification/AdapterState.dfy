/** The mutable state of the adapter node (adapter_node.hpp), its inputs, and the history the theorems speak about. */
module AdapterState {
  import opened Contracts
  import opened Reasons
  import opened RigidTransforms
  import opened Stamps
  import opened HealthGate
  import opened ContractConfig
  import opened OdometryValidation

  // ----- inputs -----

  /** A double; only finiteness, sign and value matter. */
  datatype Float = NotFinite | Value(v: real) {
    predicate FiniteNonnegative() {
      Value? && v >= 0.0
    }
  }

  datatype StatusMessage = StatusMessage(
    frame: string,
    stamp: Time,
    nodeCallbackExecutionTime: Float,
    trackExecutionTime: Float,
    trackExecutionTimeMean: Float,
    trackExecutionTimeMax: Float,
    voState: uint8)

  datatype DiagnosticStatus = DiagnosticStatus(name: string, level: uint8, hardwareId: string, values: seq<KeyValue>)

  datatype DiagnosticsMessage = DiagnosticsMessage(stamp: Time, statuses: seq<DiagnosticStatus>)

  /** A publisher of a topic: its unique identifier and the fully qualified name of its node. */
  datatype Endpoint = Endpoint(gid: int, node: string)

  /** A callback with what it reads from its environment; publisher lists are those of the ROS graph at that moment. */
  datatype Input =
    | Odometry(sample: OdometryMessage)
    | Status(status: StatusMessage)
    | Diagnostics(message: DiagnosticsMessage, publisherGid: int, publishers: seq<Endpoint>)
    | Timer(odometryPublishers: seq<string>, statusPublishers: seq<string>)

  /** now is the steady clock and rosNow the ROS clock when the callback runs, both in nanoseconds. */
  datatype Event = Event(now: int, rosNow: int, input: Input)

  // ----- fields -----

  datatype OdometryTrack = OdometryTrack(
    sequenceGuard: Option<int>,
    stampGuard: Option<int>,
    receivedAt: Option<int>,
    observedAt: Option<int>,
    valid: bool,
    window: seq<int>,
    rateHz: Option<real>,
    maximumGapSec: Option<real>,
    inputPose: Option<RigidTransform>,
    shadowPose: Option<RigidTransform>)

  datatype StatusTrack = StatusTrack(
    sequenceGuard: Option<int>,
    stampGuard: Option<int>,
    receivedAt: Option<int>,
    valid: bool)

  datatype Observation = Observation(level: uint8, stampNs: int, receivedAt: int)

  datatype DiagnosticTrack = DiagnosticTrack(
    guards: map<string, Option<int>>,
    observations: map<string, Observation>)

  datatype PublisherEvidence = PublisherEvidence(
    odometryCount: nat,
    odometryIdentityValid: bool,
    statusCount: nat,
    statusIdentityValid: bool)

  datatype Counters = Counters(
    received: nat,
    accepted: nat,
    rejected: nat,
    duplicate: nat,
    nonmonotonic: nat,
    statusReceived: nat,
    statusRejected: nat,
    statusDuplicate: nat,
    statusNonmonotonic: nat,
    diagnosticReceived: nat,
    diagnosticRejected: nat,
    diagnosticDuplicate: nat,
    diagnosticNonmonotonic: nat,
    clockDomainMismatch: nat,
    stampGapViolation: nat,
    receiveGapViolation: nat,
    rateViolation: nat,
    poseJumpViolation: nat,
    shadowProcessed: nat,
    shadowPoseComputed: nat)

  // ----- history -----

  /** An accepted sample: its stamp, its place among the committed stamps, and its pose T[odom,camera_link]. */
  datatype Accepted = Accepted(stampNs: int, index: nat, pose: RigidTransform)

  datatype OdometryHistory = OdometryHistory(committed: seq<int>, accepted: seq<Accepted>)

  /**
   What happened to the gate: every call, the stamp behind every observation, how much had been committed, accepted and
   observed at the last fault and whether an accepted stamp was then still unobserved, the time of the last health
   evaluation that could advance the gate, and the time of the last timer tick.
   */
  datatype GateHistory = GateHistory(
    calls: seq<GateEvent>,
    observed: seq<int>,
    faultCommitted: nat,
    faultAccepted: nat,
    faultObserved: nat,
    faultPending: bool,
    evaluatedAt: int,
    lastTick: Option<int>)

  datatype State = State(
    gate: Gate,
    odometry: OdometryTrack,
    status: StatusTrack,
    diagnostics: DiagnosticTrack,
    publishers: PublisherEvidence,
    lastHealthObserved: Option<int>,
    startedAt: int,
    counters: Counters,
    odometryHistory: OdometryHistory,
    gateHistory: GateHistory)

  function DiagnosticNames(required: seq<RequiredDiagnostic>): set<string> {
    set i | 0 <= i < |required| :: required[i].name
  }

  const NO_ODOMETRY := OdometryTrack(None, None, None, None, false, [], None, None, None, None)
  const NO_COUNTS := Counters(0, 0, 0, 0, 0, 0, 0, 0, 0, 0, 0, 0, 0, 0, 0, 0, 0, 0, 0, 0)

  function InitialState(c: Contract, startedAt: int): State {
    State(INITIAL_GATE, NO_ODOMETRY, StatusTrack(None, None, None, false),
          DiagnosticTrack(map n | n in DiagnosticNames(c.input.requiredDiagnostics) :: None, map[]),
          PublisherEvidence(0, false, 0, false), None, startedAt, NO_COUNTS,
          OdometryHistory([], []), GateHistory([], [], 0, 0, 0, false, startedAt, None))
  }
}
