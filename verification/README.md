# Verification of the cuVSLAM localization adapter

This project models the fail-closed core of the shadow localization adapter in Dafny and proves what it keeps over every
run: the health state machine of the node, the timestamp arithmetic under it, and the rigid-body algebra that turns a
camera pose into a base pose.

`dafny verify dfyconfig.toml` checks everything.

## What is modelled

**The node.** Four callbacks (odometry, tracking status, upstream diagnostics, wall timer) share one state: five kinds of
strict timestamp guard, the window of the last W stamps with its cached rate and largest gap, the last accepted pose,
per-name diagnostic evidence, publisher evidence, twenty counters, and a gate that recovers from transient faults after
N healthy samples and latches others for good.

- `AdapterState.dfy` holds the state, the inputs and the history that the theorems speak about (every committed stamp,
  every accepted sample, every call on the gate, what had happened by the last fault).
- `AdapterSteps.dfy` gives each callback as a function from state to state; a `Failure` is an exception that would leave
  the callback. `OnOdometry`, `OnVisualSlamStatus`, `OnUpstreamDiagnostics` and `OnDiagnosticTimer` follow the branches
  of the source one by one, and `HealthReason` is the health predicate.
- `AdapterNode.dfy` is the class itself: fields, guards and gate as objects, loops where the source has loops. Every
  method is proved to do to the fields what the step functions do to the state. The histories are ghost there.
- `AdapterInvariant.dfy` and `DiagnosticEvidence.dfy` prove the inductive invariant; `AdapterEffects.dfy` says what one
  callback can change; `AdapterRuns.dfy`, `RunHealth.dfy`, `RunRecovery.dfy`, `RunFrames.dfy`, `RunPoses.dfy` and
  `RunEvidence.dfy` hold the theorems about all runs; `ExampleCallbacks.dfy` and `RunExample.dfy` concrete runs.
- `HealthVerdicts.dfy`, `StatusVerdicts.dfy`, `OdometryVerdicts.dfy`, `DiagnosticsVerdicts.dfy` and `OrderVerdicts.dfy`
  are a second account of the callbacks, independent of the step functions: tables over the fields of the message and
  the history of the run that say when a message counts, which reason every other one gives and how severe it is, and
  what becomes of every field and counter. The step functions are proved to do exactly that in every run.

A run is a sequence of events on a fresh node. An event carries what a callback reads from its environment: the steady
clock, the ROS clock, the message, and for diagnostics and the timer the publishers that the ROS graph shows. Nothing
is assumed about any of them, except that the staleness theorem needs a steady clock that does not run backwards and a
recent tick, and the theorem on guards a ROS clock that does not run backwards.

**The libraries.** `Stamps.dfy` (guards and window metrics), `HealthGate.dfy` (the gate as a class and its closed form),
`OdometryValidation.dfy`, `ContractConfig.dfy` (the constraints that loading leaves true of a contract, and the check of
one diagnostic), `RigidTransforms.dfy`, `TwistContract.dfy` and, under the last two, `Geometry.dfy`: vectors and
quaternions over the exact reals. Reals have no square root or arc cosine here: lengths are compared squared, an angle x
is kept as cos(x/2), which orders angles up to 180 degrees the other way round, and a quaternion read from a message
carries its norm.

## Where a promise does not hold as stated

- *N frames after a fault* (`README.md:428`). A frame can be accepted while another input is unhealthy; it then waits to
  be counted. If a fault is marked meanwhile and the next callback that decides is not an odometry callback, that older
  frame counts towards the recovery. `RunFrames.FramesSinceFault` proves that this is the one way in which the count
  differs from the frames accepted since the fault, and `RunFrames.RecoveryNeedsFrames` what follows for the promise:
  at most one frame is missing, exactly in that case. `RunExample.PendingSampleRecovers` is a run in which it happens.
- *Composition is associative.* A chain that closes on its first frame within tolerance is replaced by the exact
  identity. `RigidTransforms.ComposeAssociativeExactly` says for all triples exactly when associativity survives that,
  and `RigidTransforms.AssociativityFails` gives triples for which it does not. For the same reason the laws of action
  and of twist transport hold for a closed chain only when its raw product moves nothing.
- *A diagnostics message replaces all of its evidence or leaves none.* A required name that comes twice erases the
  evidence of that name only and latches the gate. `RunEvidence.ReplacedOrErasedExactly` has the exact condition and
  `RunExample.OldEvidenceStays` a run in which old evidence stays.

## Model

| member | source | states |
|---|---|---|
| AdapterRuns.NoCallbackThrows | cuvslam_localization_adapter/src/adapter_node.cpp:217-841 | For every valid contract and every sequence of callbacks, no exception leaves a callback (no `at`, `value`, `Commit`, `Create`, `MeasurePoseStep` or metrics access can fail), and the node's invariant holds afterwards |
| AdapterRuns.HealthSafety | cuvslam_localization_adapter/src/adapter_node.cpp:348-841 | After every callback that reaches a decision, Healthy or Recovering means the health predicate answers INPUT_HEALTHY at that callback's own time; a diagnostics message that names nothing required changes nothing |
| AdapterRuns.TrustWasEarned | cuvslam_localization_adapter/src/adapter_node.cpp:670-796 | In every reachable state, a Healthy or Recovering gate means the present inputs were healthy at the last evaluation |
| AdapterRuns.WindowRefinesHistory | cuvslam_localization_adapter/src/adapter_node.cpp:632-653 | The deque is the last min(n, W) of all n committed stamps, positive and strictly increasing, ending at the sequence guard's stamp; rate and gap exist exactly for n >= W; the rate times the deque's span is W - 1, and the gap is its largest |
| AdapterRuns.OdometryConservation | cuvslam_localization_adapter/src/adapter_node.cpp:222-397 | received counts the odometry callbacks and equals accepted + rejected + min(committed, W - 1); shadow processed equals accepted; shadow computed equals accepted with an approved extrinsic and zero without |
| AdapterRuns.CallsAreOrdinary | cuvslam_localization_adapter/src/adapter_node.cpp:217-841 | No callback calls the gate more than once, and no call carries a transform latch, or the low-rate reason unless the contract allows it |
| AdapterRuns.TransformLatchesUnreachable | cuvslam_localization_adapter/src/adapter_node.cpp:322-396 | Over exact reals neither transform-failure latch is ever raised in any run |
| AdapterRuns.LowRateNeedsHighMinimum | cuvslam_localization_adapter/src/adapter_node.cpp:352-372 | If any run ever raises ODOMETRY_RATE_TOO_LOW, the configured minimum rate exceeds the reciprocal of the allowed gap |
| RunHealth.HealthReasonShortens | cuvslam_localization_adapter/src/adapter_node.cpp:670-776 | On every reachable state and at every time the health predicate gives, reason included, the answer of a shorter table over publishers, validity, receipts, skew, ages and missing diagnostics, in nanoseconds |
| HealthVerdicts.EvaluationVerdict | cuvslam_localization_adapter/src/adapter_node.cpp:778-796 | An evaluation makes exactly one of four calls: none on a latched gate or while starting with unhealthy inputs, the reason as a fault, none for a stamp already counted, or one observation |
| HealthVerdicts.TickVerdicts | cuvslam_localization_adapter/src/adapter_node.cpp:808-838 | In every run a tick notes the publishers and calls, in this order: a latch for the first of four publisher faults, nothing on a latched gate, an observation, start-up within the time-out, the time-out, or the reason as a fault |
| StatusVerdicts.SameClockMeans | cuvslam_localization_adapter/src/adapter_node.cpp:655-668 | The clock check passes exactly for two positive times at most the residual apart, in either direction |
| StatusVerdicts.StatusVerdictsOfRuns | cuvslam_localization_adapter/src/adapter_node.cpp:400-464 | In every run a status counts exactly when its stamp, clock, frame, four durations and tracking state are all as required; each other status has its reason, severity, guard and counters |
| StatusVerdicts.TrustNeedsTracking | cuvslam_localization_adapter/src/adapter_node.cpp:452-463 | In every run a Healthy or Recovering gate means that the last status callback had an accepted tracking state and was well-formed and in the clock domain |
| OdometryVerdicts.AcceptedExactly | cuvslam_localization_adapter/src/adapter_node.cpp:249-382 | In every run a sample is accepted if and only if message, order, clock, receipt, the last W stamps and the step from the last accepted pose are all within the contract |
| OdometryVerdicts.OdometryVerdictsOfRuns | cuvslam_localization_adapter/src/adapter_node.cpp:217-398 | In every run an odometry callback commits, accepts, refuses or warms up exactly as a table over the message and the history says, with the reason, its severity, all counters and all fields |
| OdometryVerdicts.JumpMeans | cuvslam_localization_adapter/src/adapter_node.cpp:335-346 | A sample jumps exactly when its distance from the last accepted pose is too long or some vector is carried too far apart |
| OdometryVerdicts.WindowVerdict | cuvslam_localization_adapter/src/adapter_node.cpp:348-372 | The cached rate and gap refuse a sample exactly when the last W committed stamps have too few intervals for their span or a long gap |
| DiagnosticsVerdicts.MessageVerdictsOfRuns | cuvslam_localization_adapter/src/adapter_node.cpp:466-611 | In every run a diagnostics callback does exactly what a table over the message and its sender says: each reason with its severity and precedence, the guards that move, the evidence erased or stored, and the counters |
| DiagnosticsVerdicts.SenderFaultMeans | cuvslam_localization_adapter/src/adapter_node.cpp:506-545 | Unknown, ambiguous, not alone in its node or not expected: which fault a sender has, in the code's precedence |
| DiagnosticsVerdicts.CollectSelects | cuvslam_localization_adapter/src/adapter_node.cpp:480-498 | Without a repeated name the candidates are the required statuses in the order of the message |
| DiagnosticsVerdicts.CollectStopsAt | cuvslam_localization_adapter/src/adapter_node.cpp:490-496 | With one, the search stops at the first repetition, and has counted the required statuses up to it |
| OrderVerdicts.OdometryOrder | cuvslam_localization_adapter/src/adapter_node.cpp:268-283 | In every run an otherwise valid sample with the last committed stamp is a transient fault, and one with an earlier stamp latches; neither is committed |
| OrderVerdicts.StatusOrder | cuvslam_localization_adapter/src/adapter_node.cpp:423-438 | The same for the tracking status |
| OrderVerdicts.DiagnosticsOrder | cuvslam_localization_adapter/src/adapter_node.cpp:562-578 | The same for diagnostics, where the first candidate whose guard is not before the stamp decides |
| RunHealth.StartupCannotHang | cuvslam_localization_adapter/src/adapter_node.cpp:808-841 | After every tick, Starting implies a WAITING_FOR_ reason and an age within the start-up timeout |
| RunHealth.TickBoundsStartup | cuvslam_localization_adapter/src/adapter_node.cpp:822-838 | From any consistent state a tick leaves Starting only for a reason the node waits for, and only up to the time-out |
| RunHealth.EvidenceOfLastTick | cuvslam_localization_adapter/src/adapter_node.cpp:613-630 | The publisher evidence is that of the last tick of the run, and none before the first |
| RunHealth.TrustNeedsVerifiedPublishers | cuvslam_localization_adapter/src/adapter_node.cpp:613-689 | A gate is Healthy or Recovering only if the last tick saw exactly the expected publisher on both streams |
| RunHealth.StalenessBound | cuvslam_localization_adapter/src/adapter_node.cpp:745-773 | With ticks at most one period apart, at any instant with a trusting gate the last odometry, the last status and every required diagnostic are no older than their threshold plus one period, which is less than twice the threshold |
| RunHealth.GuardsNeverAhead | cuvslam_localization_adapter/src/adapter_node.cpp:655-668 | With a nondecreasing ROS clock no sequence guard is ever ahead of it by more than the allowed residual |
| RunHealth.ClockMismatchMovesNoGuard | cuvslam_localization_adapter/src/adapter_node.cpp:285-295 | A message of any stream whose stamp fails the clock check moves no guard of any stream |
| RunRecovery.GapSpoilsWindows | cuvslam_localization_adapter/src/adapter_node.cpp:632-653 | A gap that is too long spoils every full window that contains both of its ends |
| RunRecovery.QuarantineRejects | cuvslam_localization_adapter/src/adapter_node.cpp:305-377 | None of the W - 1 samples committed from the later end of a gap on is accepted |
| RunRecovery.GapQuarantine | cuvslam_localization_adapter/src/adapter_node.cpp:296-377 | Over every run: nothing in the quarantine is accepted, and the gate is not Recovering before the W-th and not Healthy before the (W - 1 + N)-th sample committed since the gap |
| RunRecovery.RecoveryObservations | cuvslam_localization_adapter/src/adapter_node.cpp:778-796 | After a transient fault the gate is Healthy exactly when N observations of distinct, strictly increasing accepted stamps followed it; all but possibly the first were accepted after the fault, and the first as well if no valid sample was pending at the fault |
| RunFrames.FramesSinceFault | cuvslam_localization_adapter/src/adapter_node.cpp:377-382 | Over every run without a latch: the observations since the last transient fault are the frames accepted since, each once, plus one older frame exactly when a valid frame was waiting at the fault and the first callback to decide afterwards was a status, diagnostics or timer callback |
| RunFrames.RecoveryNeedsFrames | README.md:428 | So the gate is Healthy exactly when N frames were accepted since the fault, or N - 1 and an older one counts; the second case is the only one with fewer than N; N accepted frames always suffice |
| RunExample.PendingSampleRecovers | README.md:428 | A contract that the loader accepts and a run of six callbacks after which the gate is Healthy, with N = 1, although no frame was accepted since the transient fault |
| RunExample.QuarantineIsTight | cuvslam_localization_adapter/src/adapter_node.cpp:632-653 | A run in which the gate is Healthy at the (W - 1 + N)-th sample committed since a gap, so the quarantine bound cannot be improved |
| RunExample.OldEvidenceStays | cuvslam_localization_adapter/src/adapter_node.cpp:490-496 | A run in which a message that names one diagnostic twice and another once erases the evidence of the first and keeps the old evidence of the second |
| RunPoses.CameraDisplacement | localization_contracts/src/validation.cpp:104-118 | After k accepted steps the camera is within k position steps of where it was |
| RunPoses.BaseDisplacement | localization_contracts/src/rigid_transform.cpp:234-251 | The base pose stays within the camera's reach plus two lever arms |
| RunPoses.BaseTurn | localization_contracts/src/rigid_transform.cpp:132-172 | Consecutive base poses carry no vector further apart than the configured turn allows, and turn exactly as far as the camera poses |
| RunPoses.JumpCheckBoundsPoses | cuvslam_localization_adapter/src/adapter_node.cpp:335-346 | For any two accepted samples of any run: the camera's reach, the shadow base's reach, and that both turn by the same angle; between neighbours no vector is carried further apart than the configured turn allows |
| RunPoses.ShadowPoseIsBasePose | cuvslam_localization_adapter/src/adapter_node.cpp:384-389 | The shadow pose is the base pose of the last accepted sample; composed with the extrinsic it gives that camera pose back |
| RunEvidence.SourceVerified | cuvslam_localization_adapter/src/adapter_node.cpp:508-545 | A diagnostics source is accepted exactly when one endpoint alone carries the message's identifier, is the only one of its node, and that node is expected by every candidate |
| RunEvidence.EvidenceAllOrNothing | cuvslam_localization_adapter/src/adapter_node.cpp:466-611 | A message naming required diagnostics replaces the evidence of all of them, with new levels and stamps that meet the requirements, or leaves none of them with evidence and the gate in a fault; a name that comes twice erases only that name, but latches |
| RunEvidence.ReplacedOrErasedExactly | cuvslam_localization_adapter/src/adapter_node.cpp:466-611 | All the evidence named is replaced or none is left if and only if no required name comes twice, or only the name that does had evidence before |
| RunEvidence.EvidenceStaysSound | cuvslam_localization_adapter/src/adapter_node.cpp:553-609 | In every reachable state, stored evidence belongs to a required diagnostic, has an allowed level and carries its own guard's last stamp |
| AdapterInvariant.InitialInv | cuvslam_localization_adapter/src/adapter_node.cpp:138-215 | The invariant holds of a fresh node |
| AdapterInvariant.ValidOdometryMeans | cuvslam_localization_adapter/src/adapter_node.cpp:296-382 | Valid odometry implies that both odometry guards and the end of the window agree, the rate is high enough and no gap is too long |
| AdapterInvariant.EvaluateKeepsInv | cuvslam_localization_adapter/src/adapter_node.cpp:778-796 | Evaluating health from any consistent undecided state cannot throw and leaves a decided state |
| AdapterInvariant.WarmUpKeepsInv | cuvslam_localization_adapter/src/adapter_node.cpp:348-351 | The warm-up return, which marks no fault, is sound: before the window is full the gate cannot trust its inputs |
| AdapterInvariant.ShadowPoseExists | cuvslam_localization_adapter/src/adapter_node.cpp:384-396 | Every accepted pose converts to a base pose under an approved extrinsic |
| AdapterInvariant.OdometryKeepsInv | cuvslam_localization_adapter/src/adapter_node.cpp:217-398 | The odometry callback never throws, keeps the invariant and decides |
| AdapterInvariant.StatusKeepsInv | cuvslam_localization_adapter/src/adapter_node.cpp:400-464 | The status callback never throws, keeps the invariant and decides |
| AdapterInvariant.TimerKeepsInv | cuvslam_localization_adapter/src/adapter_node.cpp:808-841 | The timer never throws, keeps the invariant and decides |
| DiagnosticEvidence.DiagnosticsKeepsInv | cuvslam_localization_adapter/src/adapter_node.cpp:466-611 | The diagnostics callback never throws and keeps the invariant; it decides exactly when something required is named |
| DiagnosticEvidence.CollectSound | cuvslam_localization_adapter/src/adapter_node.cpp:480-504 | The candidates are exactly the required names of the message, each with its own requirement, unless a name comes twice |
| DiagnosticEvidence.CollectDuplicates | cuvslam_localization_adapter/src/adapter_node.cpp:490-496 | The search stops at a duplicate exactly when some required name occurs twice, and reports such a name |
| DiagnosticEvidence.StampFaultDefined | cuvslam_localization_adapter/src/adapter_node.cpp:562-579 | Classifying the candidates never misses a guard and accepts exactly when every named guard accepts |
| DiagnosticEvidence.CommitGuardsMoves | cuvslam_localization_adapter/src/adapter_node.cpp:580-582 | After acceptance the commits cannot fail; they move exactly the guards of the candidates, to the message's stamp |
| DiagnosticEvidence.EvidenceErrorNone | cuvslam_localization_adapter/src/adapter_node.cpp:584-603 | No evidence error exactly when every candidate meets its requirement |
| DiagnosticEvidence.StoreEvidenceWrites | cuvslam_localization_adapter/src/adapter_node.cpp:605-609 | Storing writes exactly the candidates' names and keeps all other evidence |
| AdapterEffects.OdometryChanges | cuvslam_localization_adapter/src/adapter_node.cpp:217-398 | What an odometry callback can change: other streams never; histories only by this message, and only after the clock check |
| AdapterEffects.StatusChanges | cuvslam_localization_adapter/src/adapter_node.cpp:400-464 | What a status callback can change: nothing of odometry, diagnostics or publishers; guards only to a stamp that passed the clock check |
| AdapterEffects.DiagnosticsChanges | cuvslam_localization_adapter/src/adapter_node.cpp:466-611 | What a diagnostics callback can change: nothing of odometry, status or publishers; guards only to a stamp that passed the clock check; evidence kept, erased or received now |
| AdapterEffects.TimerChanges | cuvslam_localization_adapter/src/adapter_node.cpp:808-841 | A tick changes the publisher evidence, the gate and its observations and nothing else |
| AdapterNode.CuvslamLocalizationAdapter.constructor | cuvslam_localization_adapter/src/adapter_node.cpp:138-215 | A fresh node has the initial state and satisfies the class invariant |
| AdapterNode.CuvslamLocalizationAdapter.OnOdometryMessage | cuvslam_localization_adapter/src/adapter_node.cpp:217-398 | The odometry callback on the fields does what the step function says, returns normally and keeps the class invariant |
| AdapterNode.CuvslamLocalizationAdapter.OnStatusMessage | cuvslam_localization_adapter/src/adapter_node.cpp:400-464 | The same for the tracking status callback |
| AdapterNode.CuvslamLocalizationAdapter.OnDiagnosticsMessage | cuvslam_localization_adapter/src/adapter_node.cpp:466-611 | The same for the diagnostics callback |
| AdapterNode.CuvslamLocalizationAdapter.OnTimer | cuvslam_localization_adapter/src/adapter_node.cpp:808-841 | The same for the timer, apart from publishing the report |
| AdapterNode.CuvslamLocalizationAdapter.InputsAreHealthy | cuvslam_localization_adapter/src/adapter_node.cpp:670-776 | The predicate on the fields, checks in order, equals the specification function |
| AdapterNode.CuvslamLocalizationAdapter.MaybeAdvance | cuvslam_localization_adapter/src/adapter_node.cpp:778-796 | Advances, faults or leaves the gate as the specification function says, and observes each stamp once |
| AdapterNode.CuvslamLocalizationAdapter.UpdateRate | cuvslam_localization_adapter/src/adapter_node.cpp:632-653 | The push and the popping loop leave the last W stamps, and the cached metrics follow |
| AdapterNode.CuvslamLocalizationAdapter.CommitSample | cuvslam_localization_adapter/src/adapter_node.cpp:296-320 | Guard, window, receive gap and stamp gap bookkeeping of one commit, old stamp and old time included |
| AdapterNode.CuvslamLocalizationAdapter.AcceptSample | cuvslam_localization_adapter/src/adapter_node.cpp:377-397 | Acceptance, shadow pose and evaluation, with the fields they write and no other |
| AdapterNode.CuvslamLocalizationAdapter.JudgeSample | cuvslam_localization_adapter/src/adapter_node.cpp:322-375 | Pose construction, jump, warm-up, rate and gap branches in the code's order |
| AdapterNode.CuvslamLocalizationAdapter.ReceiveStatus | cuvslam_localization_adapter/src/adapter_node.cpp:400-464 | All branches of the status callback, on the fields |
| AdapterNode.CuvslamLocalizationAdapter.CollectCandidates | cuvslam_localization_adapter/src/adapter_node.cpp:480-500 | The loop over the statuses finds the candidates up to the first name that comes twice |
| AdapterNode.CuvslamLocalizationAdapter.VerifySource | cuvslam_localization_adapter/src/adapter_node.cpp:508-545 | The endpoint loops find the fault of the source, if any |
| AdapterNode.CuvslamLocalizationAdapter.CommitCandidates | cuvslam_localization_adapter/src/adapter_node.cpp:580-582 | The loop of guard commits leaves exactly the guards of the specification |
| AdapterNode.CuvslamLocalizationAdapter.ApplyDiagnostics | cuvslam_localization_adapter/src/adapter_node.cpp:580-610 | Guards are committed before the values are checked; only then is evidence stored |
| AdapterNode.CuvslamLocalizationAdapter.CheckPublishers | cuvslam_localization_adapter/src/adapter_node.cpp:812-821 | Publisher evidence and the four publisher latches of a tick |
| HealthGate.GateClosedForm | localization_contracts/src/gate.cpp:58-104 | After every sequence of calls state, reason and progress are a function of four summaries: the last latch, the last transient fault, the last start-up reason and the samples since the last transient fault |
| HealthGate.LatchedForeverStartingOnce | localization_contracts/src/gate.cpp:58-104 | A latched gate stays latched and Starting is never re-entered, whatever calls follow |
| HealthGate.RecoveryTakesExactly | localization_contracts/src/gate.cpp:84-104 | After a transient fault the gate is Healthy at the N-th observation and Recovering with progress k at the k-th before it |
| HealthGate.RuntimeHealthGate.Make | localization_contracts/src/gate.cpp:50-56 | A gate that needs no sample is refused; any other starts in the initial state with an empty history of calls |
| HealthGate.RuntimeHealthGate.MarkStartingFor | localization_contracts/src/gate.cpp:58-65 | The call is recorded and the gate is the closed form of its history |
| HealthGate.RuntimeHealthGate.MarkTransientFor | localization_contracts/src/gate.cpp:67-75 | The call is recorded and the gate is the closed form of its history |
| HealthGate.RuntimeHealthGate.MarkLatchedFor | localization_contracts/src/gate.cpp:77-82 | The call is recorded and the gate is the closed form of its history |
| HealthGate.RuntimeHealthGate.ObserveHealthy | localization_contracts/src/gate.cpp:84-104 | The call is recorded and the gate is the closed form of its history |
| Stamps.StampConversion | cuvslam_localization_adapter/src/adapter_node.cpp:81-94 | Exactly the normalized nonnegative stamps convert; seconds and nanoseconds can be read back from the result, which fits 63 bits |
| Stamps.StampConversionOrdered | cuvslam_localization_adapter/src/adapter_node.cpp:81-94 | Conversion keeps order and is injective on normalized stamps |
| Stamps.StrictStampGuard.Classify | localization_contracts/src/validation.cpp:35-47 | Failure exactly for stamps that are not positive; otherwise accept for a later one, duplicate for the same, nonmonotonic for an earlier one |
| Stamps.StrictStampGuard.Commit | localization_contracts/src/validation.cpp:49-55 | Succeeds exactly for positive, strictly later stamps; otherwise the guard is as before |
| Stamps.GuardAcceptsStrictlyIncreasing | localization_contracts/src/validation.cpp:35-55 | The sequences a guard commits are exactly the positive, strictly increasing ones after its last stamp, and it ends at their last |
| Stamps.ComputeStampWindowMetrics | localization_contracts/src/validation.cpp:74-102 | For positive, strictly increasing windows the rate times the sum of the gaps is the number of gaps, and the largest gap bounds all and is one of them; failure for other windows, nothing for fewer than two stamps |
| Stamps.MaximumGapBounds | localization_contracts/src/validation.cpp:92-94 | The largest gap is the least upper bound of the gaps |
| Stamps.GapsTelescope | localization_contracts/src/validation.cpp:92-98 | The gaps of a window add up to its span |
| Stamps.RateIsMean | localization_contracts/src/validation.cpp:96-101 | The rate times the sum of the gaps is the number of gaps |
| Stamps.RateWithinGapBounds | localization_contracts/src/validation.cpp:96-101 | The rate lies between the reciprocals of any upper and lower bound of the gaps |
| Stamps.RateTimesMaximumGap | localization_contracts/src/validation.cpp:96-101 | Rate times largest gap is at least one |
| Stamps.RateFloor | localization_contracts/src/validation.cpp:96-101 | Without an over-long gap the mean rate is at least the reciprocal of the allowed gap |
| OdometryValidation.ValidateOdometrySample | localization_contracts/src/validation.cpp:144-200 | The issues, in the code's order, or the frame exception of the expectation itself |
| OdometryValidation.SampleVerdict | cuvslam_localization_adapter/src/adapter_node.cpp:249-265 | No issue exactly for valid samples; the callback latches exactly on a frame mismatch and reports the first issue |
| OdometryValidation.IssuesExactly | localization_contracts/src/validation.cpp:144-200 | Each of the seven issues is reported exactly when its own check fails |
| OdometryVerdicts.FirstIssue | cuvslam_localization_adapter/src/adapter_node.cpp:253-265 | The event of an invalid sample is that of the first check it fails, in the order of the code |
| ContractConfig.CheckDiagnosticEvidence | cuvslam_localization_adapter/src/contract_config.cpp:643-667 | Level or identity, then repeated key, then missing or different value; accepted exactly when none applies |
| ContractConfig.IndexValues | cuvslam_localization_adapter/src/contract_config.cpp:655-660 | The map of the values exists exactly when no key repeats, and holds exactly the values |
| ContractConfig.EvidenceOrderIrrelevant | cuvslam_localization_adapter/src/contract_config.cpp:643-667 | Permuting the values changes neither acceptance nor the reason |
| ContractConfig.EvidenceExtraValue | cuvslam_localization_adapter/src/contract_config.cpp:643-667 | A further value is harmless exactly when its key is new |
| RigidTransforms.ValidatedNormalizedQuaternion | localization_contracts/src/rigid_transform.cpp:39-53 | Succeeds exactly for finite readings with norm within tolerance of one, and then gives a unit quaternion |
| RigidTransforms.Create | localization_contracts/src/rigid_transform.cpp:91-108 | Succeeds exactly for two different valid frames, a finite translation and a normalizable rotation; frame errors come first |
| RigidTransforms.ComposeResult | localization_contracts/src/rigid_transform.cpp:132-158 | Composition succeeds exactly when the frames connect and a closing chain is consistent; a closed chain gives the identity |
| RigidTransforms.ClosesMeans | localization_contracts/src/rigid_transform.cpp:148-156 | A chain closes exactly within a nanometre and a turn of a nanoradian |
| RigidTransforms.ComposeAssociative | localization_contracts/src/rigid_transform.cpp:132-158 | Associative, errors included, whenever no inner pair closes a chain; the outer pair may |
| RigidTransforms.ComposeAssociativeExactly | localization_contracts/src/rigid_transform.cpp:132-158 | For all transforms, connected or not, errors included, the exact condition of associativity: with one closing inner pair its product is exactly the identity or the third transform is one; with two, both are refused, or both pass and the outer transforms are equal |
| RigidTransforms.AssociativityFails | localization_contracts/src/rigid_transform.cpp:148-156 | Triples that do not associate: one inner pair closes a tenth of a nanometre off, or both close and the outer transforms differ by as much |
| RigidTransforms.IdentityComposes | localization_contracts/src/rigid_transform.cpp:110-158 | The identity is neutral on both sides |
| RigidTransforms.ComposeApplies | localization_contracts/src/rigid_transform.cpp:132-184 | Whenever a composition succeeds it acts on all points as its factors in turn, if and only if the chain is open or its raw product moves nothing |
| RigidTransforms.InverseComposes | localization_contracts/src/rigid_transform.cpp:160-172 | The inverse is two-sided, passes the closed-chain check, and is an involution |
| RigidTransforms.InverseApplies | localization_contracts/src/rigid_transform.cpp:160-184 | The inverse undoes the action on points |
| RigidTransforms.EquivalentExactly | localization_contracts/src/rigid_transform.cpp:186-207 | With tolerances of zero: equal frames and translations, rotations equal up to the quaternion's sign; such transforms act alike on every point |
| RigidTransforms.EquivalentWithin | localization_contracts/src/rigid_transform.cpp:186-207 | For all tolerances: equivalent exactly when the origins lie within the distance and no vector is carried further apart than the angle allows |
| RigidTransforms.EquivalenceLaws | localization_contracts/src/rigid_transform.cpp:186-207 | For all tolerances: reflexive, symmetric, and kept by wider tolerances |
| RigidTransforms.EquivalenceInvariant | localization_contracts/src/rigid_transform.cpp:132-207 | For all tolerances: seen from another frame two transforms are as equivalent as before |
| RigidTransforms.BasePoseExists | localization_contracts/src/rigid_transform.cpp:234-251 | The conversion succeeds exactly for T[odom,camera_link] and T[base_link,camera_link] |
| RigidTransforms.BasePoseRoundTrip | localization_contracts/src/rigid_transform.cpp:234-251 | Converting T[odom,base] T[base,camera] gives T[odom,base] back |
| RigidTransforms.CameraPoseRoundTrip | localization_contracts/src/rigid_transform.cpp:234-251 | The base pose composed with the extrinsic is the camera pose |
| RigidTransforms.BaseTurnsWithCamera | localization_contracts/src/validation.cpp:104-118 | Two base poses carry some vector further apart than any given angle allows exactly when the camera poses do |
| RigidTransforms.LeverArm | localization_contracts/src/rigid_transform.cpp:234-251 | The base origin is one lever arm away from the camera origin |
| Geometry.TurnMeasured | localization_contracts/src/validation.cpp:112-117 | With d the dot product of two unit quaternions, |p v - q v|^2 <= 4 (1 - d^2) |v|^2 for all v, with equality for some nonzero v: |d| is the cosine of half the angle between them |
| RigidTransforms.StepMeasures | localization_contracts/src/validation.cpp:104-118 | A step is the squared distance of the origins, and a cosine below any given one exactly when the rotations carry some vector further apart than that angle allows |
| TwistContract.TransportAccepts | localization_contracts/src/twist_contract.cpp:36-70 | Exactly approved, matching, finite twists are transported; missing approval comes first, and the raw cuVSLAM twist is always refused |
| TwistContract.TransportComposes | localization_contracts/src/twist_contract.cpp:72-82 | Transport through T[b,c] and then T[a,b] is transport through their composition for all twists, if and only if the chain is open or its raw product moves nothing |
| TwistContract.TransportInverse | localization_contracts/src/twist_contract.cpp:72-82 | Transport through the inverse undoes transport |
| TwistContract.TransportIsOneMotion | localization_contracts/src/twist_contract.cpp:72-82 | The transported twist describes the same motion: every point of the body has the same velocity in both descriptions |
| TwistContract.TransportInvariants | localization_contracts/src/twist_contract.cpp:72-82 | Turn rate and the product of turn rate and velocity are preserved, and the result belongs to the parent frame |

## Left out

- ROS plumbing: node construction, parameters, QoS, remap checks, launch files, subscriptions and `main.cpp`. Topics and
  publisher endpoints are inputs of the model; `FullyQualifiedNodeName` and the bytes of a publisher identifier are not
  part of it.
- `PublishDiagnosticsLocked` and the values that only it reads: the last frame names, tracking state, clock residuals
  and receive gap. `EvaluateLocalizationPublishGate` refuses unconditionally in this revision and adds no claim.
- YAML parsing, file access and the SHA-256 of the contract. `ValidContract` states what `ParseInput`, `ParseHealth`,
  `ParseExtrinsic` and the frame checks of the loader leave true; every theorem about runs assumes only that.
- IEEE arithmetic: reals are exact, NaN and infinity are flags or constructors of a message, overflow does not occur.
  The two transform latches are unreachable under this reading; rounding could in principle reach them.
- The square root and the arc cosine as computed functions: thresholds on lengths and angles are compared through
  squares and half-angle cosines, which is the same comparison over exact reals. The constant 1e-9 rad of the
  closed-chain check becomes the first terms of the cosine's series, short of it by less than 3e-39.
- The covariance test for positive semidefiniteness: its two verdicts are flags of the odometry message.
- Counters are unbounded; the source counts in 64 bits.
- Reason strings are an enumeration, and the WAITING_FOR_ prefix is a predicate on it.
- Interleavings of a multi-threaded executor: the program spins a single thread, and callbacks are atomic here.
- The order of a `std::map` or `std::set` during iteration, which no result depends on.
- `ToString`, accessors and the textual approvals of publication.
- The YOPO bridge, the MAVROS gateway and the map alignment, which the documentation describes and the code does not
  contain.
- AdapterNode.CuvslamLocalizationAdapter.constructor: does not model the refusals of a mode other than shadow, of another
  authorization, of remapped topics and of a required diagnostic with the node's own full name, because the node's name,
  its parameters and its topics are not part of the model; `ValidContract` already refuses the suffix of such names.
- AdapterNode.CuvslamLocalizationAdapter.OnTimer: does not model the report published at the end of the tick, because it
  changes no state that a callback reads.
- Stamps.ComputeStampWindowMetrics: does not model rounding of long double to double, see IEEE arithmetic above.
- ContractConfig.CheckDiagnosticEvidence: visits the required values in any order, where the source goes by key.
