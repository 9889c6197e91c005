/** What every reachable state of the node satisfies, and that no callback can throw from such a state. */
module AdapterInvariant {
  import opened Contracts
  import opened Reasons
  import opened RigidTransforms
  import opened Stamps
  import opened HealthGate
  import opened ContractConfig
  import opened OdometryValidation
  import opened AdapterState
  import opened AdapterSteps

  // ----- odometry -----

  function LastStamp(stamps: seq<int>): Option<int> {
    if stamps == [] then None else Some(stamps[|stamps| - 1])
  }

  /** The window ending at a committed stamp. */
  function WindowAt(c: Contract, committed: seq<int>, index: nat): seq<int>
    requires index < |committed|
  {
    LastStamps(committed[..index + 1], c.health.odometryRateWindowSamples)
  }

  /** A full window with a sufficient rate and no over-long gap. */
  ghost predicate CleanWindow(c: Contract, window: seq<int>) {
    && |window| == c.health.odometryRateWindowSamples >= 2
    && StrictlyIncreasing(window)
    && MeanRate(window) >= c.health.minimumOdometryRateHz
    && MaximumGap(window) <= c.health.maximumOdometryStampGapSec
  }

  /** The window and its cached metrics are functions of the committed stamps. */
  ghost predicate WindowInv(c: Contract, o: OdometryTrack, h: OdometryHistory) {
    && StrictlyIncreasing(h.committed) && Positive(h.committed)
    && o.sequenceGuard == LastStamp(h.committed)
    && o.window == LastStamps(h.committed, c.health.odometryRateWindowSamples)
    && (if |h.committed| < c.health.odometryRateWindowSamples then o.rateHz == None && o.maximumGapSec == None
        else
          && |o.window| >= 2 && o.window[0] < o.window[|o.window| - 1]
          && o.rateHz == Some(MeanRate(o.window)) && o.maximumGapSec == Some(MaximumGap(o.window)))
  }

  ghost predicate AcceptedSampleInv(c: Contract, committed: seq<int>, a: Accepted) {
    && a.index < |committed|
    && a.stampNs == committed[a.index]
    && CleanWindow(c, WindowAt(c, committed, a.index))
    && IsCameraPose(a.pose)
  }

  predicate StepWithin(c: Contract, previous: RigidTransform, pose: RigidTransform) {
    var step := MeasurePoseStep(previous, pose);
    step.Success? && !ExceedsStep(c.health, step.value)
  }

  /** Accepted samples: in commit order, on clean windows, one pose step apart; the fields describe the last of them. */
  ghost predicate AcceptedInv(c: Contract, o: OdometryTrack, h: OdometryHistory) {
    && (forall i | 0 <= i < |h.accepted| :: AcceptedSampleInv(c, h.committed, h.accepted[i]))
    && (forall i, j | 0 <= i < j < |h.accepted| :: h.accepted[i].index < h.accepted[j].index)
    && (forall i | 0 < i < |h.accepted| :: StepWithin(c, h.accepted[i - 1].pose, h.accepted[i].pose))
    && (o.receivedAt.Some? <==> h.accepted != [])
    && (if h.accepted == [] then !o.valid && o.stampGuard == None && o.inputPose == None && o.shadowPose == None
        else
          var last := h.accepted[|h.accepted| - 1];
          && o.stampGuard == Some(last.stampNs)
          && o.inputPose == Some(last.pose)
          && (o.valid ==> last.index == |h.committed| - 1)
          && o.shadowPose == (if c.extrinsic.IsApproved() then ShadowPose(c, last.pose) else None))
  }

  function WarmUp(c: Contract, committed: seq<int>): nat {
    if |committed| < c.health.odometryRateWindowSamples then |committed|
    else if c.health.odometryRateWindowSamples == 0 then 0 else c.health.odometryRateWindowSamples - 1
  }

  /** Every received sample is accepted, rejected, or one of the first W - 1 committed ones. */
  ghost predicate CountersInv(c: Contract, n: Counters, h: OdometryHistory) {
    && n.received == n.accepted + n.rejected + WarmUp(c, h.committed)
    && n.accepted == |h.accepted|
    && n.shadowProcessed == n.accepted
    && n.shadowPoseComputed == (if c.extrinsic.IsApproved() then n.accepted else 0)
  }

  // ----- status and diagnostics -----

  ghost predicate StatusInv(t: StatusTrack) {
    && (t.stampGuard.Some? <==> t.receivedAt.Some?)
    && (t.stampGuard.Some? ==> t.sequenceGuard.Some? && 0 < t.stampGuard.value <= t.sequenceGuard.value)
    && (t.valid ==> t.stampGuard.Some? && t.stampGuard == t.sequenceGuard)
  }

  predicate LevelAllowed(required: seq<RequiredDiagnostic>, name: string, level: uint8) {
    match FindRequired(required, name)
    case Some(r) => level <= r.maximumLevel
    case None => false
  }

  /** Stored evidence satisfies its required level and carries the last stamp of its own guard. */
  ghost predicate DiagnosticsInv(c: Contract, d: DiagnosticTrack) {
    && d.guards.Keys == DiagnosticNames(c.input.requiredDiagnostics)
    && (forall n | n in d.observations ::
          && n in d.guards
          && d.guards[n] == Some(d.observations[n].stampNs)
          && LevelAllowed(c.input.requiredDiagnostics, n, d.observations[n].level))
  }

  /** Before the first tick the node knows of no publisher. */
  ghost predicate PublishersInv(s: State) {
    s.gateHistory.lastTick.None? ==> s.publishers.odometryCount == 0
  }

  // ----- the gate -----

  predicate Trusting(state: HealthState) {
    state == Healthy || state == Recovering
  }

  predicate Faulted(state: HealthState) {
    state == TransientFault || state == LatchedFault
  }

  /**
   The gate replays its calls; it trusts the inputs only if they were healthy when last evaluated; and once the window
   is full, odometry that is not valid means a fault.
   */
  ghost predicate GateInv(c: Contract, s: State) {
    && s.gate == Replay(c.health.recoveryConsecutiveSamples, s.gateHistory.calls)
    && (Trusting(s.gate.state) ==> HealthReason(c, s, s.gateHistory.evaluatedAt) == Success(InputHealthy))
    && (|s.odometryHistory.committed| >= c.health.odometryRateWindowSamples && !s.odometry.valid ==>
          Faulted(s.gate.state))
  }

  ghost predicate AcceptedFrom(h: OdometryHistory, from: nat, stampNs: int) {
    exists j | from <= j < |h.accepted| :: h.accepted[j].stampNs == stampNs
  }

  function PendingCount(g: GateHistory): nat {
    if g.faultPending then 1 else 0
  }

  /** Observations are of distinct accepted stamps, in order, and count what the gate has seen since the last fault. */
  ghost predicate ObservedInv(s: State) {
    var g, h := s.gateHistory, s.odometryHistory;
    && StrictlyIncreasing(g.observed)
    && s.lastHealthObserved == LastStamp(g.observed)
    && (forall i | 0 <= i < |g.observed| :: AcceptedFrom(h, 0, g.observed[i]))
    && g.faultObserved <= |g.observed| && g.faultAccepted <= |h.accepted|
    && (LastLatch(g.calls).None? ==> |g.observed| == g.faultObserved + HealthySinceTransient(g.calls))
    && (LastLatch(g.calls).None? && LastTransient(g.calls).None? ==> g.faultObserved == 0 && g.faultCommitted == 0)
  }

  /** From which accepted sample on the i-th observation can come. */
  function FirstUsable(g: GateHistory, i: nat): nat {
    if i < g.faultObserved + PendingCount(g) && g.faultAccepted > 0 then g.faultAccepted - 1 else g.faultAccepted
  }

  /**
   Samples accepted since the last fault were committed after it. The observations since the fault are of those
   samples, except that the first can be of the one that was pending at the fault, which was the last committed then.
   */
  ghost predicate FaultInv(s: State) {
    var g, h := s.gateHistory, s.odometryHistory;
    && g.faultObserved <= |g.observed| && g.faultAccepted <= |h.accepted| && g.faultCommitted <= |h.committed|
    && (g.faultPending ==> g.faultAccepted > 0 && h.accepted[g.faultAccepted - 1].index + 1 == g.faultCommitted)
    && (forall j | g.faultAccepted <= j < |h.accepted| :: h.accepted[j].index >= g.faultCommitted)
    && (forall i | g.faultObserved <= i < |g.observed| :: AcceptedFrom(h, FirstUsable(g, i), g.observed[i]))
    && (|h.accepted| == g.faultAccepted ==>
          && |g.observed| <= g.faultObserved + PendingCount(g)
          && (|g.observed| == g.faultObserved + PendingCount(g) ==> !Pending(s)))
  }

  /** Among the first bound commits, each that completed an unclean full window was followed by a fault. */
  ghost predicate MarkedInv(c: Contract, s: State, bound: nat) {
    forall q | c.health.odometryRateWindowSamples - 1 <= q < |s.odometryHistory.committed| && 0 <= q < bound ::
      CleanWindow(c, WindowAt(c, s.odometryHistory.committed, q)) || q < s.gateHistory.faultCommitted
  }

  /** The parts that no call on the gate can touch. */
  ghost predicate DataInv(c: Contract, s: State) {
    && WindowInv(c, s.odometry, s.odometryHistory)
    && AcceptedInv(c, s.odometry, s.odometryHistory)
    && CountersInv(c, s.counters, s.odometryHistory)
    && StatusInv(s.status)
    && DiagnosticsInv(c, s.diagnostics)
    && PublishersInv(s)
  }

  ghost predicate Inv(c: Contract, s: State) {
    && DataInv(c, s)
    && GateInv(c, s)
    && ObservedInv(s)
    && FaultInv(s)
    && MarkedInv(c, s, |s.odometryHistory.committed|)
  }

  /** What holds in the middle of a callback, before it reaches its decision. */
  ghost predicate Undecided(c: Contract, s: State) {
    && DataInv(c, s)
    && s.gate == Replay(c.health.recoveryConsecutiveSamples, s.gateHistory.calls)
    && ObservedInv(s)
    && FaultInv(s)
    && MarkedInv(c, s, |s.odometryHistory.committed|)
  }

  /** The outcome of a decision at the steady time now: a gate that trusts its inputs has just found them healthy. */
  ghost predicate Decided(c: Contract, s: State, now: int) {
    && Inv(c, s)
    && (Trusting(s.gate.state) ==>
          s.gateHistory.evaluatedAt == now && HealthReason(c, s, now) == Success(InputHealthy))
  }

  // ----- initial state -----

  lemma InitialInv(c: Contract, startedAt: int)
    requires ValidContract(c)
    ensures Inv(c, InitialState(c, startedAt))
  {
    hide ValidInput;
    hide ValidExtrinsic;
    hide IsCameraPose;
    hide IsCameraExtrinsic;
  }

  // ----- calls on the gate -----

  lemma CountsAfterFault(calls: seq<GateEvent>, event: GateEvent)
    ensures event.MarkLatched? ==> LastLatch(calls + [event]).Some?
    ensures event.MarkTransient? ==> HealthySinceTransient(calls + [event]) == 0
    ensures event.MarkStarting? || event.MarkTransient? || event.ObserveHealthySample? ==>
            LastLatch(calls + [event]) == LastLatch(calls)
    ensures event.MarkTransient? ==> LastTransient(calls + [event]).Some?
    ensures event.MarkStarting? || event.ObserveHealthySample? ==>
            LastTransient(calls + [event]) == LastTransient(calls)
    ensures event.MarkStarting? ==> HealthySinceTransient(calls + [event]) == HealthySinceTransient(calls)
    ensures event.ObserveHealthySample? ==>
            HealthySinceTransient(calls + [event]) == HealthySinceTransient(calls) + 1
  {
    assert (calls + [event])[..|calls|] == calls;
  }

  /** A fault settles everything but the data and the list of calls: nothing has been observed since. */
  lemma FaultKeepsInv(c: Contract, s: State, event: GateEvent)
    requires DataInv(c, s) && IsFault(event)
    requires s.gate == Replay(c.health.recoveryConsecutiveSamples, s.gateHistory.calls)
    requires ObservedInv(s)
    ensures Inv(c, Fault(c, s, event))
    ensures Faulted(Fault(c, s, event).gate.state)
  {
    hide DataInv;
    hide HealthReason;
    hide Replay;
    hide LastLatch;
    hide HealthySinceTransient;
    hide LastTransient;
    hide StrictlyIncreasing;
    hide AcceptedFrom;
    hide CleanWindow;
    assert DataInv(c, Fault(c, s, event)) by { DataFramed(c, s, Fault(c, s, event)); }
    ReplayAppend(c.health.recoveryConsecutiveSamples, s.gateHistory.calls, event);
    CountsAfterFault(s.gateHistory.calls, event);
    PendingIsLast(c, s);
  }

  /** A pending stamp belongs to the sample committed last. */
  lemma PendingIsLast(c: Contract, s: State)
    requires DataInv(c, s)
    ensures Pending(s) ==>
            && s.odometryHistory.accepted != []
            && s.odometryHistory.accepted[|s.odometryHistory.accepted| - 1].index + 1 == |s.odometryHistory.committed|
  {
    hide WindowInv;
    hide CountersInv;
    hide StatusInv;
    hide DiagnosticsInv;
    hide StepWithin;
    hide CleanWindow;
    hide IsCameraPose;
  }

  /** The data part does not look at the gate. */
  lemma DataFramed(c: Contract, s: State, t: State)
    requires DataInv(c, s)
    requires t.odometry == s.odometry && t.odometryHistory == s.odometryHistory && t.counters == s.counters
    requires t.status == s.status && t.diagnostics == s.diagnostics && t.publishers == s.publishers
    requires t.gateHistory.lastTick == s.gateHistory.lastTick
    ensures DataInv(c, t)
  {
    hide WindowInv;
    hide AcceptedInv;
    hide CountersInv;
    hide StatusInv;
    hide DiagnosticsInv;
  }

  // ----- what validity means -----

  /** Valid odometry stands on a full clean window that ends at the stamp both odometry guards hold. */
  lemma ValidOdometryMeans(c: Contract, s: State)
    requires DataInv(c, s) && s.odometry.valid
    ensures s.odometry.stampGuard == s.odometry.sequenceGuard == LastStamp(s.odometry.window)
    ensures s.odometry.stampGuard.Some? && s.odometry.stampGuard.value > 0
    ensures s.odometry.rateHz.Some? && s.odometry.rateHz.value >= c.health.minimumOdometryRateHz
    ensures s.odometry.maximumGapSec.Some? && s.odometry.maximumGapSec.value <= c.health.maximumOdometryStampGapSec
    ensures s.odometry.receivedAt.Some?
  {
    hide CountersInv;
    hide StatusInv;
    hide DiagnosticsInv;
    hide StepWithin;
    hide MeanRate;
    hide MaximumGap;
    var h := s.odometryHistory;
    var last := h.accepted[|h.accepted| - 1];
    assert AcceptedSampleInv(c, h.committed, last);
    assert h.committed[..last.index + 1] == h.committed;
    hide StrictlyIncreasing;
  }

  lemma AcceptedStampsIncrease(c: Contract, s: State)
    requires DataInv(c, s)
    ensures forall i, j | 0 <= i < j < |s.odometryHistory.accepted| ::
              s.odometryHistory.accepted[i].stampNs < s.odometryHistory.accepted[j].stampNs
  {
    hide CleanWindow;
    hide IsCameraPose;
    hide StepWithin;
    hide CountersInv;
    hide StatusInv;
    hide DiagnosticsInv;
    hide PublishersInv;
    var h := s.odometryHistory;
    assert forall i | 0 <= i < |h.accepted| :: AcceptedSampleInv(c, h.committed, h.accepted[i]);
  }

  // ----- evaluating the health predicate -----

  lemma AcceptedLast(c: Contract, s: State)
    requires DataInv(c, s) && s.odometry.stampGuard.Some?
    ensures s.odometryHistory.accepted != []
    ensures var last := s.odometryHistory.accepted[|s.odometryHistory.accepted| - 1];
            && s.odometry.stampGuard == Some(last.stampNs) && last.stampNs > 0
            && AcceptedSampleInv(c, s.odometryHistory.committed, last)
  {
    hide CleanWindow;
    hide StepWithin;
    hide IsCameraPose;
    hide StatusInv;
    hide DiagnosticsInv;
  }

  /** On reachable data the predicate itself never throws. */
  lemma HealthReasonDefined(c: Contract, s: State, now: int)
    requires DataInv(c, s)
    ensures HealthReason(c, s, now).Success?
  {
    hide WindowInv;
    hide AcceptedInv;
    hide CountersInv;
    hide DiagnosticsInv;
    hide DiagnosticsReason;
    hide PublishersReason;
    hide Seconds;
    if s.odometry.stampGuard.Some? {
      AcceptedLast(c, s);
    }
  }

  /** What the predicate has looked at when it answers INPUT_HEALTHY. */
  lemma HealthyInputs(c: Contract, s: State, now: int)
    requires HealthReason(c, s, now) == Success(InputHealthy)
    ensures s.odometry.valid && s.status.valid
    ensures s.odometry.stampGuard.Some? && s.status.stampGuard.Some?
    ensures s.odometry.receivedAt.Some? && s.status.receivedAt.Some?
    ensures Seconds(now - s.odometry.receivedAt.value) <= c.health.odometryStaleAfterSec
    ensures Seconds(now - s.status.receivedAt.value) <= c.health.trackingStaleAfterSec
    ensures PublishersReason(s.publishers) == InputHealthy
    ensures s.odometry.rateHz.Some? && s.odometry.maximumGapSec.Some?
    ensures DiagnosticsReason(c.input.requiredDiagnostics, s.diagnostics.observations,
                              c.health.diagnosticStaleAfterSec, now) == InputHealthy
  {
    hide PublishersReason;
    hide DiagnosticsReason;
    hide Seconds;
  }

  /** The predicate does not look at the gate or at any history. */
  lemma HealthReasonFramed(c: Contract, s: State, t: State, now: int)
    requires t.odometry == s.odometry && t.status == s.status && t.publishers == s.publishers
    requires t.diagnostics.observations == s.diagnostics.observations && t.counters.received == s.counters.received
    ensures HealthReason(c, t, now) == HealthReason(c, s, now)
  {
    hide DiagnosticsReason;
    hide PublishersReason;
    hide Seconds;
  }

  lemma StrictlyIncreasingAppend(stamps: seq<int>, stampNs: int)
    requires StrictlyIncreasing(stamps)
    requires stamps != [] ==> stamps[|stamps| - 1] < stampNs
    ensures StrictlyIncreasing(stamps + [stampNs])
    ensures LastStamp(stamps + [stampNs]) == Some(stampNs)
  {
  }

  lemma ObserveKeepsInv(c: Contract, s: State, now: int)
    requires Undecided(c, s)
    requires HealthReason(c, s, now) == Success(InputHealthy)
    requires s.gateHistory.evaluatedAt == now
    requires s.odometry.stampGuard.Some? && s.lastHealthObserved != s.odometry.stampGuard
    ensures Inv(c, Observe(c, s))
    ensures HealthReason(c, Observe(c, s), now) == Success(InputHealthy)
    ensures Observe(c, s).gateHistory.evaluatedAt == now
  {
    hide CleanWindow;
    hide DataInv;
    hide HealthReason;
    hide Replay;
    hide ObservedInv;
    hide FaultInv;
    hide Apply;
    var t := Observe(c, s);
    HealthyInputs(c, s, now);
    HealthReasonFramed(c, s, t, now);
    DataFramed(c, s, t);
    AcceptedLast(c, s);
    var last := s.odometryHistory.accepted[|s.odometryHistory.accepted| - 1];
    ReplayAppend(c.health.recoveryConsecutiveSamples, s.gateHistory.calls, ObserveHealthySample);
    ObservedBefore(c, s, last);
    ObserveExtends(c, s, last);
    ObserveWithinFault(c, s, last);
  }

  lemma ObserveExtends(c: Contract, s: State, last: Accepted)
    requires ObservedInv(s) && s.odometry.stampGuard == Some(last.stampNs)
    requires s.odometryHistory.accepted != []
    requires last == s.odometryHistory.accepted[|s.odometryHistory.accepted| - 1]
    requires s.gateHistory.observed != [] ==>
             s.gateHistory.observed[|s.gateHistory.observed| - 1] < last.stampNs
    ensures ObservedInv(Observe(c, s))
  {
    hide LastLatch;
    hide HealthySinceTransient;
    hide LastTransient;
    hide Apply;
    CountsAfterFault(s.gateHistory.calls, ObserveHealthySample);
    StrictlyIncreasingAppend(s.gateHistory.observed, last.stampNs);
    hide StrictlyIncreasing;
    assert AcceptedFrom(s.odometryHistory, 0, last.stampNs);
    hide AcceptedFrom;
  }

  lemma ObserveWithinFault(c: Contract, s: State, last: Accepted)
    requires FaultInv(s) && s.odometry.stampGuard == Some(last.stampNs) && s.odometry.valid
    requires s.lastHealthObserved != s.odometry.stampGuard
    requires s.odometryHistory.accepted != []
    requires last == s.odometryHistory.accepted[|s.odometryHistory.accepted| - 1]
    ensures FaultInv(Observe(c, s))
  {
    hide Apply;
    var g, h := s.gateHistory, s.odometryHistory;
    if |h.accepted| > g.faultAccepted {
      assert AcceptedFrom(h, g.faultAccepted, last.stampNs);
    }
    hide AcceptedFrom;
  }

  /** Everything observed earlier is earlier than the last accepted stamp, unless it is that stamp. */
  lemma ObservedBefore(c: Contract, s: State, last: Accepted)
    requires DataInv(c, s) && ObservedInv(s)
    requires s.odometryHistory.accepted != []
    requires last == s.odometryHistory.accepted[|s.odometryHistory.accepted| - 1]
    requires s.lastHealthObserved != Some(last.stampNs)
    ensures s.gateHistory.observed != [] ==>
            s.gateHistory.observed[|s.gateHistory.observed| - 1] < last.stampNs
  {
    hide CleanWindow;
    hide StepWithin;
    hide IsCameraPose;
    hide CountersInv;
    hide StatusInv;
    hide DiagnosticsInv;
    hide LastLatch;
    hide HealthySinceTransient;
    hide LastTransient;
    var g, h := s.gateHistory, s.odometryHistory;
    if g.observed != [] {
      var x := g.observed[|g.observed| - 1];
      assert AcceptedFrom(h, 0, x);
      var j :| 0 <= j < |h.accepted| && h.accepted[j].stampNs == x;
      assert j < |h.accepted| - 1;
      assert h.accepted[j].index < last.index;
    }
  }

  /** The decision that ends a callback keeps the invariant, and trusts only inputs that are healthy now. */
  lemma EvaluateKeepsInv(c: Contract, s: State, now: int)
    requires Undecided(c, s)
    requires |s.odometryHistory.committed| >= c.health.odometryRateWindowSamples && !s.odometry.valid ==>
             Faulted(s.gate.state)
    ensures MaybeAdvanceHealth(c, s, now).Success?
    ensures Decided(c, MaybeAdvanceHealth(c, s, now).value, now)
  {
    hide DataInv;
    hide HealthReason;
    hide Replay;
    hide ObservedInv;
    hide FaultInv;
    hide Fault;
    hide Observe;
    hide MarkedInv;
    HealthReasonDefined(c, s, now);
    var evaluated := s.(gateHistory := s.gateHistory.(evaluatedAt := now));
    DataFramed(c, s, evaluated);
    HealthReasonFramed(c, s, evaluated, now);
    EvaluationFramed(c, s, now);
    var reason := HealthReason(c, s, now).value;
    if s.gate.state != LatchedFault {
      if reason != InputHealthy {
        if s.gate.state != Starting {
          FaultKeepsInv(c, evaluated, MarkTransient(reason));
        }
      } else {
        HealthyInputs(c, s, now);
        if s.lastHealthObserved != s.odometry.stampGuard {
          ObserveKeepsInv(c, evaluated, now);
        }
      }
    }
  }

  lemma EvaluationFramed(c: Contract, s: State, now: int)
    requires ObservedInv(s) && FaultInv(s) && MarkedInv(c, s, |s.odometryHistory.committed|)
    ensures var t := s.(gateHistory := s.gateHistory.(evaluatedAt := now));
            ObservedInv(t) && FaultInv(t) && MarkedInv(c, t, |t.odometryHistory.committed|)
  {
    hide CleanWindow;
    hide LastLatch;
    hide HealthySinceTransient;
    hide LastTransient;
    hide StrictlyIncreasing;
    hide AcceptedFrom;
  }

  // ----- odometry -----

  /** Committing the next stamp slides the window by one and keeps it a suffix of all committed stamps. */
  lemma SuffixSlides(committed: seq<int>, stampNs: int, n: nat)
    ensures LastStamps(LastStamps(committed, n) + [stampNs], n) == LastStamps(committed + [stampNs], n)
  {
  }

  lemma SuffixIncreasing(committed: seq<int>, n: nat)
    requires StrictlyIncreasing(committed) && Positive(committed)
    ensures StrictlyIncreasing(LastStamps(committed, n)) && Positive(LastStamps(committed, n))
    ensures |committed| >= n ==> |LastStamps(committed, n)| == n
    ensures |committed| < n ==> LastStamps(committed, n) == committed
  {
  }

  lemma GuardIsLast(committed: seq<int>, stampNs: int)
    requires StrictlyIncreasing(committed) && Positive(committed)
    requires stampNs > 0 && (committed != [] ==> committed[|committed| - 1] < stampNs)
    ensures StrictlyIncreasing(committed + [stampNs]) && Positive(committed + [stampNs])
    ensures LastStamp(committed + [stampNs]) == Some(stampNs)
  {
  }

  /** The rate update, after a strictly later stamp, computes the metrics of the slid window without an exception. */
  lemma UpdateKeepsWindow(c: Contract, o: OdometryTrack, h: OdometryHistory, stampNs: int)
    requires c.health.odometryRateWindowSamples >= 2
    requires WindowInv(c, o, h)
    requires StampOrderAfter(o.sequenceGuard, stampNs) == Success(Accept)
    ensures var r := UpdateOdometryRate(c, o.(sequenceGuard := Some(stampNs)), stampNs);
            && r.Success?
            && WindowInv(c, r.value, h.(committed := h.committed + [stampNs]))
            && r.value == o.(sequenceGuard := Some(stampNs), window := r.value.window, rateHz := r.value.rateHz,
                             maximumGapSec := r.value.maximumGapSec)
  {
    hide MeanRate;
    hide MaximumGap;
    hide LastStamps;
    hide StrictlyIncreasing;
    hide Positive;
    hide LastStamp;
    WindowSlides(c, o, h, stampNs);
  }

  lemma WindowSlides(c: Contract, o: OdometryTrack, h: OdometryHistory, stampNs: int)
    requires c.health.odometryRateWindowSamples >= 2
    requires WindowInv(c, o, h)
    requires StampOrderAfter(o.sequenceGuard, stampNs) == Success(Accept)
    ensures var n, committed := c.health.odometryRateWindowSamples, h.committed + [stampNs];
            var window := LastStamps(o.window + [stampNs], n);
            && StrictlyIncreasing(committed) && Positive(committed)
            && LastStamp(committed) == Some(stampNs)
            && window == LastStamps(committed, n)
            && StrictlyIncreasing(window) && Positive(window)
            && (if |committed| < n then |window| < n else |window| == n && window[0] < window[|window| - 1])
  {
    hide MeanRate;
    hide MaximumGap;
    var n := c.health.odometryRateWindowSamples;
    GuardIsLast(h.committed, stampNs);
    SuffixSlides(h.committed, stampNs, n);
    SuffixIncreasing(h.committed + [stampNs], n);
    hide LastStamps;
  }

  /** A stamp that the sequence guard accepts can be committed, without an exception, and the window stays a suffix. */
  lemma CommitKeepsWindow(c: Contract, s: State, now: int, stampNs: int)
    requires ValidContract(c)
    requires WindowInv(c, s.odometry, s.odometryHistory)
    requires StampOrderAfter(s.odometry.sequenceGuard, stampNs) == Success(Accept)
    ensures StampGapValid(c, s.odometry.sequenceGuard, stampNs).Success?
    ensures CommitOdometry(c, s, now, stampNs).Success?
    ensures var t := CommitOdometry(c, s, now, stampNs).value;
            && t.odometryHistory == s.odometryHistory.(committed := s.odometryHistory.committed + [stampNs])
            && WindowInv(c, t.odometry, t.odometryHistory)
            && t.odometry.sequenceGuard == Some(stampNs)
            && t.odometry == s.odometry.(sequenceGuard := t.odometry.sequenceGuard, window := t.odometry.window,
                                         rateHz := t.odometry.rateHz, maximumGapSec := t.odometry.maximumGapSec,
                                         observedAt := Some(now))
            && t == s.(odometry := t.odometry, odometryHistory := t.odometryHistory, counters := t.counters)
            && t.counters == s.counters.(receiveGapViolation := t.counters.receiveGapViolation,
                                         stampGapViolation := t.counters.stampGapViolation)
  {
    hide Seconds;
    hide UpdateOdometryRate;
    hide ReceiveGapValid;
    UpdateKeepsWindow(c, s.odometry, s.odometryHistory, stampNs);
    if s.odometryHistory.committed != [] {
      assert s.odometryHistory.committed[|s.odometryHistory.committed| - 1] > 0;
    }
    ObservedAtFramed(c, UpdateOdometryRate(c, s.odometry.(sequenceGuard := Some(stampNs)), stampNs).value,
                     s.odometryHistory.(committed := s.odometryHistory.committed + [stampNs]), now);
    hide WindowInv;
  }

  lemma ObservedAtFramed(c: Contract, o: OdometryTrack, h: OdometryHistory, now: int)
    requires WindowInv(c, o, h)
    ensures WindowInv(c, o.(observedAt := Some(now)), h)
  {
    hide MeanRate;
    hide MaximumGap;
  }

  /** A state in which a sample is being processed: its verdict is out, so odometry counts as not valid. */
  ghost predicate Open(c: Contract, s: State) {
    && WindowInv(c, s.odometry, s.odometryHistory)
    && AcceptedInv(c, s.odometry.(valid := false), s.odometryHistory)
    && StatusInv(s.status)
    && DiagnosticsInv(c, s.diagnostics)
    && PublishersInv(s)
    && s.gate == Replay(c.health.recoveryConsecutiveSamples, s.gateHistory.calls)
    && ObservedInv(s)
    && FaultInv(s)
    && (Trusting(s.gate.state) ==> |s.odometryHistory.committed| >= c.health.odometryRateWindowSamples)
  }

  /** The sample being processed is counted as received and as nothing else yet. */
  ghost predicate Uncounted(c: Contract, s: State) {
    s.counters.received > 0 &&
    CountersInv(c, s.counters.(received := s.counters.received - 1), s.odometryHistory)
  }

  lemma RejectKeepsInv(c: Contract, s: State, event: GateEvent)
    requires Open(c, s) && Uncounted(c, s) && IsFault(event)
    ensures Inv(c, RejectOdometry(c, s, event))
    ensures Faulted(RejectOdometry(c, s, event).gate.state)
  {
    hide Fault;
    hide Replay;
    hide AcceptedSampleInv;
    hide MeanRate;
    hide MaximumGap;
    hide StepWithin;
    hide StrictlyIncreasing;
    hide Positive;
    hide DiagnosticsInv;
    hide StatusInv;
    hide ObservedInv;
    hide AcceptedFrom;
    hide LastStamps;
    hide WarmUp;
    var t := s.(odometry := s.odometry.(valid := false),
                counters := s.counters.(rejected := s.counters.rejected + 1));
    ObservedFramed(s, t);
    FaultKeepsInv(c, t, event);
  }

  lemma ObservedFramed(s: State, t: State)
    requires ObservedInv(s)
    requires t.gateHistory == s.gateHistory && t.odometryHistory.accepted == s.odometryHistory.accepted
    requires t.lastHealthObserved == s.lastHealthObserved
    ensures ObservedInv(t)
  {
    hide LastLatch;
    hide HealthySinceTransient;
    hide LastTransient;
    hide StrictlyIncreasing;
    assert forall k, x :: AcceptedFrom(s.odometryHistory, k, x) ==> AcceptedFrom(t.odometryHistory, k, x);
    hide AcceptedFrom;
  }

  /** With an approved extrinsic the shadow pose of a camera pose exists: the conversion cannot throw. */
  lemma ShadowPoseExists(c: Contract, pose: RigidTransform)
    requires ValidContract(c) && c.extrinsic.IsApproved() && IsCameraPose(pose)
    ensures ShadowPose(c, pose).Some?
  {
    hide CameraPoseToBasePose;
    hide ValidInput;
    hide ValidHealth;
    BasePoseExists(pose, c.extrinsic.transform.value);
  }

  /** The state right after a sample was accepted, before the health evaluation. */
  function WithAccepted(c: Contract, s: State, now: int, stampNs: int, pose: RigidTransform): State {
    s.(odometry := s.odometry.(stampGuard := Some(stampNs), inputPose := Some(pose), valid := true,
                               receivedAt := Some(now),
                               shadowPose := if c.extrinsic.IsApproved() then ShadowPose(c, pose)
                                             else s.odometry.shadowPose),
       counters := s.counters.(accepted := s.counters.accepted + 1, shadowProcessed := s.counters.shadowProcessed + 1,
                               shadowPoseComputed := s.counters.shadowPoseComputed +
                                 if c.extrinsic.IsApproved() then 1 else 0),
       odometryHistory := s.odometryHistory.(accepted := s.odometryHistory.accepted +
         [Accepted(stampNs, LastIndex(s.odometryHistory.committed), pose)]))
  }

  lemma AcceptIsEvaluation(c: Contract, s: State, now: int, stampNs: int, pose: RigidTransform)
    requires ValidContract(c) && IsCameraPose(pose)
    requires StampOrderAfter(s.odometry.stampGuard, stampNs) == Success(Accept)
    ensures AcceptOdometry(c, s, now, stampNs, pose) ==
            MaybeAdvanceHealth(c, WithAccepted(c, s, now, stampNs, pose), now)
  {
    hide MaybeAdvanceHealth;
    hide ShadowPose;
    hide ValidContract;
    hide RejectOdometry;
    if c.extrinsic.IsApproved() {
      ShadowPoseExists(c, pose);
    }
  }

  /** The sample fits: it is the last committed stamp, its window is clean, and its pose is one step from the last. */
  ghost predicate Acceptable(c: Contract, s: State, stampNs: int, pose: RigidTransform) {
    && LastStamp(s.odometryHistory.committed) == Some(stampNs)
    && CleanWindow(c, s.odometry.window)
    && IsCameraPose(pose)
    && (s.odometry.inputPose.Some? ==> StepWithin(c, s.odometry.inputPose.value, pose))
    && (forall i | 0 <= i < |s.odometryHistory.accepted| ::
          s.odometryHistory.accepted[i].index < |s.odometryHistory.committed| - 1)
    && s.gateHistory.faultCommitted < |s.odometryHistory.committed|
    && MarkedInv(c, s, |s.odometryHistory.committed| - 1)
  }

  lemma AcceptedExtends(c: Contract, s: State, now: int, stampNs: int, pose: RigidTransform)
    requires ValidContract(c)
    requires WindowInv(c, s.odometry, s.odometryHistory)
    requires AcceptedInv(c, s.odometry.(valid := false), s.odometryHistory)
    requires Acceptable(c, s, stampNs, pose)
    ensures var t := WithAccepted(c, s, now, stampNs, pose);
            AcceptedInv(c, t.odometry, t.odometryHistory)
  {
    hide AcceptedSampleInv;
    hide StepWithin;
    hide IsCameraPose;
    hide CleanWindow;
    hide WindowInv;
    hide ShadowPose;
    hide ValidContract;
    AcceptableSample(c, s, stampNs, pose);
  }

  lemma AcceptableSample(c: Contract, s: State, stampNs: int, pose: RigidTransform)
    requires WindowInv(c, s.odometry, s.odometryHistory)
    requires Acceptable(c, s, stampNs, pose)
    ensures var h := s.odometryHistory;
            AcceptedSampleInv(c, h.committed, Accepted(stampNs, LastIndex(h.committed), pose))
  {
    hide CleanWindow;
    hide StepWithin;
    hide IsCameraPose;
    hide MeanRate;
    hide MaximumGap;
    hide StrictlyIncreasing;
    hide Positive;
    hide LastStamps;
    var h := s.odometryHistory;
    assert h.committed[..LastIndex(h.committed) + 1] == h.committed;
  }

  lemma AcceptKeepsInv(c: Contract, s: State, now: int, stampNs: int, pose: RigidTransform)
    requires ValidContract(c) && Open(c, s) && Uncounted(c, s)
    requires Acceptable(c, s, stampNs, pose)
    requires StampOrderAfter(s.odometry.stampGuard, stampNs) == Success(Accept)
    ensures AcceptOdometry(c, s, now, stampNs, pose).Success?
    ensures Decided(c, AcceptOdometry(c, s, now, stampNs, pose).value, now)
  {
    hide CleanWindow;
    hide StepWithin;
    hide IsCameraPose;
    hide MeanRate;
    hide MaximumGap;
    hide StrictlyIncreasing;
    hide Positive;
    hide LastStamps;
    hide ShadowPose;
    hide ValidContract;
    hide Replay;
    hide AcceptedInv;
    hide DiagnosticsInv;
    hide StatusInv;
    hide ObservedInv;
    hide WarmUp;
    hide AcceptedFrom;
    hide MaybeAdvanceHealth;
    hide AcceptOdometry;
    hide HealthReason;
    var t := WithAccepted(c, s, now, stampNs, pose);
    AcceptIsEvaluation(c, s, now, stampNs, pose);
    AcceptedExtends(c, s, now, stampNs, pose);
    HistoryExtends(s, t);
    CleanCommitMarked(c, s, t);
    EvaluateKeepsInv(c, t, now);
  }

  /** A commit that completed a clean window needs no fault. */
  lemma CleanCommitMarked(c: Contract, s: State, t: State)
    requires WindowInv(c, s.odometry, s.odometryHistory) && CleanWindow(c, s.odometry.window)
    requires s.odometryHistory.committed != []
    requires MarkedInv(c, s, |s.odometryHistory.committed| - 1)
    requires t.odometryHistory.committed == s.odometryHistory.committed && t.gateHistory == s.gateHistory
    ensures MarkedInv(c, t, |t.odometryHistory.committed|)
  {
    hide CleanWindow;
    hide MeanRate;
    hide MaximumGap;
    hide StrictlyIncreasing;
    hide LastStamps;
    var committed := s.odometryHistory.committed;
    assert committed[..|committed| - 1 + 1] == committed;
  }

  /** Another commit leaves the windows of the earlier ones alone. */
  lemma CommitMarked(c: Contract, s: State, t: State, stampNs: int)
    requires MarkedInv(c, s, |s.odometryHistory.committed|)
    requires t.odometryHistory.committed == s.odometryHistory.committed + [stampNs]
    requires t.gateHistory == s.gateHistory
    ensures MarkedInv(c, t, |t.odometryHistory.committed| - 1)
  {
    hide CleanWindow;
    hide LastStamps;
    var committed, longer := s.odometryHistory.committed, t.odometryHistory.committed;
    forall q | 0 <= q < |committed|
      ensures WindowAt(c, longer, q) == WindowAt(c, committed, q)
    {
      assert longer[..q + 1] == committed[..q + 1];
    }
    hide WindowAt;
  }

  /** Another accepted sample keeps the account of the observations. */
  lemma HistoryExtends(s: State, t: State)
    requires ObservedInv(s) && FaultInv(s)
    requires t.gateHistory == s.gateHistory && t.lastHealthObserved == s.lastHealthObserved
    requires |t.odometryHistory.accepted| > |s.odometryHistory.accepted|
    requires t.odometryHistory.committed == s.odometryHistory.committed
    requires forall j | |s.odometryHistory.accepted| <= j < |t.odometryHistory.accepted| ::
               t.odometryHistory.accepted[j].index >= s.gateHistory.faultCommitted
    requires t.odometryHistory.accepted[..|s.odometryHistory.accepted|] == s.odometryHistory.accepted
    ensures ObservedInv(t) && FaultInv(t)
  {
    hide LastLatch;
    hide HealthySinceTransient;
    hide LastTransient;
    hide StrictlyIncreasing;
    var h, k := s.odometryHistory, t.odometryHistory;
    assert forall j | 0 <= j < |h.accepted| :: k.accepted[j] == k.accepted[..|h.accepted|][j];
    forall from: nat, x | AcceptedFrom(h, from, x)
      ensures AcceptedFrom(k, from, x)
    {
      var j :| from <= j < |h.accepted| && h.accepted[j].stampNs == x;
      assert k.accepted[..|h.accepted|][j] == k.accepted[j];
    }
    hide AcceptedFrom;
  }

  /** Before the window is full nothing has been accepted. */
  lemma NothingAcceptedEarly(c: Contract, s: State)
    requires Open(c, s)
    requires |s.odometryHistory.committed| < c.health.odometryRateWindowSamples
    ensures s.odometryHistory.accepted == [] && s.odometry.inputPose == None
  {
    hide StepWithin;
    hide IsCameraPose;
    hide MeanRate;
    hide MaximumGap;
    hide StrictlyIncreasing;
    hide StatusInv;
    hide DiagnosticsInv;
    hide ObservedInv;
    hide FaultInv;
    hide Replay;
    if s.odometryHistory.accepted != [] {
      assert false;
    }
  }

  /** The committed sample is counted, as one of the first W - 1, or still awaits its verdict. */
  ghost predicate CommittedCount(c: Contract, s: State) {
    if |s.odometryHistory.committed| < c.health.odometryRateWindowSamples then
      CountersInv(c, s.counters, s.odometryHistory)
    else Uncounted(c, s)
  }

  /** A state right after a commit. */
  ghost predicate JustCommitted(c: Contract, s: State, stampNs: int) {
    && Open(c, s)
    && CommittedCount(c, s)
    && s.gateHistory.faultCommitted < |s.odometryHistory.committed|
    && MarkedInv(c, s, |s.odometryHistory.committed| - 1)
    && LastStamp(s.odometryHistory.committed) == Some(stampNs)
    && StampOrderAfter(s.odometry.stampGuard, stampNs) == Success(Accept)
    && (forall i | 0 <= i < |s.odometryHistory.accepted| ::
          s.odometryHistory.accepted[i].index < |s.odometryHistory.committed| - 1)
  }

  /**
   The warm-up return marks no fault. That is sound because a gate that trusts its inputs has seen a full window, and a
   full window stays full.
   */
  lemma WarmUpKeepsInv(c: Contract, s: State, now: int)
    requires Open(c, s) && CountersInv(c, s.counters, s.odometryHistory)
    requires |s.odometryHistory.committed| < c.health.odometryRateWindowSamples
    ensures Decided(c, s.(odometry := s.odometry.(valid := false)), now)
    ensures !Trusting(s.gate.state)
  {
    hide AcceptedSampleInv;
    hide StepWithin;
    hide MeanRate;
    hide MaximumGap;
    hide StrictlyIncreasing;
    hide Positive;
    hide LastStamps;
    hide DiagnosticsInv;
    hide StatusInv;
    hide ObservedInv;
    hide AcceptedFrom;
    hide Replay;
    hide HealthReason;
    hide WarmUp;
    ObservedFramed(s, s.(odometry := s.odometry.(valid := false)));
  }

  /** A rejection is a decision. */
  lemma RejectDecides(c: Contract, s: State, event: GateEvent, now: int)
    requires Open(c, s) && Uncounted(c, s) && IsFault(event)
    ensures Decided(c, RejectOdometry(c, s, event), now)
  {
    hide Inv;
    hide Open;
    hide Uncounted;
    hide RejectOdometry;
    hide HealthReason;
    RejectKeepsInv(c, s, event);
  }

  /** Counting a violation changes nothing that the invariant looks at. */
  lemma CountersFramed(c: Contract, s: State, t: State)
    requires Open(c, s) && Uncounted(c, s)
    requires t == s.(counters := t.counters)
    requires t.counters == s.counters.(rateViolation := t.counters.rateViolation,
                                       poseJumpViolation := t.counters.poseJumpViolation,
                                       duplicate := t.counters.duplicate,
                                       nonmonotonic := t.counters.nonmonotonic,
                                       clockDomainMismatch := t.counters.clockDomainMismatch)
    ensures Open(c, t) && Uncounted(c, t)
  {
    hide WindowInv;
    hide AcceptedInv;
    hide StatusInv;
    hide DiagnosticsInv;
    hide Replay;
    hide WarmUp;
    hide StrictlyIncreasing;
    hide LastLatch;
    hide HealthySinceTransient;
    hide LastTransient;
    hide AcceptedFrom;
  }

  lemma TimingKeepsInv(c: Contract, s: State, now: int, stampNs: int, pose: RigidTransform,
                       stampGapValid: bool, receiveGapValid: bool)
    requires ValidContract(c) && JustCommitted(c, s, stampNs) && IsCameraPose(pose)
    requires s.odometry.inputPose.Some? ==> StepWithin(c, s.odometry.inputPose.value, pose)
    ensures JudgeTiming(c, s, now, stampNs, pose, stampGapValid, receiveGapValid).Success?
    ensures Decided(c, JudgeTiming(c, s, now, stampNs, pose, stampGapValid, receiveGapValid).value, now)
  {
    hide AcceptedInv;
    hide StatusInv;
    hide DiagnosticsInv;
    hide ObservedInv;
    hide FaultInv;
    hide CountersInv;
    hide Replay;
    hide Decided;
    hide StepWithin;
    hide IsCameraPose;
    hide ValidInput;
    hide ValidExtrinsic;
    hide AcceptOdometry;
    hide RejectOdometry;
    hide Positive;
    hide LastStamp;
    var n := |s.odometryHistory.committed|;
    if n < c.health.odometryRateWindowSamples {
      WarmUpKeepsInv(c, s, now);
    } else {
      SuffixIncreasing(s.odometryHistory.committed, c.health.odometryRateWindowSamples);
      hide LastStamps;
      var rateValid := s.odometry.rateHz.value >= c.health.minimumOdometryRateHz;
      var rated := if rateValid then s
                   else s.(counters := s.counters.(rateViolation := s.counters.rateViolation + 1));
      CountersFramed(c, s, rated);
      if stampGapValid && receiveGapValid && rateValid
         && s.odometry.maximumGapSec.value <= c.health.maximumOdometryStampGapSec {
        assert CleanWindow(c, s.odometry.window);
        AcceptKeepsInv(c, rated, now, stampNs, pose);
      } else {
        forall event | IsFault(event)
          ensures Decided(c, RejectOdometry(c, rated, event), now)
        {
          RejectDecides(c, rated, event, now);
        }
      }
    }
  }

  lemma AcceptedPosesAreCameraPoses(c: Contract, s: State)
    requires Open(c, s) && s.odometry.inputPose.Some?
    ensures IsCameraPose(s.odometry.inputPose.value)
    ensures |s.odometryHistory.committed| >= c.health.odometryRateWindowSamples
  {
    if |s.odometryHistory.committed| < c.health.odometryRateWindowSamples {
      NothingAcceptedEarly(c, s);
    }
    hide StepWithin;
    hide CleanWindow;
    hide MeanRate;
    hide MaximumGap;
    hide StrictlyIncreasing;
    hide StatusInv;
    hide DiagnosticsInv;
    hide ObservedInv;
    hide FaultInv;
    hide Replay;
    assert AcceptedSampleInv(c, s.odometryHistory.committed,
                             s.odometryHistory.accepted[|s.odometryHistory.accepted| - 1]);
    hide IsCameraPose;
  }

  /** The jump check cannot throw, and lets through exactly the poses within one step of the last accepted one. */
  lemma JumpCheckDefined(c: Contract, previous: Option<RigidTransform>, pose: RigidTransform)
    requires IsCameraPose(pose) && (previous.Some? ==> IsCameraPose(previous.value))
    ensures JumpDetected(c, previous, pose) == Success(previous.Some? && !StepWithin(c, previous.value, pose))
  {
    hide ExceedsStep;
  }

  lemma JudgeKeepsInv(c: Contract, s: State, now: int, m: OdometryMessage, stampNs: int,
                      stampGapValid: bool, receiveGapValid: bool)
    requires ValidContract(c) && JustCommitted(c, s, stampNs)
    requires SampleValid(m, stampNs, ODOM, CAMERA)
    ensures JudgeOdometry(c, s, now, m, stampNs, stampGapValid, receiveGapValid).Success?
    ensures Decided(c, JudgeOdometry(c, s, now, m, stampNs, stampGapValid, receiveGapValid).value, now)
  {
    hide Normalizable;
    hide ValidFrameId;
    hide Decided;
    hide Open;
    hide CountersInv;
    hide StepWithin;
    hide JudgeTiming;
    hide RejectOdometry;
    hide JumpDetected;
    hide ValidContract;
    FramesDiffer();
    var pose := Create(m.parentFrame, m.childFrame, m.position, m.orientation).value;
    assert IsCameraPose(pose);
    if s.odometry.inputPose.Some? {
      AcceptedPosesAreCameraPoses(c, s);
    }
    JumpCheckDefined(c, s.odometry.inputPose, pose);
    if JumpDetected(c, s.odometry.inputPose, pose).value {
      var t := s.(counters := s.counters.(poseJumpViolation := s.counters.poseJumpViolation + 1));
      CountersFramed(c, s, t);
      RejectDecides(c, t, MarkLatched(LocalizationEpochJumpDetected), now);
    } else {
      TimingKeepsInv(c, s, now, stampNs, pose, stampGapValid, receiveGapValid);
    }
  }

  /** A sample arrives: from here on it must be accounted for. */
  lemma ReceiveOpens(c: Contract, s: State)
    requires Inv(c, s)
    ensures var t := s.(counters := s.counters.(received := s.counters.received + 1));
            Open(c, t) && Uncounted(c, t) && MarkedInv(c, t, |t.odometryHistory.committed|)
  {
    hide CleanWindow;
    hide WindowInv;
    hide AcceptedInv;
    hide DiagnosticsInv;
    hide StatusInv;
    hide ObservedInv;
    hide FaultInv;
    hide Replay;
    hide WarmUp;
    hide HealthReason;
    var t := s.(counters := s.counters.(received := s.counters.received + 1));
    ObservedFramed(s, t);
    FaultFramed(s, t);
    AcceptedInvalidated(c, s.odometry, s.odometryHistory);
    if Trusting(s.gate.state) {
      TrustNeedsFullWindow(c, s);
    }
  }

  lemma AcceptedInvalidated(c: Contract, o: OdometryTrack, h: OdometryHistory)
    requires AcceptedInv(c, o, h)
    ensures AcceptedInv(c, o.(valid := false), h)
  {
    hide AcceptedSampleInv;
    hide StepWithin;
    hide ShadowPose;
  }

  /** A gate that trusts its inputs has seen a full window. */
  lemma TrustNeedsFullWindow(c: Contract, s: State)
    requires WindowInv(c, s.odometry, s.odometryHistory) && GateInv(c, s) && Trusting(s.gate.state)
    ensures |s.odometryHistory.committed| >= c.health.odometryRateWindowSamples
  {
    hide HealthReason;
    hide Replay;
    hide MeanRate;
    hide MaximumGap;
    hide StrictlyIncreasing;
    HealthyInputs(c, s, s.gateHistory.evaluatedAt);
  }

  /** Accepted samples stay what they are when more stamps are committed. */
  lemma AcceptedSurvivesCommit(c: Contract, o: OdometryTrack, h: OdometryHistory, stampNs: int)
    requires AcceptedInv(c, o.(valid := false), h)
    ensures AcceptedInv(c, o.(valid := false), h.(committed := h.committed + [stampNs]))
    ensures forall i | 0 <= i < |h.accepted| :: h.accepted[i].index < |h.committed|
  {
    hide CleanWindow;
    hide StepWithin;
    hide IsCameraPose;
    hide LastStamps;
    hide ShadowPose;
    var committed := h.committed + [stampNs];
    forall i | 0 <= i < |h.accepted|
      ensures AcceptedSampleInv(c, committed, h.accepted[i])
    {
      var a := h.accepted[i];
      assert AcceptedSampleInv(c, h.committed, a);
      assert committed[..a.index + 1] == h.committed[..a.index + 1];
    }
    assert forall i | 0 <= i < |h.accepted| :: AcceptedSampleInv(c, h.committed, h.accepted[i]);
  }

  lemma CommitCounts(c: Contract, n: Counters, h: OdometryHistory, stampNs: int)
    requires c.health.odometryRateWindowSamples >= 2
    requires n.received > 0 && CountersInv(c, n.(received := n.received - 1), h)
    ensures var k := h.(committed := h.committed + [stampNs]);
            if |k.committed| < c.health.odometryRateWindowSamples then CountersInv(c, n, k)
            else CountersInv(c, n.(received := n.received - 1), k)
  {
  }

  /** The stamp guard never runs ahead of the sequence guard. */
  lemma StampGuardBehind(c: Contract, s: State, stampNs: int)
    requires Open(c, s)
    requires StampOrderAfter(s.odometry.sequenceGuard, stampNs) == Success(Accept)
    ensures StampOrderAfter(s.odometry.stampGuard, stampNs) == Success(Accept)
  {
    hide CleanWindow;
    hide StepWithin;
    hide IsCameraPose;
    hide MeanRate;
    hide MaximumGap;
    hide StatusInv;
    hide DiagnosticsInv;
    hide ObservedInv;
    hide FaultInv;
    hide Replay;
    hide LastStamps;
    if s.odometry.stampGuard.Some? {
      assert AcceptedSampleInv(c, s.odometryHistory.committed,
                               s.odometryHistory.accepted[|s.odometryHistory.accepted| - 1]);
    }
  }

  lemma CommitKeepsInv(c: Contract, s: State, now: int, stampNs: int)
    requires ValidContract(c) && Open(c, s) && Uncounted(c, s)
    requires MarkedInv(c, s, |s.odometryHistory.committed|)
    requires StampOrderAfter(s.odometry.sequenceGuard, stampNs) == Success(Accept)
    ensures CommitOdometry(c, s, now, stampNs).Success?
    ensures StampGapValid(c, s.odometry.sequenceGuard, stampNs).Success?
    ensures JustCommitted(c, CommitOdometry(c, s, now, stampNs).value, stampNs)
  {
    hide ValidInput;
    hide ValidExtrinsic;
    hide StampGapValid;
    hide CommitOdometry;
    hide WindowInv;
    hide AcceptedInv;
    hide StatusInv;
    hide DiagnosticsInv;
    hide Replay;
    hide WarmUp;
    hide StampOrderAfter;
    hide ObservedInv;
    hide AcceptedFrom;
    hide CleanWindow;
    CommitKeepsWindow(c, s, now, stampNs);
    var t := CommitOdometry(c, s, now, stampNs).value;
    AcceptedSurvivesCommit(c, s.odometry, s.odometryHistory, stampNs);
    AcceptedFieldsFramed(c, s.odometry, t.odometry, t.odometryHistory);
    CommitCounts(c, s.counters, s.odometryHistory, stampNs);
    StampGuardBehind(c, s, stampNs);
    ObservedFramed(s, t);
    FaultFramed(s, t);
    CommitMarked(c, s, t, stampNs);
    hide MarkedInv;
  }

  lemma AcceptedFieldsFramed(c: Contract, o: OdometryTrack, p: OdometryTrack, h: OdometryHistory)
    requires AcceptedInv(c, o.(valid := false), h)
    requires p.stampGuard == o.stampGuard && p.receivedAt == o.receivedAt && p.inputPose == o.inputPose
    requires p.shadowPose == o.shadowPose
    ensures AcceptedInv(c, p.(valid := false), h)
  {
    hide AcceptedSampleInv;
    hide StepWithin;
    hide ShadowPose;
  }

  lemma FaultFramed(s: State, t: State)
    requires FaultInv(s)
    requires t.gateHistory == s.gateHistory && t.odometryHistory.accepted == s.odometryHistory.accepted
    requires t.lastHealthObserved == s.lastHealthObserved && t.odometry.stampGuard == s.odometry.stampGuard
    requires t.odometry.valid == s.odometry.valid
    requires |s.odometryHistory.committed| <= |t.odometryHistory.committed|
    ensures FaultInv(t)
  {
    assert forall k, x :: AcceptedFrom(s.odometryHistory, k, x) ==> AcceptedFrom(t.odometryHistory, k, x);
    hide AcceptedFrom;
  }

  /** OnOdometry never throws, decides, and keeps the invariant. */
  lemma OdometryKeepsInv(c: Contract, s: State, now: int, rosNow: int, m: OdometryMessage)
    requires ValidContract(c) && Inv(c, s)
    ensures OnOdometry(c, s, now, rosNow, m).Success?
    ensures Decided(c, OnOdometry(c, s, now, rosNow, m).value, now)
  {
    hide ValidHealth;
    hide ValidExtrinsic;
    hide Inv;
    hide ValidFrameId;
    hide Open;
    hide Uncounted;
    hide SampleIssues;
    hide IssueEvent;
    hide Decided;
    hide OnValidOdometry;
    hide StampToNanoseconds;
    hide RejectOdometry;
    FramesDiffer();
    ReceiveOpens(c, s);
    var t := s.(counters := s.counters.(received := s.counters.received + 1));
    var stampNs := StampToNanoseconds(m.stamp).GetOr(0);
    SampleVerdict(m, stampNs, ODOM, CAMERA);
    var issues := SampleIssues(m, stampNs, ODOM, CAMERA);
    if issues != [] {
      RejectDecides(c, t, IssueEvent(issues), now);
    } else {
      ValidOdometryKeepsInv(c, t, now, rosNow, m, stampNs);
    }
  }

  lemma ClockDefined(c: Contract, rosNow: int, stampNs: int)
    ensures ClockDomainMatches(c, rosNow, stampNs).Success?
  {
  }

  lemma ValidOdometryKeepsInv(c: Contract, s: State, now: int, rosNow: int, m: OdometryMessage, stampNs: int)
    requires ValidContract(c) && Open(c, s) && Uncounted(c, s)
    requires MarkedInv(c, s, |s.odometryHistory.committed|)
    requires SampleValid(m, stampNs, ODOM, CAMERA)
    ensures OnValidOdometry(c, s, now, rosNow, m, stampNs).Success?
    ensures Decided(c, OnValidOdometry(c, s, now, rosNow, m, stampNs).value, now)
  {
    hide ValidContract;
    hide Open;
    hide Uncounted;
    hide Decided;
    hide Normalizable;
    hide RejectOdometry;
    hide JudgeOdometry;
    hide CommitOdometry;
    hide StampGapValid;
    hide ReceiveGapValid;
    hide ClockDomainMatches;
    hide JustCommitted;
    ClockDefined(c, rosNow, stampNs);
    var order := StampOrderAfter(s.odometry.sequenceGuard, stampNs);
    if order == Success(Duplicate) {
      var t := s.(counters := s.counters.(duplicate := s.counters.duplicate + 1));
      CountersFramed(c, s, t);
      RejectDecides(c, t, MarkTransient(DuplicateTimestamp), now);
    } else if order == Success(Nonmonotonic) {
      var t := s.(counters := s.counters.(nonmonotonic := s.counters.nonmonotonic + 1));
      CountersFramed(c, s, t);
      RejectDecides(c, t, MarkLatched(NonmonotonicTimestamp), now);
    } else if !ClockDomainMatches(c, rosNow, stampNs).value {
      var t := s.(counters := s.counters.(clockDomainMismatch := s.counters.clockDomainMismatch + 1));
      CountersFramed(c, s, t);
      RejectDecides(c, t, MarkTransient(OdometryClockDomainMismatch), now);
    } else {
      CommitKeepsInv(c, s, now, stampNs);
      JudgeKeepsInv(c, CommitOdometry(c, s, now, stampNs).value, now, m, stampNs,
                    StampGapValid(c, s.odometry.sequenceGuard, stampNs).value, ReceiveGapValid(c, s.odometry, now));
    }
  }

  // ----- the other callbacks -----

  lemma FaultDecides(c: Contract, s: State, event: GateEvent, now: int)
    requires Undecided(c, s) && IsFault(event)
    ensures Decided(c, Fault(c, s, event), now)
  {
    hide DataInv;
    hide GateInv;
    hide ObservedInv;
    hide FaultInv;
    hide MarkedInv;
    hide Replay;
    hide Fault;
    hide HealthReason;
    FaultKeepsInv(c, s, event);
  }

  /** Replacing the other inputs, the counters and the last tick leaves a decision to be made, and nothing else. */
  lemma InputsReplaced(c: Contract, s: State, t: State)
    requires Inv(c, s)
    requires t.gate == s.gate && t.odometry == s.odometry && t.odometryHistory == s.odometryHistory
    requires t.lastHealthObserved == s.lastHealthObserved
    requires t.gateHistory == s.gateHistory.(lastTick := t.gateHistory.lastTick)
    requires SameOdometryCounts(s.counters, t.counters)
    requires StatusInv(t.status) && DiagnosticsInv(c, t.diagnostics) && PublishersInv(t)
    ensures Undecided(c, t)
    ensures |t.odometryHistory.committed| >= c.health.odometryRateWindowSamples && !t.odometry.valid ==>
            Faulted(t.gate.state)
  {
    hide WindowInv;
    hide AcceptedInv;
    hide StatusInv;
    hide DiagnosticsInv;
    hide Replay;
    hide WarmUp;
    hide HealthReason;
    hide LastLatch;
    hide HealthySinceTransient;
    hide LastTransient;
    hide StrictlyIncreasing;
    hide AcceptedFrom;
  }

  lemma StatusGuardBehind(t: StatusTrack, stampNs: int)
    requires StatusInv(t)
    requires StampOrderAfter(t.sequenceGuard, stampNs) == Success(Accept)
    ensures StampOrderAfter(t.stampGuard, stampNs) == Success(Accept)
    ensures forall valid | !valid ::
              StatusInv(t.(sequenceGuard := Some(stampNs), valid := valid))
    ensures forall now: int ::
              StatusInv(t.(sequenceGuard := Some(stampNs), stampGuard := Some(stampNs), receivedAt := Some(now),
                           valid := true))
  {
  }

  /** The counters of the status and diagnostic streams are free. */
  ghost predicate SameOdometryCounts(n: Counters, k: Counters) {
    && k.received == n.received && k.accepted == n.accepted && k.rejected == n.rejected
    && k.shadowProcessed == n.shadowProcessed && k.shadowPoseComputed == n.shadowPoseComputed
  }

  lemma CommitStatusKeepsInv(c: Contract, s: State, t: State, now: int, stampNs: int, accepted: bool)
    requires Inv(c, s) && t == s.(counters := t.counters) && SameOdometryCounts(s.counters, t.counters)
    requires StampOrderAfter(s.status.sequenceGuard, stampNs) == Success(Accept)
    ensures CommitStatus(c, t, now, stampNs, accepted).Success?
    ensures Decided(c, CommitStatus(c, t, now, stampNs, accepted).value, now)
  {
    hide Decided;
    hide Undecided;
    hide Fault;
    hide MaybeAdvanceHealth;
    hide StatusInv;
    hide DiagnosticsInv;
    hide WindowInv;
    hide AcceptedInv;
    hide CountersInv;
    hide GateInv;
    hide ObservedInv;
    hide FaultInv;
    StatusGuardBehind(s.status, stampNs);
    var committed := t.(status := s.status.(sequenceGuard := Some(stampNs), valid := accepted));
    if !accepted {
      StatusFault(c, s, committed, MarkTransient(TrackingStateNotAccepted), now);
    } else {
      var u := committed.(status := committed.status.(stampGuard := Some(stampNs), receivedAt := Some(now)));
      assert u.status == s.status.(sequenceGuard := Some(stampNs), stampGuard := Some(stampNs),
                                   receivedAt := Some(now), valid := true);
      InputsReplaced(c, s, u);
      EvaluateKeepsInv(c, u, now);
    }
  }

  lemma RejectStatusDecides(c: Contract, s: State, t: State, event: GateEvent, now: int)
    requires Inv(c, s) && t == s.(counters := t.counters) && SameOdometryCounts(s.counters, t.counters)
    requires IsFault(event)
    ensures Decided(c, RejectStatus(c, t, event), now)
  {
    hide Decided;
    hide Fault;
    hide DiagnosticsInv;
    hide WindowInv;
    hide AcceptedInv;
    hide CountersInv;
    hide GateInv;
    hide ObservedInv;
    hide FaultInv;
    StatusFault(c, s, t.(status := s.status.(valid := false),
                         counters := t.counters.(statusRejected := t.counters.statusRejected + 1)), event, now);
  }

  lemma WellFormedStatusKeepsInv(c: Contract, s: State, t: State, now: int, rosNow: int, stampNs: int, accepted: bool)
    requires Inv(c, s) && t == s.(counters := t.counters) && SameOdometryCounts(s.counters, t.counters)
    requires stampNs > 0
    ensures OnWellFormedStatus(c, t, now, rosNow, stampNs, accepted).Success?
    ensures Decided(c, OnWellFormedStatus(c, t, now, rosNow, stampNs, accepted).value, now)
  {
    hide Inv;
    hide Decided;
    hide RejectStatus;
    hide CommitStatus;
    hide ClockDomainMatches;
    ClockDefined(c, rosNow, stampNs);
    var order := StampOrderAfter(s.status.sequenceGuard, stampNs).value;
    if order == Duplicate {
      RejectStatusDecides(c, s, t.(counters := t.counters.(statusDuplicate := t.counters.statusDuplicate + 1)),
                          MarkTransient(TrackingStatusDuplicateTimestamp), now);
    } else if order == Nonmonotonic {
      RejectStatusDecides(c, s, t.(counters := t.counters.(statusNonmonotonic := t.counters.statusNonmonotonic + 1)),
                          MarkLatched(TrackingStatusNonmonotonicTimestamp), now);
    } else if !ClockDomainMatches(c, rosNow, stampNs).value {
      RejectStatusDecides(c, s, t.(counters := t.counters.(clockDomainMismatch := t.counters.clockDomainMismatch + 1)),
                          MarkTransient(TrackingStatusClockDomainMismatch), now);
    } else {
      CommitStatusKeepsInv(c, s, t, now, stampNs, accepted);
    }
  }

  /** OnVisualSlamStatus never throws, decides, and keeps the invariant. */
  lemma StatusKeepsInv(c: Contract, s: State, now: int, rosNow: int, m: StatusMessage)
    requires ValidContract(c) && Inv(c, s)
    ensures OnVisualSlamStatus(c, s, now, rosNow, m).Success?
    ensures Decided(c, OnVisualSlamStatus(c, s, now, rosNow, m).value, now)
  {
    hide ValidContract;
    hide Inv;
    hide Decided;
    hide StampToNanoseconds;
    hide RejectStatus;
    hide OnWellFormedStatus;
    var t := s.(counters := s.counters.(statusReceived := s.counters.statusReceived + 1));
    if !StatusWellFormed(c, m) {
      RejectStatusDecides(c, s, t, MarkTransient(TrackingStatusInvalid), now);
    } else {
      WellFormedStatusKeepsInv(c, s, t, now, rosNow, StampToNanoseconds(m.stamp).value,
                               m.voState in c.input.acceptedVoStates);
    }
  }

  lemma StatusFault(c: Contract, s: State, t: State, event: GateEvent, now: int)
    requires Inv(c, s) && IsFault(event)
    requires t == s.(status := t.status, counters := t.counters)
    requires SameOdometryCounts(s.counters, t.counters)
    requires StatusInv(t.status)
    ensures Decided(c, Fault(c, t, event), now)
  {
    hide Decided;
    hide Undecided;
    hide Fault;
    hide HealthReason;
    hide WindowInv;
    hide AcceptedInv;
    hide CountersInv;
    hide StatusInv;
    hide DiagnosticsInv;
    hide ObservedInv;
    hide FaultInv;
    InputsReplaced(c, s, t);
    FaultDecides(c, t, event, now);
  }

  /** OnDiagnosticTimer never throws, decides, and keeps the invariant. */
  lemma TimerKeepsInv(c: Contract, s: State, now: int, odometry: seq<string>, status: seq<string>)
    requires ValidContract(c) && Inv(c, s)
    ensures OnDiagnosticTimer(c, s, now, odometry, status).Success?
    ensures Decided(c, OnDiagnosticTimer(c, s, now, odometry, status).value, now)
  {
    hide ValidContract;
    hide Decided;
    hide Fault;
    hide KeepStarting;
    hide MaybeAdvanceHealth;
    hide ObservedPublishers;
    hide HealthReason;
    hide DataInv;
    hide GateInv;
    hide ObservedInv;
    hide FaultInv;
    hide Undecided;
    hide Seconds;
    var seen := s.(publishers := ObservedPublishers(c, odometry, status),
                   gateHistory := s.gateHistory.(lastTick := Some(now)));
    TickReplaced(c, s, seen);
    if AuthorityFault(seen.publishers).Some? {
      var event := MarkLatched(AuthorityFault(seen.publishers).value);
      FaultDecides(c, seen, event, now);
      LatchFault(c, seen, event);
    } else if seen.gate.state == LatchedFault {
      LatchedDecides(c, seen, now);
    } else {
      UndecidedData(c, seen);
      HealthReasonDefined(c, seen, now);
      var reason := HealthReason(c, seen, now).value;
      if reason == InputHealthy {
        EvaluateKeepsInv(c, seen, now);
      } else if seen.gate.state == Starting {
        StartingDecides(c, seen, reason, now);
        FaultDecides(c, seen, MarkTransient(StartupTimeout), now);
        FaultDecides(c, seen, MarkTransient(reason), now);
      } else {
        FaultDecides(c, seen, MarkTransient(reason), now);
      }
    }
  }

  lemma UndecidedData(c: Contract, s: State)
    requires Undecided(c, s)
    ensures DataInv(c, s)
  {
    hide DataInv;
    hide ObservedInv;
    hide FaultInv;
    hide Replay;
  }

  lemma LatchFault(c: Contract, s: State, event: GateEvent)
    requires event.MarkLatched?
    ensures Fault(c, s, event).gate.state == LatchedFault
  {
  }

  lemma TickReplaced(c: Contract, s: State, t: State)
    requires Inv(c, s)
    requires t == s.(publishers := t.publishers, gateHistory := s.gateHistory.(lastTick := t.gateHistory.lastTick))
    requires t.gateHistory.lastTick.Some?
    ensures Undecided(c, t)
    ensures |t.odometryHistory.committed| >= c.health.odometryRateWindowSamples && !t.odometry.valid ==>
            Faulted(t.gate.state)
  {
    hide WindowInv;
    hide AcceptedInv;
    hide CountersInv;
    hide StatusInv;
    hide DiagnosticsInv;
    hide ObservedInv;
    hide FaultInv;
    hide HealthReason;
    hide Replay;
    InputsReplaced(c, s, t);
  }

  /** A latched gate needs no further decision. */
  lemma LatchedDecides(c: Contract, s: State, now: int)
    requires Undecided(c, s) && s.gate.state == LatchedFault
    ensures Decided(c, s, now)
  {
    hide DataInv;
    hide ObservedInv;
    hide FaultInv;
    hide HealthReason;
    hide Replay;
  }

  lemma StartingDecides(c: Contract, s: State, reason: Reason, now: int)
    requires Undecided(c, s) && s.gate.state == Starting
    requires |s.odometryHistory.committed| >= c.health.odometryRateWindowSamples && !s.odometry.valid ==>
             Faulted(s.gate.state)
    ensures Decided(c, KeepStarting(c, s, reason), now)
    ensures KeepStarting(c, s, reason).gate == Gate(Starting, reason, 0)
  {
    hide DataInv;
    hide HealthReason;
    hide Replay;
    hide LastLatch;
    hide HealthySinceTransient;
    hide LastTransient;
    hide StrictlyIncreasing;
    hide AcceptedFrom;
    var t := KeepStarting(c, s, reason);
    DataFramed(c, s, t);
    ReplayAppend(c.health.recoveryConsecutiveSamples, s.gateHistory.calls, MarkStarting(reason));
    CountsAfterFault(s.gateHistory.calls, MarkStarting(reason));
  }
}
