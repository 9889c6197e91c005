/** The health predicate on reachable states, start-up, and the clocks, over every run. */
module RunHealth {
  import opened Contracts
  import opened Reasons
  import opened Stamps
  import opened HealthGate
  import opened ContractConfig
  import opened AdapterState
  import opened AdapterSteps
  import opened AdapterInvariant
  import opened DiagnosticEvidence
  import opened AdapterEffects
  import opened AdapterRuns

  // ----- the predicate, shortened -----

  /** The first required diagnostic without fresh evidence. */
  function MissingDiagnostic(required: seq<RequiredDiagnostic>, observations: map<string, Observation>,
                             staleAfterSec: real, now: int): Reason
  {
    if required == [] then InputHealthy
    else if required[0].name !in observations then WaitingForUpstreamDiagnostic
    else if Longer(now - observations[required[0].name].receivedAt, staleAfterSec) then UpstreamDiagnosticStale
    else MissingDiagnostic(required[1..], observations, staleAfterSec, now)
  }

  /**
   The predicate without the checks of rate, gap, missing stamps and diagnostic levels, and with the two sequence
   guards in place of the two accepted-stamp guards; times and stamps are compared in nanoseconds.
   */
  function ShortReason(c: Contract, p: PublisherEvidence, o: OdometryTrack, status: StatusTrack,
                       observations: map<string, Observation>, received: nat, now: int): Reason
  {
    var h := c.health;
    if p.odometryCount == 0 then WaitingForOdometryPublisher
    else if p.odometryCount > 1 || !p.odometryIdentityValid then OdometryPublisherAuthorityInvalid
    else if p.statusCount == 0 then WaitingForTrackingStatusPublisher
    else if p.statusCount > 1 || !p.statusIdentityValid then TrackingStatusPublisherAuthorityInvalid
    else if o.receivedAt.None? then
      if 0 < |o.window| < h.odometryRateWindowSamples then WaitingForOdometryRateWindow
      else if received > 0 then OdometryInvalid
      else WaitingForOdometry
    else if status.receivedAt.None? then WaitingForTrackingStatus
    else if !o.valid then OdometryInvalid
    else if !status.valid then TrackingStateNotAccepted
    else if FurtherApart(o.sequenceGuard.GetOr(0), status.sequenceGuard.GetOr(0), h.maximumStatusOdometrySkewSec) then
      OdometryStatusSkewExceeded
    else if Longer(now - o.receivedAt.value, h.odometryStaleAfterSec) then OdometryStale
    else if Longer(now - status.receivedAt.value, h.trackingStaleAfterSec) then TrackingStatusStale
    else MissingDiagnostic(c.input.requiredDiagnostics, observations, h.diagnosticStaleAfterSec, now)
  }

  function ShortHealthReason(c: Contract, s: State, now: int): Reason {
    ShortReason(c, s.publishers, s.odometry, s.status, s.diagnostics.observations, s.counters.received, now)
  }

  lemma {:induction false} FindRequiredAt(required: seq<RequiredDiagnostic>, i: nat)
    requires i < |required|
    requires forall j, k | 0 <= j < k < |required| :: required[j].name != required[k].name
    ensures FindRequired(required, required[i].name) == Some(required[i])
  {
    if i > 0 {
      assert required[1..][i - 1] == required[i];
      FindRequiredAt(required[1..], i - 1);
    }
  }

  lemma {:induction false} LevelsNeverFail(required: seq<RequiredDiagnostic>, all: seq<RequiredDiagnostic>,
                                           observations: map<string, Observation>, stale: real, now: int)
    requires forall i | 0 <= i < |required| :: FindRequired(all, required[i].name) == Some(required[i])
    requires forall n | n in observations :: LevelAllowed(all, n, observations[n].level)
    ensures DiagnosticsReason(required, observations, stale, now) ==
            MissingDiagnostic(required, observations, stale, now)
  {
    hide FindRequired;
    if required != [] {
      if required[0].name in observations {
        SecondsMeans(now - observations[required[0].name].receivedAt, stale);
      }
      hide Seconds;
      hide Longer;
      LevelsNeverFail(required[1..], all, observations, stale, now);
    }
  }

  /** The shorter predicate gives the same answer, reason included, on every reachable state and at every time. */
  lemma HealthReasonShortens(c: Contract, startedAt: int, events: seq<Event>, now: int)
    requires ValidContract(c)
    ensures var s := StateAfter(c, startedAt, events);
            HealthReason(c, s, now) == Success(ShortHealthReason(c, s, now))
  {
    hide Inv;
    hide Run;
    hide ValidHealth;
    hide ValidExtrinsic;
    hide StateAfter;
    StateInv(c, startedAt, events);
    var s := StateAfter(c, startedAt, events);
    ShortensOnData(c, s, now) by { InvData(c, s); }
    hide *;
  }

  lemma InvData(c: Contract, s: State)
    requires Inv(c, s)
    ensures DataInv(c, s)
  {
    hide DataInv;
    hide GateInv;
    hide ObservedInv;
    hide FaultInv;
    hide MarkedInv;
  }

  lemma ShortensOnData(c: Contract, s: State, now: int)
    requires ValidContract(c) && DataInv(c, s)
    ensures HealthReason(c, s, now) == Success(ShortHealthReason(c, s, now))
  {
    hide WindowInv;
    hide AcceptedInv;
    hide CountersInv;
    hide ValidHealth;
    hide ValidExtrinsic;
    hide DiagnosticsReason;
    hide MissingDiagnostic;
    hide FindRequired;
    hide LevelAllowed;
    hide AbsoluteDifference;
    hide FurtherApart;
    hide Seconds;
    hide Longer;
    var required := c.input.requiredDiagnostics;
    if s.odometry.valid {
      ValidOdometryMeans(c, s);
    }
    forall n, x ensures Seconds(n) > x <==> Longer(n, x) {
      SecondsMeans(n, x);
    }
    PositiveLimits(c);
    FurtherApartMeans(s.odometry.stampGuard.GetOr(0), s.status.stampGuard.GetOr(0),
                      c.health.maximumStatusOdometrySkewSec);
    WarmUpMeans(c, s);
    forall i | 0 <= i < |required|
      ensures FindRequired(required, required[i].name) == Some(required[i])
    {
      FindRequiredAt(required, i);
    }
    LevelsNeverFail(required, required, s.diagnostics.observations, c.health.diagnosticStaleAfterSec, now);
  }

  lemma WarmUpMeans(c: Contract, s: State)
    requires ValidContract(c) && DataInv(c, s)
    ensures s.odometry.rateHz.None? <==> |s.odometry.window| < c.health.odometryRateWindowSamples
    ensures s.odometry.receivedAt.None? ==> !s.odometry.valid
  {
    hide CountersInv;
    hide StatusInv;
    hide DiagnosticsInv;
    hide AcceptedSampleInv;
    hide StepWithin;
    hide MeanRate;
    hide MaximumGap;
    hide ValidInput;
    hide ValidExtrinsic;
    SuffixIncreasing(s.odometryHistory.committed, c.health.odometryRateWindowSamples);
    hide StrictlyIncreasing;
    hide Positive;
  }

  // ----- start-up -----

  /** The reason and the age with which the gate may still be starting. */
  predicate MayStart(c: Contract, s: State, now: int) {
    s.gate.reason.Waiting() && !Longer(now - s.startedAt, c.health.startupTimeoutSec)
  }

  /** Nothing has been observed while the gate is starting. */
  lemma StartingObservedNothing(c: Contract, s: State)
    requires ValidContract(c) && Inv(c, s) && s.gate.state == Starting
    ensures s.lastHealthObserved == None
  {
    hide DataInv;
    hide FaultInv;
    hide MarkedInv;
    hide HealthReason;
    hide Replay;
    hide LastLatch;
    hide LastTransient;
    hide HealthySinceTransient;
    hide StrictlyIncreasing;
    hide AcceptedFrom;
    hide ValidInput;
    hide ValidExtrinsic;
    GateClosedForm(c.health.recoveryConsecutiveSamples, s.gateHistory.calls);
  }

  /** A tick leaves the gate starting only while it waits for something, within the start-up timeout. */
  lemma TickBoundsStartup(c: Contract, s: State, now: int, odometry: seq<string>, status: seq<string>)
    requires ValidContract(c) && Inv(c, s)
    ensures var t := OnDiagnosticTimer(c, s, now, odometry, status);
            t.Success? && (t.value.gate.state == Starting ==> MayStart(c, t.value, now))
  {
    hide ValidInput;
    hide ValidExtrinsic;
    hide Inv;
    hide Decided;
    hide HealthReason;
    SecondsMeans(now - s.startedAt, c.health.startupTimeoutSec);
    hide Seconds;
    hide Longer;
    hide ObservedPublishers;
    TimerKeepsInv(c, s, now, odometry, status);
    var seen := s.(publishers := ObservedPublishers(c, odometry, status),
                   gateHistory := s.gateHistory.(lastTick := Some(now)));
    if s.gate.state == Starting {
      StartingObservedNothing(c, s);
      if HealthReason(c, seen, now) == Success(InputHealthy) {
        HealthyInputs(c, seen, now);
      }
    }
  }

  /** Start-up cannot hang: after every tick, Starting means a WAITING_FOR_ reason within the start-up timeout. */
  lemma StartupCannotHang(c: Contract, startedAt: int, events: seq<Event>)
    requires ValidContract(c) && events != [] && events[|events| - 1].input.Timer?
    ensures var s := StateAfter(c, startedAt, events);
            s.gate.state == Starting ==> MayStart(c, s, events[|events| - 1].now)
  {
    hide ValidContract;
    hide Inv;
    hide Run;
    hide OnDiagnosticTimer;
    hide MayStart;
    hide StateAfter;
    var e := events[|events| - 1];
    StateAfterSnoc(c, startedAt, events);
    TickBoundsStartup(c, StateAfter(c, startedAt, events[..|events| - 1]), e.now, e.input.odometryPublishers,
                      e.input.statusPublishers);
  }

  /** The last tick of a run. */
  function LastTick(events: seq<Event>): Option<Event> {
    if events == [] then None
    else if events[|events| - 1].input.Timer? then Some(events[|events| - 1])
    else LastTick(events[..|events| - 1])
  }

  /** The publisher evidence is that of the last tick. */
  lemma {:induction false} EvidenceOfLastTick(c: Contract, startedAt: int, events: seq<Event>)
    requires ValidContract(c)
    ensures var s := StateAfter(c, startedAt, events);
            match LastTick(events)
            case None => s.gateHistory.lastTick == None && s.publishers == PublisherEvidence(0, false, 0, false)
            case Some(e) =>
              && e.input.Timer? && e in events
              && s.gateHistory.lastTick == Some(e.now)
              && s.publishers == ObservedPublishers(c, e.input.odometryPublishers, e.input.statusPublishers)
    ensures StateAfter(c, startedAt, events).startedAt == startedAt
  {
    hide ValidContract;
    hide Inv;
    hide Step;
    hide ObservedPublishers;
    hide StateAfter;
    StateInv(c, startedAt, events);
    if events != [] {
      var before := events[..|events| - 1];
      EvidenceOfLastTick(c, startedAt, before);
      StateAfterSnoc(c, startedAt, events);
      StepTicks(c, StateAfter(c, startedAt, before), events[|events| - 1]);
      assert forall e | e in before :: e in events;
    }
  }

  lemma StepTicks(c: Contract, s: State, e: Event)
    requires ValidContract(c) && Inv(c, s)
    ensures Step(c, s, e).Success?
    ensures var t := Step(c, s, e).value;
            && t.startedAt == s.startedAt
            && (e.input.Timer? ==>
                && t.gateHistory.lastTick == Some(e.now)
                && t.publishers == ObservedPublishers(c, e.input.odometryPublishers, e.input.statusPublishers))
            && (!e.input.Timer? ==> t.gateHistory.lastTick == s.gateHistory.lastTick && t.publishers == s.publishers)
  {
    hide ValidContract;
    hide Inv;
    hide OnOdometry;
    hide OnVisualSlamStatus;
    hide OnUpstreamDiagnostics;
    hide OnDiagnosticTimer;
    hide EvidenceEffect;
    hide OneCall;
    hide ClockDomainMatches;
    hide ObservedPublishers;
    match e.input
    case Odometry(m) => OdometryChanges(c, s, e.now, e.rosNow, m);
    case Status(m) => StatusChanges(c, s, e.now, e.rosNow, m);
    case Timer(odometry, status) => TimerChanges(c, s, e.now, odometry, status);
    case Diagnostics(m, gid, publishers) => DiagnosticsChanges(c, s, e.now, e.rosNow, m, gid, publishers);
  }

  /** The gate trusts its inputs only while the last tick saw, on both streams, the expected publisher and no other. */
  lemma TrustNeedsVerifiedPublishers(c: Contract, startedAt: int, events: seq<Event>)
    requires ValidContract(c)
    requires Trusting(StateAfter(c, startedAt, events).gate.state)
    ensures LastTick(events).Some? && LastTick(events).value.input.Timer?
    ensures LastTick(events).value.input.odometryPublishers == [c.input.expectedOdometryPublisher]
    ensures LastTick(events).value.input.statusPublishers == [c.input.expectedStatusPublisher]
  {
    hide ValidContract;
    hide Inv;
    hide Run;
    hide HealthReason;
    hide StateAfter;
    StateInv(c, startedAt, events);
    var s := StateAfter(c, startedAt, events);
    TrustWasEarned(c, startedAt, events);
    HealthyInputs(c, s, s.gateHistory.evaluatedAt);
    EvidenceOfLastTick(c, startedAt, events);
  }

  // ----- staleness -----

  /** Steady time does not run backwards between callbacks. */
  ghost predicate SteadyOrder(startedAt: int, events: seq<Event>) {
    && (forall i | 0 <= i < |events| :: startedAt <= events[i].now)
    && (forall i, j | 0 <= i < j < |events| :: events[i].now <= events[j].now)
  }

  /** Nothing that the node remembers happened after now; a trusting gate was evaluated since the last tick. */
  ghost predicate TimesInv(s: State, now: int) {
    && s.gateHistory.evaluatedAt <= now
    && (s.gateHistory.lastTick.Some? ==> s.gateHistory.lastTick.value <= now)
    && (s.odometry.receivedAt.Some? ==> s.odometry.receivedAt.value <= now)
    && (s.status.receivedAt.Some? ==> s.status.receivedAt.value <= now)
    && (forall n | n in s.diagnostics.observations :: s.diagnostics.observations[n].receivedAt <= now)
    && (Trusting(s.gate.state) && s.gateHistory.lastTick.Some? ==>
          s.gateHistory.lastTick.value <= s.gateHistory.evaluatedAt)
  }

  lemma StepTimes(c: Contract, s: State, e: Event, earlier: int)
    requires ValidContract(c) && Inv(c, s)
    requires TimesInv(s, earlier) && earlier <= e.now
    ensures Step(c, s, e).Success?
    ensures TimesInv(Step(c, s, e).value, e.now)
  {
    hide ValidContract;
    hide Inv;
    hide OnOdometry;
    hide OnVisualSlamStatus;
    hide OnUpstreamDiagnostics;
    hide OnDiagnosticTimer;
    hide OneCall;
    hide ClockDomainMatches;
    hide ObservedPublishers;
    hide Deciding;
    hide HealthReason;
    StepKeepsInv(c, s, e);
    match e.input
    case Odometry(m) => OdometryChanges(c, s, e.now, e.rosNow, m);
    case Status(m) => StatusChanges(c, s, e.now, e.rosNow, m);
    case Timer(odometry, status) => TimerChanges(c, s, e.now, odometry, status);
    case Diagnostics(m, gid, publishers) => DiagnosticsChanges(c, s, e.now, e.rosNow, m, gid, publishers);
  }

  lemma {:induction false} RunTimes(c: Contract, startedAt: int, events: seq<Event>)
    requires ValidContract(c) && SteadyOrder(startedAt, events)
    ensures TimesInv(StateAfter(c, startedAt, events),
                     if events == [] then startedAt else events[|events| - 1].now)
  {
    hide ValidContract;
    hide Inv;
    hide Step;
    hide TimesInv;
    hide StateAfter;
    StateInv(c, startedAt, events);
    if events == [] {
      InitialTimes(c, startedAt);
    } else {
      var before := events[..|events| - 1];
      RunTimes(c, startedAt, before);
      StateAfterSnoc(c, startedAt, events);
      StepTimes(c, StateAfter(c, startedAt, before), events[|events| - 1],
                if before == [] then startedAt else before[|before| - 1].now);
    }
  }

  lemma InitialTimes(c: Contract, startedAt: int)
    ensures TimesInv(InitialState(c, startedAt), startedAt)
  {
  }

  /** Fresh evidence of every required diagnostic. */
  ghost predicate DiagnosticsFresh(c: Contract, s: State, now: int, limit: real) {
    forall i | 0 <= i < |c.input.requiredDiagnostics| ::
      var name := c.input.requiredDiagnostics[i].name;
      name in s.diagnostics.observations && Seconds(now - s.diagnostics.observations[name].receivedAt) <= limit
  }

  lemma {:induction false} DiagnosticsReasonFresh(required: seq<RequiredDiagnostic>,
                                                  observations: map<string, Observation>, stale: real, now: int)
    requires DiagnosticsReason(required, observations, stale, now) == InputHealthy
    ensures forall i | 0 <= i < |required| ::
              required[i].name in observations && Seconds(now - observations[required[i].name].receivedAt) <= stale
  {
    hide Seconds;
    if required != [] {
      DiagnosticsReasonFresh(required[1..], observations, stale, now);
      assert forall i | 0 < i < |required| :: required[i] == required[1..][i - 1];
    }
  }

  /** There was a tick within the last diagnostic period. */
  ghost predicate RecentTick(c: Contract, events: seq<Event>, now: int) {
    exists i | 0 <= i < |events| ::
      events[i].input.Timer? && Seconds(now - events[i].now) <= c.health.diagnosticPeriodSec
  }

  lemma {:induction false} LastTickIsLatest(events: seq<Event>, i: nat)
    requires i < |events| && events[i].input.Timer?
    requires forall j, k | 0 <= j < k < |events| :: events[j].now <= events[k].now
    ensures LastTick(events).Some? && events[i].now <= LastTick(events).value.now
  {
    if i < |events| - 1 && !events[|events| - 1].input.Timer? {
      LastTickIsLatest(events[..|events| - 1], i);
    }
  }

  /**
   With a tick at least every diagnostic period, at any instant a gate that trusts its inputs stands on odometry,
   status and diagnostics that are each no older than the stale threshold plus the period, so less than twice it.
   */
  lemma StalenessBound(c: Contract, startedAt: int, events: seq<Event>, now: int)
    requires ValidContract(c) && SteadyOrder(startedAt, events)
    requires events != [] && events[|events| - 1].now <= now && RecentTick(c, events, now)
    requires Trusting(StateAfter(c, startedAt, events).gate.state)
    ensures var s, h := StateAfter(c, startedAt, events), c.health;
            var P := h.diagnosticPeriodSec;
            && s.odometry.receivedAt.Some? && s.status.receivedAt.Some?
            && Seconds(now - s.odometry.receivedAt.value) <= h.odometryStaleAfterSec + P < 2.0 * h.odometryStaleAfterSec
            && Seconds(now - s.status.receivedAt.value) <= h.trackingStaleAfterSec + P < 2.0 * h.trackingStaleAfterSec
            && DiagnosticsFresh(c, s, now, h.diagnosticStaleAfterSec + P)
            && h.diagnosticStaleAfterSec + P < 2.0 * h.diagnosticStaleAfterSec
  {
    hide ValidInput;
    hide ValidExtrinsic;
    hide Inv;
    hide Run;
    hide HealthReason;
    hide DiagnosticsReason;
    hide ObservedPublishers;
    hide Seconds;
    hide StateAfter;
    StateInv(c, startedAt, events);
    var s := StateAfter(c, startedAt, events);
    var at, h := s.gateHistory.evaluatedAt, c.health;
    TrustWasEarned(c, startedAt, events);
    HealthyInputs(c, s, at);
    DiagnosticsReasonFresh(c.input.requiredDiagnostics, s.diagnostics.observations, h.diagnosticStaleAfterSec, at);
    RunTimes(c, startedAt, events);
    EvidenceOfLastTick(c, startedAt, events);
    var i :| 0 <= i < |events| && events[i].input.Timer? && Seconds(now - events[i].now) <= h.diagnosticPeriodSec;
    LastTickIsLatest(events, i);
    SecondsMonotone(now - at, now - events[i].now);
    SecondsMonotone(now - at, at - s.odometry.receivedAt.value);
    SecondsMonotone(now - at, at - s.status.receivedAt.value);
    forall j | 0 <= j < |c.input.requiredDiagnostics|
      ensures var name := c.input.requiredDiagnostics[j].name;
              name in s.diagnostics.observations &&
              Seconds(now - s.diagnostics.observations[name].receivedAt)
              <= h.diagnosticStaleAfterSec + h.diagnosticPeriodSec
    {
      var name := c.input.requiredDiagnostics[j].name;
      SecondsMonotone(now - at, at - s.diagnostics.observations[name].receivedAt);
    }
  }

  // ----- the ROS clock -----

  /** No sequence guard is ahead of the ROS clock by more than the allowed residual. */
  ghost predicate GuardsBehind(c: Contract, s: State, rosNow: int) {
    && NotAhead(c, s.odometry.sequenceGuard, rosNow)
    && NotAhead(c, s.status.sequenceGuard, rosNow)
    && (forall n | n in s.diagnostics.guards :: NotAhead(c, s.diagnostics.guards[n], rosNow))
  }

  predicate NotAhead(c: Contract, guard: Option<int>, rosNow: int) {
    guard.Some? ==> Seconds(guard.value - rosNow) <= c.health.maximumClockResidualSec
  }

  lemma ClockBounds(c: Contract, rosNow: int, stampNs: int)
    requires ClockDomainMatches(c, rosNow, stampNs) == Success(true)
    ensures NotAhead(c, Some(stampNs), rosNow)
  {
    SecondsMonotone(stampNs - rosNow, AbsoluteDifference(rosNow, stampNs));
  }

  lemma BehindLater(c: Contract, guard: Option<int>, rosNow: int, later: int)
    requires NotAhead(c, guard, rosNow) && rosNow <= later
    ensures NotAhead(c, guard, later)
  {
    if guard.Some? {
      SecondsMonotone(guard.value - later, guard.value - rosNow);
    }
  }

  lemma StepGuardsBehind(c: Contract, s: State, e: Event, earlier: int)
    requires ValidContract(c) && Inv(c, s)
    requires GuardsBehind(c, s, earlier) && earlier <= e.rosNow
    ensures Step(c, s, e).Success?
    ensures GuardsBehind(c, Step(c, s, e).value, e.rosNow)
  {
    hide ValidContract;
    hide Inv;
    hide OnOdometry;
    hide OnVisualSlamStatus;
    hide OnUpstreamDiagnostics;
    hide OnDiagnosticTimer;
    hide OneCall;
    hide ClockDomainMatches;
    hide ObservedPublishers;
    hide NotAhead;
    hide StampToNanoseconds;
    forall guard: Option<int> | NotAhead(c, guard, earlier)
      ensures NotAhead(c, guard, e.rosNow)
    {
      BehindLater(c, guard, earlier, e.rosNow);
    }
    forall stampNs: int | ClockDomainMatches(c, e.rosNow, stampNs) == Success(true)
      ensures NotAhead(c, Some(stampNs), e.rosNow)
    {
      ClockBounds(c, e.rosNow, stampNs);
    }
    match e.input
    case Odometry(m) => OdometryChanges(c, s, e.now, e.rosNow, m);
    case Status(m) => StatusChanges(c, s, e.now, e.rosNow, m);
    case Timer(odometry, status) => TimerChanges(c, s, e.now, odometry, status);
    case Diagnostics(m, gid, publishers) => DiagnosticsChanges(c, s, e.now, e.rosNow, m, gid, publishers);
  }

  ghost predicate RosOrder(events: seq<Event>) {
    forall i, j | 0 <= i < j < |events| :: events[i].rosNow <= events[j].rosNow
  }

  /** With a ROS clock that does not run backwards, no message can push a guard into the future. */
  lemma {:induction false} GuardsNeverAhead(c: Contract, startedAt: int, events: seq<Event>)
    requires ValidContract(c) && RosOrder(events) && events != []
    ensures GuardsBehind(c, StateAfter(c, startedAt, events), events[|events| - 1].rosNow)
  {
    hide ValidContract;
    hide Inv;
    hide Step;
    hide GuardsBehind;
    hide StateAfter;
    var before, e := events[..|events| - 1], events[|events| - 1];
    StateInv(c, startedAt, before);
    StateAfterSnoc(c, startedAt, events);
    if before == [] {
      InitialGuards(c, startedAt, e.rosNow);
      StepGuardsBehind(c, StateAfter(c, startedAt, before), e, e.rosNow);
    } else {
      GuardsNeverAhead(c, startedAt, before);
      StepGuardsBehind(c, StateAfter(c, startedAt, before), e, before[|before| - 1].rosNow);
    }
  }

  lemma InitialGuards(c: Contract, startedAt: int, rosNow: int)
    ensures GuardsBehind(c, InitialState(c, startedAt), rosNow)
  {
  }

  function MessageStamp(input: Input): Option<Time> {
    match input
    case Odometry(m) => Some(m.stamp)
    case Status(m) => Some(m.stamp)
    case Diagnostics(m, _, _) => Some(m.stamp)
    case Timer(_, _) => None
  }

  ghost predicate SameGuards(s: State, t: State) {
    && t.odometry.sequenceGuard == s.odometry.sequenceGuard && t.odometry.stampGuard == s.odometry.stampGuard
    && t.status.sequenceGuard == s.status.sequenceGuard && t.status.stampGuard == s.status.stampGuard
    && t.diagnostics.guards == s.diagnostics.guards
  }

  lemma MismatchStep(c: Contract, s: State, e: Event)
    requires ValidContract(c) && Inv(c, s)
    requires MessageStamp(e.input).Some?
    requires var stampNs := StampToNanoseconds(MessageStamp(e.input).value).GetOr(0);
             ClockDomainMatches(c, e.rosNow, stampNs) != Success(true)
    ensures Step(c, s, e).Success?
    ensures SameGuards(s, Step(c, s, e).value)
  {
    hide ValidContract;
    hide Inv;
    hide OnOdometry;
    hide OnVisualSlamStatus;
    hide OnUpstreamDiagnostics;
    hide OnDiagnosticTimer;
    hide OneCall;
    hide ClockDomainMatches;
    hide StampToNanoseconds;
    match e.input
    case Odometry(m) => OdometryChanges(c, s, e.now, e.rosNow, m);
    case Status(m) => StatusChanges(c, s, e.now, e.rosNow, m);
    case Diagnostics(m, gid, publishers) => DiagnosticsChanges(c, s, e.now, e.rosNow, m, gid, publishers);
  }

  /** In every run, a message whose stamp fails the clock check, or does not convert, moves no guard of any stream. */
  lemma ClockMismatchMovesNoGuard(c: Contract, startedAt: int, events: seq<Event>)
    requires ValidContract(c) && events != [] && MessageStamp(events[|events| - 1].input).Some?
    requires var e := events[|events| - 1];
             ClockDomainMatches(c, e.rosNow, StampToNanoseconds(MessageStamp(e.input).value).GetOr(0)) != Success(true)
    ensures SameGuards(StateAfter(c, startedAt, events[..|events| - 1]), StateAfter(c, startedAt, events))
  {
    hide ValidContract;
    hide Inv;
    hide StateAfter;
    hide Run;
    hide Step;
    hide ClockDomainMatches;
    hide StampToNanoseconds;
    hide SameGuards;
    StateAfterSnoc(c, startedAt, events);
    MismatchStep(c, StateAfter(c, startedAt, events[..|events| - 1]), events[|events| - 1]);
  }
}
