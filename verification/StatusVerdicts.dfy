/** When a tracking status counts, and what each other status does to the gate, in terms of the message's own fields. */
module StatusVerdicts {
  import opened Contracts
  import opened Reasons
  import opened Stamps
  import opened HealthGate
  import opened ContractConfig
  import opened AdapterState
  import opened AdapterSteps
  import opened AdapterInvariant
  import opened AdapterEffects
  import opened AdapterRuns
  import opened RunHealth
  import opened HealthVerdicts

  // ----- what a message says -----

  /** The nanoseconds of a normalized time, and zero for any other. */
  function Nanoseconds(stamp: Time): int {
    if stamp.sec >= 0 && stamp.nanosec < 1_000_000_000 then stamp.sec * 1_000_000_000 + stamp.nanosec else 0
  }

  /** Two positive times within the allowed clock residual. */
  predicate SameClock(c: Contract, rosNow: int, stampNs: int) {
    rosNow > 0 && stampNs > 0 && !FurtherApart(rosNow, stampNs, c.health.maximumClockResidualSec)
  }

  lemma NanosecondsMeans(stamp: Time)
    ensures StampToNanoseconds(stamp).GetOr(0) == Nanoseconds(stamp)
    ensures StampToNanoseconds(stamp).Some? && StampToNanoseconds(stamp).value > 0 <==> Nanoseconds(stamp) > 0
  {
    StampConversion(stamp);
  }

  lemma SameClockMeans(c: Contract, rosNow: int, stampNs: int)
    requires ValidContract(c)
    ensures ClockDomainMatches(c, rosNow, stampNs) == Success(SameClock(c, rosNow, stampNs))
  {
    PositiveLimits(c);
    hide ValidContract;
    FurtherApartMeans(rosNow, stampNs, c.health.maximumClockResidualSec);
    hide FurtherApart;
    hide Seconds;
  }

  predicate Duration(f: Float) {
    f.Value? && f.v >= 0.0
  }

  /** A positive stamp, the map frame, and four finite nonnegative durations. */
  predicate WellFormed(m: StatusMessage) {
    && Nanoseconds(m.stamp) > 0 && m.frame == "map"
    && Duration(m.nodeCallbackExecutionTime) && Duration(m.trackExecutionTime)
    && Duration(m.trackExecutionTimeMean) && Duration(m.trackExecutionTimeMax)
  }

  // ----- the verdict -----

  /** The event for a status that does not count, given the last stamp in its stream. */
  function StatusFault(c: Contract, last: Option<int>, rosNow: int, m: StatusMessage): Option<GateEvent> {
    var at := Nanoseconds(m.stamp);
    if !WellFormed(m) then Some(MarkTransient(TrackingStatusInvalid))
    else if last == Some(at) then Some(MarkTransient(TrackingStatusDuplicateTimestamp))
    else if last.Some? && at < last.value then Some(MarkLatched(TrackingStatusNonmonotonicTimestamp))
    else if !SameClock(c, rosNow, at) then Some(MarkTransient(TrackingStatusClockDomainMismatch))
    else if m.voState !in c.input.acceptedVoStates then Some(MarkTransient(TrackingStateNotAccepted))
    else None
  }

  /** The stamp enters the stream when nothing but the tracking state is wrong. */
  predicate StampCounts(fault: Option<GateEvent>) {
    fault == None || fault == Some(MarkTransient(TrackingStateNotAccepted))
  }

  function StatusCounters(n: Counters, fault: Option<GateEvent>): Counters {
    var refused := !StampCounts(fault);
    n.(statusReceived := n.statusReceived + 1,
       statusRejected := n.statusRejected + (if refused then 1 else 0),
       statusDuplicate := n.statusDuplicate +
         (if fault == Some(MarkTransient(TrackingStatusDuplicateTimestamp)) then 1 else 0),
       statusNonmonotonic := n.statusNonmonotonic +
         (if fault == Some(MarkLatched(TrackingStatusNonmonotonicTimestamp)) then 1 else 0),
       clockDomainMismatch := n.clockDomainMismatch +
         (if fault == Some(MarkTransient(TrackingStatusClockDomainMismatch)) then 1 else 0))
  }

  /** Everything that a status callback does. */
  ghost predicate StatusJudged(c: Contract, s: State, t: State, now: int, rosNow: int, m: StatusMessage) {
    var at := Some(Nanoseconds(m.stamp));
    var fault := StatusFault(c, s.status.sequenceGuard, rosNow, m);
    && t == s.(gate := t.gate, status := t.status, lastHealthObserved := t.lastHealthObserved,
               counters := StatusCounters(s.counters, fault), gateHistory := t.gateHistory)
    && t.status.valid == fault.None?
    && t.status.sequenceGuard == (if StampCounts(fault) then at else s.status.sequenceGuard)
    && t.status.stampGuard == (if fault.None? then at else s.status.stampGuard)
    && t.status.receivedAt == (if fault.None? then Some(now) else s.status.receivedAt)
    && if fault.Some? then Called(s.gateHistory.calls, t.gateHistory.calls, fault)
       else Evaluated(c, s.gate.state, s.gateHistory, s.lastHealthObserved, t, now)
  }

  lemma RejectedStatus(c: Contract, s: State, u: State, event: GateEvent)
    requires u == s.(counters := u.counters) && IsFault(event)
    ensures var t := RejectStatus(c, u, event);
            && t == s.(gate := t.gate, status := s.status.(valid := false), gateHistory := t.gateHistory,
                       counters := u.counters.(statusRejected := u.counters.statusRejected + 1))
            && t.gateHistory.calls == s.gateHistory.calls + [event]
  {
    hide Apply;
  }

  lemma OrderOfStatus(last: Option<int>, at: int)
    requires at > 0
    ensures StampOrderAfter(last, at).Success?
    ensures last == Some(at) <==> StampOrderAfter(last, at) == Success(Duplicate)
    ensures last.Some? && at < last.value <==> StampOrderAfter(last, at) == Success(Nonmonotonic)
  {
  }

  lemma WellFormedMeans(c: Contract, m: StatusMessage)
    requires ValidContract(c)
    ensures StatusWellFormed(c, m) <==> WellFormed(m)
  {
    hide ValidHealth;
    hide ValidExtrinsic;
    NanosecondsMeans(m.stamp);
    hide StampToNanoseconds;
    hide Nanoseconds;
  }

  /** A status that counts, or fails on its tracking state alone. */
  lemma CountedStatus(c: Contract, s: State, u: State, now: int, at: int, accepted: bool)
    requires ValidContract(c) && Inv(c, s)
    requires u == s.(counters := u.counters) && SameOdometryCounts(s.counters, u.counters)
    requires at > 0 && StampOrderAfter(s.status.sequenceGuard, at) == Success(Accept)
    ensures CommitStatus(c, u, now, at, accepted).Success?
    ensures var t := CommitStatus(c, u, now, at, accepted).value;
            && t == u.(gate := t.gate, status := t.status, lastHealthObserved := t.lastHealthObserved,
                       gateHistory := t.gateHistory)
            && (if accepted then
                  && t.status == StatusTrack(Some(at), Some(at), Some(now), true)
                  && Evaluated(c, s.gate.state, s.gateHistory, s.lastHealthObserved, t, now)
                else
                  && t.status == s.status.(sequenceGuard := Some(at), valid := false)
                  && t.gateHistory.calls == s.gateHistory.calls + [MarkTransient(TrackingStateNotAccepted)])
  {
    hide ValidContract;
    hide Inv;
    hide Evaluated;
    hide Apply;
    hide MaybeAdvanceHealth;
    InvData(c, s);
    hide DataInv;
    StatusGuard(c, s, at);
    if accepted {
      var v := u.(status := StatusTrack(Some(at), Some(at), Some(now), true));
      CommittedStatusData(c, s, v);
      EvaluationVerdict(c, v, now);
    }
  }

  lemma StatusGuard(c: Contract, s: State, at: int)
    requires DataInv(c, s) && at > 0 && StampOrderAfter(s.status.sequenceGuard, at) == Success(Accept)
    ensures StampOrderAfter(s.status.stampGuard, at) == Success(Accept)
  {
    hide WindowInv;
    hide AcceptedInv;
    hide CountersInv;
    hide DiagnosticsInv;
    hide PublishersInv;
  }

  lemma CommittedStatusData(c: Contract, s: State, v: State)
    requires DataInv(c, s)
    requires v == s.(counters := v.counters, status := v.status) && SameOdometryCounts(s.counters, v.counters)
    requires StatusInv(v.status)
    ensures DataInv(c, v)
  {
    hide WindowInv;
    hide AcceptedInv;
    hide DiagnosticsInv;
  }

  lemma StatusVerdict(c: Contract, s: State, now: int, rosNow: int, m: StatusMessage)
    requires ValidContract(c) && Inv(c, s)
    ensures OnVisualSlamStatus(c, s, now, rosNow, m).Success?
    ensures StatusJudged(c, s, OnVisualSlamStatus(c, s, now, rosNow, m).value, now, rosNow, m)
  {
    hide ValidContract;
    hide Inv;
    hide StatusWellFormed;
    hide WellFormed;
    hide StampToNanoseconds;
    hide Nanoseconds;
    hide SameClock;
    hide ClockDomainMatches;
    hide StampOrderAfter;
    hide RejectStatus;
    hide CommitStatus;
    hide Evaluated;
    WellFormedMeans(c, m);
    NanosecondsMeans(m.stamp);
    var at := Nanoseconds(m.stamp);
    var n := s.counters;
    var counted := s.(counters := n.(statusReceived := n.statusReceived + 1));
    if !WellFormed(m) {
      RejectedStatus(c, s, counted, MarkTransient(TrackingStatusInvalid));
    } else {
      WellFormedPositive(m);
      OrderOfStatus(s.status.sequenceGuard, at);
      SameClockMeans(c, rosNow, at);
      var k := counted.counters;
      RejectedStatus(c, s, s.(counters := k.(statusDuplicate := k.statusDuplicate + 1)),
                     MarkTransient(TrackingStatusDuplicateTimestamp));
      RejectedStatus(c, s, s.(counters := k.(statusNonmonotonic := k.statusNonmonotonic + 1)),
                     MarkLatched(TrackingStatusNonmonotonicTimestamp));
      RejectedStatus(c, s, s.(counters := k.(clockDomainMismatch := k.clockDomainMismatch + 1)),
                     MarkTransient(TrackingStatusClockDomainMismatch));
      if StampOrderAfter(s.status.sequenceGuard, at) == Success(Accept) {
        CountedStatus(c, s, counted, now, at, m.voState in c.input.acceptedVoStates);
      }
    }
  }

  lemma WellFormedPositive(m: StatusMessage)
    requires WellFormed(m)
    ensures Nanoseconds(m.stamp) > 0
  {
  }

  // ----- over runs -----

  /**
   In every run: after a status callback the status counts exactly when its stamp is normalized, positive, later than
   the last one of the stream and in the clock domain, its frame is the map, its durations are finite and not negative,
   and the tracking state is accepted. All else that the callback does is as StatusJudged says.
   */
  lemma StatusVerdictsOfRuns(c: Contract, startedAt: int, events: seq<Event>)
    requires ValidContract(c) && events != [] && events[|events| - 1].input.Status?
    ensures var e, s, t := events[|events| - 1], StateAfter(c, startedAt, events[..|events| - 1]),
                           StateAfter(c, startedAt, events);
            var m := e.input.status;
            var at, last := Nanoseconds(m.stamp), s.status.sequenceGuard;
            && StatusJudged(c, s, t, e.now, e.rosNow, m)
            && (t.status.valid <==>
                  && at > 0 && (last.None? || last.value < at)
                  && e.rosNow > 0 && !FurtherApart(e.rosNow, at, c.health.maximumClockResidualSec)
                  && m.frame == "map"
                  && Duration(m.nodeCallbackExecutionTime) && Duration(m.trackExecutionTime)
                  && Duration(m.trackExecutionTimeMean) && Duration(m.trackExecutionTimeMax)
                  && m.voState in c.input.acceptedVoStates)
  {
    hide ValidContract;
    hide Inv;
    hide StateAfter;
    hide OnVisualSlamStatus;
    hide FurtherApart;
    hide Duration;
    hide Evaluated;
    hide Nanoseconds;
    hide StatusCounters;
    var e, s := events[|events| - 1], StateAfter(c, startedAt, events[..|events| - 1]);
    StateAfterSnoc(c, startedAt, events);
    StatusVerdict(c, s, e.now, e.rosNow, e.input.status);
  }

  /** The last status callback of a run. */
  function LastStatus(events: seq<Event>): Option<Event> {
    if events == [] then None
    else
      var last := events[|events| - 1];
      if last.input.Status? then Some(last) else LastStatus(events[..|events| - 1])
  }

  /** No other callback touches what is known of the status. */
  lemma StatusKept(c: Contract, s: State, e: Event)
    requires ValidContract(c) && Inv(c, s) && !e.input.Status?
    ensures Step(c, s, e).Success? && Step(c, s, e).value.status == s.status
  {
    hide ValidContract;
    hide Inv;
    hide OnOdometry;
    hide OnVisualSlamStatus;
    hide OnUpstreamDiagnostics;
    hide OnDiagnosticTimer;
    hide EvidenceEffect;
    hide OneCall;
    hide Settled;
    hide AcceptedStep;
    hide ClockDomainMatches;
    match e.input
    case Odometry(m) => OdometryChanges(c, s, e.now, e.rosNow, m);
    case Timer(odometry, status) => TimerChanges(c, s, e.now, odometry, status);
    case Diagnostics(m, gid, publishers) => DiagnosticsChanges(c, s, e.now, e.rosNow, m, gid, publishers);
  }

  /** A status that is known as valid is that of the last status callback, and says that the camera is tracked. */
  ghost predicate TrackedAtLast(c: Contract, events: seq<Event>, status: StatusTrack) {
    var e := LastStatus(events);
    && e.Some? && e.value.input.Status?
    && WellFormed(e.value.input.status)
    && status.sequenceGuard == Some(Nanoseconds(e.value.input.status.stamp))
    && SameClock(c, e.value.rosNow, Nanoseconds(e.value.input.status.stamp))
    && e.value.input.status.voState in c.input.acceptedVoStates
  }

  lemma {:induction false} ValidStatusIsLast(c: Contract, startedAt: int, events: seq<Event>)
    requires ValidContract(c)
    ensures StateAfter(c, startedAt, events).status.valid ==>
              TrackedAtLast(c, events, StateAfter(c, startedAt, events).status)
  {
    hide ValidContract;
    hide Inv;
    hide StateAfter;
    hide Step;
    hide WellFormed;
    hide SameClock;
    hide Nanoseconds;
    hide Evaluated;
    hide StatusCounters;
    if events == [] {
      StateInv(c, startedAt, events);
    } else {
      var before, e := events[..|events| - 1], events[|events| - 1];
      StateAfterSnoc(c, startedAt, events);
      if e.input.Status? {
        StatusVerdictsOfRuns(c, startedAt, events);
      } else {
        StatusKept(c, StateAfter(c, startedAt, before), e);
        ValidStatusIsLast(c, startedAt, before);
      }
    }
  }

  /** In every run a gate that is Healthy or Recovering means that the last status had an accepted tracking state. */
  lemma TrustNeedsTracking(c: Contract, startedAt: int, events: seq<Event>)
    requires ValidContract(c) && Trusting(StateAfter(c, startedAt, events).gate.state)
    ensures TrackedAtLast(c, events, StateAfter(c, startedAt, events).status)
  {
    hide ValidContract;
    hide StateAfter;
    hide HealthReason;
    hide TrackedAtLast;
    var s := StateAfter(c, startedAt, events);
    TrustWasEarned(c, startedAt, events);
    HealthyInputs(c, s, s.gateHistory.evaluatedAt);
    ValidStatusIsLast(c, startedAt, events);
  }
}
