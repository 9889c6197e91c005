/** What an evaluation of the inputs, and a tick of the timer, do to the gate: every outcome and when it comes. */
module HealthVerdicts {
  import opened Contracts
  import opened Reasons
  import opened Stamps
  import opened HealthGate
  import opened ContractConfig
  import opened AdapterState
  import opened AdapterSteps
  import opened AdapterInvariant
  import opened AdapterRuns
  import opened RunHealth

  /** The calls on the gate are as before, with one more when there is one. */
  predicate Called(before: seq<GateEvent>, after: seq<GateEvent>, event: Option<GateEvent>) {
    after == if event.Some? then before + [event.value] else before
  }

  // ----- evaluation -----

  /**
   What an evaluation calls, in terms of the state it leaves: nothing on a latched gate; a fault for unhealthy inputs,
   unless the gate is starting; and one observation for each accepted stamp.
   */
  function EvaluationCall(c: Contract, gate: HealthState, counted: Option<int>, t: State, now: int)
    : Option<GateEvent>
  {
    var reason := ShortHealthReason(c, t, now);
    if gate == LatchedFault then None
    else if reason != InputHealthy then if gate == Starting then None else Some(MarkTransient(reason))
    else if t.odometry.stampGuard == counted then None
    else Some(ObserveHealthySample)
  }

  /** An evaluation that starts from the given gate, its history and the stamp last counted, and ends in t. */
  predicate Evaluated(c: Contract, gate: HealthState, g: GateHistory, counted: Option<int>, t: State, now: int) {
    var call := EvaluationCall(c, gate, counted, t, now);
    && Called(g.calls, t.gateHistory.calls, call)
    && t.lastHealthObserved == (if call == Some(ObserveHealthySample) then t.odometry.stampGuard else counted)
  }

  /** The reasons do not look at the gate or at any history. */
  lemma ShortReasonFramed(c: Contract, s: State, t: State, now: int)
    requires t.odometry == s.odometry && t.status == s.status && t.publishers == s.publishers
    requires t.diagnostics.observations == s.diagnostics.observations && t.counters.received == s.counters.received
    ensures ShortHealthReason(c, t, now) == ShortHealthReason(c, s, now)
  {
    hide ShortReason;
  }

  /** What MaybeAdvanceHealth returns, wherever the predicate and the reasons agree. */
  lemma EvaluationOutcome(c: Contract, s: State, now: int)
    requires HealthReason(c, s, now) == Success(ShortHealthReason(c, s, now))
    ensures MaybeAdvanceHealth(c, s, now).Success?
    ensures var t := MaybeAdvanceHealth(c, s, now).value;
            && t == s.(gate := t.gate, lastHealthObserved := t.lastHealthObserved, gateHistory := t.gateHistory)
            && Evaluated(c, s.gate.state, s.gateHistory, s.lastHealthObserved, t, now)
  {
    hide HealthReason;
    hide Apply;
    hide ShortHealthReason;
    if HealthReason(c, s, now) == Success(InputHealthy) {
      HealthyInputs(c, s, now);
    }
    var t := MaybeAdvanceHealth(c, s, now).value;
    ShortReasonFramed(c, s, t, now);
  }

  lemma EvaluationVerdict(c: Contract, s: State, now: int)
    requires ValidContract(c) && DataInv(c, s)
    ensures MaybeAdvanceHealth(c, s, now).Success?
    ensures var t := MaybeAdvanceHealth(c, s, now).value;
            && t == s.(gate := t.gate, lastHealthObserved := t.lastHealthObserved, gateHistory := t.gateHistory)
            && Evaluated(c, s.gate.state, s.gateHistory, s.lastHealthObserved, t, now)
  {
    hide *;
    ShortensOnData(c, s, now);
    EvaluationOutcome(c, s, now);
  }

  lemma OnlyGateMoves(c: Contract, s: State, now: int)
    requires MaybeAdvanceHealth(c, s, now).Success?
    ensures var t := MaybeAdvanceHealth(c, s, now).value;
            t == s.(gate := t.gate, lastHealthObserved := t.lastHealthObserved, gateHistory := t.gateHistory)
  {
    hide HealthReason;
    hide Apply;
  }

  /** The same when it is the outcome that is known to be consistent. */
  lemma EvaluationVerdictAfter(c: Contract, s: State, now: int)
    requires ValidContract(c) && MaybeAdvanceHealth(c, s, now).Success?
    requires DataInv(c, MaybeAdvanceHealth(c, s, now).value)
    ensures var t := MaybeAdvanceHealth(c, s, now).value;
            && t == s.(gate := t.gate, lastHealthObserved := t.lastHealthObserved, gateHistory := t.gateHistory)
            && Evaluated(c, s.gate.state, s.gateHistory, s.lastHealthObserved, t, now)
  {
    hide *;
    var t := MaybeAdvanceHealth(c, s, now).value;
    OnlyGateMoves(c, s, now);
    ShortensOnData(c, t, now);
    ShortReasonFramed(c, s, t, now);
    HealthReasonFramed(c, s, t, now);
    EvaluationOutcome(c, s, now);
  }

  // ----- a tick -----

  /** The first fault in the publishers of the two streams: too many, or the wrong one. */
  function WrongPublisher(c: Contract, odometry: seq<string>, status: seq<string>): Option<Reason> {
    if |odometry| >= 2 then Some(OdometryPublisherNotUnique)
    else if odometry != [] && odometry != [c.input.expectedOdometryPublisher] then
      Some(OdometryPublisherIdentityMismatch)
    else if |status| >= 2 then Some(TrackingStatusPublisherNotUnique)
    else if status != [] && status != [c.input.expectedStatusPublisher] then
      Some(TrackingStatusPublisherIdentityMismatch)
    else None
  }

  /** What a look at the inputs calls: start-up while it may last, a fault, or an observation. */
  function LookCall(c: Contract, s: State, t: State, now: int): Option<GateEvent> {
    var reason := ShortHealthReason(c, t, now);
    if s.gate.state == LatchedFault then None
    else if reason == InputHealthy then
      if t.odometry.stampGuard == s.lastHealthObserved then None else Some(ObserveHealthySample)
    else if s.gate.state == Starting && reason.Waiting() then
      if Longer(now - s.startedAt, c.health.startupTimeoutSec) then Some(MarkTransient(StartupTimeout))
      else Some(MarkStarting(reason))
    else Some(MarkTransient(reason))
  }

  /** What a tick calls: a latch for wrong publishers, and otherwise as the inputs look. */
  function TickCall(c: Contract, s: State, t: State, now: int, odometry: seq<string>, status: seq<string>)
    : Option<GateEvent>
  {
    var wrong := WrongPublisher(c, odometry, status);
    if wrong.Some? then Some(MarkLatched(wrong.value)) else LookCall(c, s, t, now)
  }

  predicate CallBooked(s: State, t: State, call: Option<GateEvent>) {
    && Called(s.gateHistory.calls, t.gateHistory.calls, call)
    && t.lastHealthObserved ==
       (if call == Some(ObserveHealthySample) then t.odometry.stampGuard else s.lastHealthObserved)
  }

  /** A tick notes the publishers, makes that call, and changes nothing else. */
  ghost predicate Ticked(c: Contract, s: State, t: State, now: int, odometry: seq<string>, status: seq<string>) {
    && t == s.(publishers := t.publishers, gate := t.gate, lastHealthObserved := t.lastHealthObserved,
               gateHistory := t.gateHistory)
    && t.publishers == PublisherEvidence(|odometry|, odometry == [c.input.expectedOdometryPublisher],
                                         |status|, status == [c.input.expectedStatusPublisher])
    && CallBooked(s, t, TickCall(c, s, t, now, odometry, status))
  }

  /** The state in which a tick looks at the inputs. */
  function Seen(c: Contract, s: State, now: int, odometry: seq<string>, status: seq<string>): State {
    s.(publishers := PublisherEvidence(|odometry|, odometry == [c.input.expectedOdometryPublisher],
                                       |status|, status == [c.input.expectedStatusPublisher]),
       gateHistory := s.gateHistory.(lastTick := Some(now)))
  }

  lemma SeenMeans(c: Contract, s: State, now: int, odometry: seq<string>, status: seq<string>)
    ensures ObservedPublishers(c, odometry, status) == Seen(c, s, now, odometry, status).publishers
    ensures AuthorityFault(ObservedPublishers(c, odometry, status)) == WrongPublisher(c, odometry, status)
  {
  }

  lemma SeenData(c: Contract, s: State, now: int, odometry: seq<string>, status: seq<string>)
    requires DataInv(c, s)
    ensures DataInv(c, Seen(c, s, now, odometry, status))
  {
    hide WindowInv;
    hide AcceptedInv;
    hide CountersInv;
    hide StatusInv;
    hide DiagnosticsInv;
  }

  lemma LookVerdict(c: Contract, s: State, now: int)
    requires ValidContract(c) && DataInv(c, s)
    ensures TickHealth(c, s, now).Success?
    ensures var t := TickHealth(c, s, now).value;
            && t == s.(gate := t.gate, lastHealthObserved := t.lastHealthObserved, gateHistory := t.gateHistory)
            && CallBooked(s, t, LookCall(c, s, t, now))
  {
    hide ValidContract;
    hide DataInv;
    hide HealthReason;
    hide Apply;
    hide ShortHealthReason;
    hide MaybeAdvanceHealth;
    SecondsMeans(now - s.startedAt, c.health.startupTimeoutSec);
    hide Seconds;
    hide Longer;
    ShortensOnData(c, s, now);
    EvaluationVerdict(c, s, now);
    ShortReasonFramed(c, s, TickHealth(c, s, now).value, now);
  }

  lemma TickFramed(c: Contract, s: State, t: State, now: int, odometry: seq<string>, status: seq<string>)
    requires var seen, wrong := Seen(c, s, now, odometry, status), WrongPublisher(c, odometry, status);
             && t == seen.(gate := t.gate, lastHealthObserved := t.lastHealthObserved, gateHistory := t.gateHistory)
             && CallBooked(seen, t, if wrong.Some? then Some(MarkLatched(wrong.value)) else LookCall(c, seen, t, now))
    ensures Ticked(c, s, t, now, odometry, status)
  {
    hide ShortHealthReason;
    hide Longer;
    hide WrongPublisher;
  }

  lemma LatchingTick(c: Contract, seen: State, reason: Reason, now: int)
    ensures var t := Fault(c, seen, MarkLatched(reason));
            && TickHealth(c, t, now) == Success(t)
            && t == seen.(gate := t.gate, gateHistory := t.gateHistory)
            && CallBooked(seen, t, Some(MarkLatched(reason)))
  {
    hide HealthReason;
    hide MaybeAdvanceHealth;
    hide KeepStarting;
  }

  lemma TickSteps(c: Contract, s: State, now: int, odometry: seq<string>, status: seq<string>)
    ensures var seen, wrong := Seen(c, s, now, odometry, status), WrongPublisher(c, odometry, status);
            OnDiagnosticTimer(c, s, now, odometry, status) ==
            TickHealth(c, if wrong.Some? then Fault(c, seen, MarkLatched(wrong.value)) else seen, now)
  {
    SeenMeans(c, s, now, odometry, status);
    hide ObservedPublishers;
    hide AuthorityFault;
    hide WrongPublisher;
    hide TickHealth;
    hide Fault;
  }

  lemma TickVerdict(c: Contract, s: State, now: int, odometry: seq<string>, status: seq<string>)
    requires ValidContract(c) && DataInv(c, s)
    ensures OnDiagnosticTimer(c, s, now, odometry, status).Success?
    ensures Ticked(c, s, OnDiagnosticTimer(c, s, now, odometry, status).value, now, odometry, status)
  {
    hide ValidContract;
    hide DataInv;
    hide OnDiagnosticTimer;
    hide TickHealth;
    hide Seen;
    hide WrongPublisher;
    hide Fault;
    hide CallBooked;
    hide LookCall;
    hide Ticked;
    TickSteps(c, s, now, odometry, status);
    SeenData(c, s, now, odometry, status);
    var seen, wrong := Seen(c, s, now, odometry, status), WrongPublisher(c, odometry, status);
    if wrong.Some? {
      LatchingTick(c, seen, wrong.value, now);
    } else {
      LookVerdict(c, seen, now);
    }
    TickFramed(c, s, OnDiagnosticTimer(c, s, now, odometry, status).value, now, odometry, status);
  }

  /** In every run: the last callback was a tick. */
  lemma TickVerdicts(c: Contract, startedAt: int, events: seq<Event>)
    requires ValidContract(c) && events != [] && events[|events| - 1].input.Timer?
    ensures var e := events[|events| - 1];
            Ticked(c, StateAfter(c, startedAt, events[..|events| - 1]), StateAfter(c, startedAt, events), e.now,
                   e.input.odometryPublishers, e.input.statusPublishers)
  {
    hide ValidContract;
    hide Inv;
    hide StateAfter;
    hide Ticked;
    hide OnDiagnosticTimer;
    var e, s := events[|events| - 1], StateAfter(c, startedAt, events[..|events| - 1]);
    StateAfterSnoc(c, startedAt, events);
    InvData(c, s);
    TickVerdict(c, s, e.now, e.input.odometryPublishers, e.input.statusPublishers);
  }
}
