/** A stamp that repeats the last of its stream is a transient fault, and an earlier one latches: on every stream. */
module OrderVerdicts {
  import opened Contracts
  import opened Reasons
  import opened Stamps
  import opened HealthGate
  import opened ContractConfig
  import opened OdometryValidation
  import opened AdapterState
  import opened AdapterSteps
  import opened AdapterInvariant
  import opened AdapterRuns
  import opened HealthVerdicts
  import opened StatusVerdicts
  import opened OdometryVerdicts
  import opened DiagnosticsVerdicts

  /** One more call than before, and the gate it leaves. */
  lemma GateAfterCall(c: Contract, s: State, t: State, event: GateEvent)
    requires Inv(c, s) && Inv(c, t) && Called(s.gateHistory.calls, t.gateHistory.calls, Some(event))
    ensures event.MarkLatched? ==> t.gate == Gate(LatchedFault, event.reason, 0)
    ensures event.MarkTransient? ==>
              t.gate == if s.gate.state == LatchedFault then s.gate else Gate(TransientFault, event.reason, 0)
  {
    hide Inv;
    GateReplays(c, s);
    GateReplays(c, t);
    hide Replay;
    ReplayAppend(c.health.recoveryConsecutiveSamples, s.gateHistory.calls, event);
  }

  /** The gate after a fault of the last callback of a run. */
  predicate FaultMarked(s: State, t: State, event: GateEvent) {
    && t.gateHistory.calls == s.gateHistory.calls + [event]
    && (event.MarkLatched? ==> t.gate == Gate(LatchedFault, event.reason, 0))
    && (event.MarkTransient? && s.gate.state != LatchedFault ==> t.gate == Gate(TransientFault, event.reason, 0))
  }

  lemma OdometryOrder(c: Contract, startedAt: int, events: seq<Event>)
    requires ValidContract(c) && events != [] && events[|events| - 1].input.Odometry?
    requires MessageFault(events[|events| - 1].input.sample) == None
    requires StateAfter(c, startedAt, events[..|events| - 1]).odometryHistory.committed != []
    ensures var s, t := StateAfter(c, startedAt, events[..|events| - 1]), StateAfter(c, startedAt, events);
            var committed, at := s.odometryHistory.committed, Nanoseconds(events[|events| - 1].input.sample.stamp);
            var last := committed[|committed| - 1];
            && (at == last ==> FaultMarked(s, t, MarkTransient(DuplicateTimestamp)))
            && (at < last ==> FaultMarked(s, t, MarkLatched(NonmonotonicTimestamp)))
            && (at <= last ==> t.odometryHistory == s.odometryHistory && !t.odometry.valid)
  {
    hide ValidContract;
    hide Inv;
    hide StateAfter;
    hide MessageFault;
    hide MessagePose;
    hide MessageRotation;
    hide Nanoseconds;
    hide Jumps;
    hide TimingFault;
    hide SameClock;
    hide AcceptedNow;
    hide SampleCounters;
    OdometryVerdictsOfRuns(c, startedAt, events);
    StateAfterSnoc(c, startedAt, events);
    var s, t := StateAfter(c, startedAt, events[..|events| - 1]), StateAfter(c, startedAt, events);
    var at := Nanoseconds(events[|events| - 1].input.sample.stamp);
    var last := LastStamp(s.odometryHistory.committed).value;
    if at == last {
      GateAfterCall(c, s, t, MarkTransient(DuplicateTimestamp));
    } else if at < last {
      GateAfterCall(c, s, t, MarkLatched(NonmonotonicTimestamp));
    }
  }

  lemma StatusOrder(c: Contract, startedAt: int, events: seq<Event>)
    requires ValidContract(c) && events != [] && events[|events| - 1].input.Status?
    requires WellFormed(events[|events| - 1].input.status)
    requires StateAfter(c, startedAt, events[..|events| - 1]).status.sequenceGuard.Some?
    ensures var s, t := StateAfter(c, startedAt, events[..|events| - 1]), StateAfter(c, startedAt, events);
            var last, at := s.status.sequenceGuard.value, Nanoseconds(events[|events| - 1].input.status.stamp);
            && (at == last ==> FaultMarked(s, t, MarkTransient(TrackingStatusDuplicateTimestamp)))
            && (at < last ==> FaultMarked(s, t, MarkLatched(TrackingStatusNonmonotonicTimestamp)))
            && (at <= last ==> t.status == s.status.(valid := false))
  {
    hide ValidContract;
    hide Inv;
    hide StateAfter;
    hide WellFormed;
    hide Nanoseconds;
    hide SameClock;
    hide Evaluated;
    hide StatusCounters;
    StatusVerdictsOfRuns(c, startedAt, events);
    StateAfterSnoc(c, startedAt, events);
    var s, t := StateAfter(c, startedAt, events[..|events| - 1]), StateAfter(c, startedAt, events);
    var last, at := s.status.sequenceGuard.value, Nanoseconds(events[|events| - 1].input.status.stamp);
    if at == last {
      GateAfterCall(c, s, t, MarkTransient(TrackingStatusDuplicateTimestamp));
    } else if at < last {
      GateAfterCall(c, s, t, MarkLatched(TrackingStatusNonmonotonicTimestamp));
    }
  }

  /** The first candidate, in the order of the message, whose guard is not before the stamp. */
  lemma {:induction false} FirstGuardDecides(guards: map<string, Option<int>>, candidates: seq<Candidate>, at: int,
                                             k: nat)
    requires k < |candidates| && forall i | 0 <= i <= k :: candidates[i].status.name in guards
    requires forall i | 0 <= i < k :: guards[candidates[i].status.name].None? ||
                                      guards[candidates[i].status.name].value < at
    ensures guards[candidates[k].status.name] == Some(at) ==>
              OrderFault(guards, candidates, at) == Some(MarkTransient(UpstreamDiagnosticDuplicateTimestamp))
    ensures guards[candidates[k].status.name].Some? && at < guards[candidates[k].status.name].value ==>
              OrderFault(guards, candidates, at) == Some(MarkLatched(UpstreamDiagnosticNonmonotonicTimestamp))
    decreases k
  {
    if k > 0 {
      FirstGuardDecides(guards, candidates[1..], at, k - 1);
    }
  }

  /** A message from the right sender, in the clock domain and with nothing named twice. */
  ghost predicate Orderly(c: Contract, e: Event, candidates: seq<Candidate>)
    requires e.input.Diagnostics?
  {
    && candidates == Selected(c.input.requiredDiagnostics, e.input.message.statuses)
    && (forall j :: !FirstRepeat(c.input.requiredDiagnostics, e.input.message.statuses, j))
    && SenderFault(candidates, e.input.publisherGid, e.input.publishers) == None
    && Nanoseconds(e.input.message.stamp) > 0 && SameClock(c, e.rosNow, Nanoseconds(e.input.message.stamp))
  }

  lemma DiagnosticsOrder(c: Contract, startedAt: int, events: seq<Event>, candidates: seq<Candidate>, k: nat)
    requires ValidContract(c) && events != [] && events[|events| - 1].input.Diagnostics?
    requires Orderly(c, events[|events| - 1], candidates) && k < |candidates|
    requires var guards := StateAfter(c, startedAt, events[..|events| - 1]).diagnostics.guards;
             var at := Nanoseconds(events[|events| - 1].input.message.stamp);
             && (forall i | 0 <= i <= k :: candidates[i].status.name in guards)
             && forall i | 0 <= i < k ::
                  guards[candidates[i].status.name].None? || guards[candidates[i].status.name].value < at
    ensures var s, t := StateAfter(c, startedAt, events[..|events| - 1]), StateAfter(c, startedAt, events);
            var last := s.diagnostics.guards[candidates[k].status.name];
            var at := Nanoseconds(events[|events| - 1].input.message.stamp);
            && (last == Some(at) ==> FaultMarked(s, t, MarkTransient(UpstreamDiagnosticDuplicateTimestamp)))
            && (last.Some? && at < last.value ==>
                  FaultMarked(s, t, MarkLatched(UpstreamDiagnosticNonmonotonicTimestamp)))
  {
    hide ValidContract;
    hide Inv;
    hide StateAfter;
    hide Nanoseconds;
    hide SameClock;
    hide Evaluated;
    hide Selected;
    hide FirstRepeat;
    hide SenderFault;
    hide OrderFault;
    hide EvidenceFault;
    hide RepeatJudged;
    hide GuardsAt;
    hide EvidenceOf;
    hide MessageCounters;
    hide CandidateNames;
    MessageVerdictsOfRuns(c, startedAt, events);
    StateAfterSnoc(c, startedAt, events);
    var s, t := StateAfter(c, startedAt, events[..|events| - 1]), StateAfter(c, startedAt, events);
    var at := Nanoseconds(events[|events| - 1].input.message.stamp);
    var last := s.diagnostics.guards[candidates[k].status.name];
    FirstGuardDecides(s.diagnostics.guards, candidates, at, k);
    if last == Some(at) {
      GateAfterCall(c, s, t, MarkTransient(UpstreamDiagnosticDuplicateTimestamp));
    } else if last.Some? && at < last.value {
      GateAfterCall(c, s, t, MarkLatched(UpstreamDiagnosticNonmonotonicTimestamp));
    }
  }
}
