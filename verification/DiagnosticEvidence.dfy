/** Upstream diagnostics: what a message does to the stored evidence, and that the callback keeps the invariant. */
module DiagnosticEvidence {
  import opened Contracts
  import opened Reasons
  import opened Stamps
  import opened HealthGate
  import opened ContractConfig
  import opened AdapterState
  import opened AdapterSteps
  import opened AdapterInvariant

  // ----- candidates -----

  lemma {:induction false} FindRequiredSound(required: seq<RequiredDiagnostic>, name: string)
    ensures FindRequired(required, name).Some? <==> name in DiagnosticNames(required)
    ensures FindRequired(required, name).Some? ==>
            FindRequired(required, name).value in required && FindRequired(required, name).value.name == name
  {
    if required != [] && required[0].name != name {
      FindRequiredSound(required[1..], name);
      forall i | 0 <= i < |required| && required[i].name == name
        ensures name in DiagnosticNames(required[1..])
      {
        assert required[1..][i - 1].name == name;
      }
      if name in DiagnosticNames(required[1..]) {
        var i :| 0 <= i < |required| - 1 && required[1..][i].name == name;
        assert required[i + 1].name == name;
      }
    } else if required != [] {
      assert required[0].name == name;
    }
  }

  ghost predicate CandidatesOf(required: seq<RequiredDiagnostic>, candidates: seq<Candidate>) {
    && (forall i | 0 <= i < |candidates| ::
          FindRequired(required, candidates[i].status.name) == Some(candidates[i].required))
    && (forall i, j | 0 <= i < j < |candidates| :: candidates[i].status.name != candidates[j].status.name)
  }

  /** The required names that a message mentions. */
  ghost function RequiredNamesIn(required: seq<RequiredDiagnostic>, statuses: seq<DiagnosticStatus>): set<string> {
    set i | 0 <= i < |statuses| && FindRequired(required, statuses[i].name).Some? :: statuses[i].name
  }

  lemma NamesSnoc(candidates: seq<Candidate>, candidate: Candidate)
    ensures CandidateNames(candidates + [candidate]) == CandidateNames(candidates) + {candidate.status.name}
  {
    var longer := candidates + [candidate];
    assert longer[|candidates|] == candidate;
    assert forall i | 0 <= i < |candidates| :: longer[i] == candidates[i];
  }

  lemma RequiredNamesSnoc(required: seq<RequiredDiagnostic>, statuses: seq<DiagnosticStatus>)
    requires statuses != []
    ensures var last := statuses[|statuses| - 1];
            RequiredNamesIn(required, statuses) ==
            RequiredNamesIn(required, statuses[..|statuses| - 1]) +
            (if FindRequired(required, last.name).Some? then {last.name} else {})
  {
    hide FindRequired;
    var before := statuses[..|statuses| - 1];
    var last := statuses[|statuses| - 1];
    assert statuses == before + [last];
  }

  /** The candidates are the required diagnostics of the message, each once; or a required name came twice. */
  lemma {:induction false} CollectSound(required: seq<RequiredDiagnostic>, statuses: seq<DiagnosticStatus>)
    ensures var found := Collect(required, statuses);
            && CandidatesOf(required, found.candidates)
            && (forall i | 0 <= i < |found.candidates| :: found.candidates[i].status in statuses)
            && (found.duplicate.None? ==> CandidateNames(found.candidates) == RequiredNamesIn(required, statuses))
            && (found.duplicate.Some? ==>
                found.duplicate.value in RequiredNamesIn(required, statuses) &&
                found.duplicate.value in CandidateNames(found.candidates))
            && found.received == |found.candidates| + (if found.duplicate.Some? then 1 else 0)
  {
    hide FindRequired;
    if statuses != [] {
      var before := Collect(required, statuses[..|statuses| - 1]);
      var status := statuses[|statuses| - 1];
      CollectSound(required, statuses[..|statuses| - 1]);
      RequiredNamesSnoc(required, statuses);
      match FindRequired(required, status.name)
      case None =>
      case Some(r) =>
        if before.duplicate.None? && status.name !in CandidateNames(before.candidates) {
          NamesSnoc(before.candidates, Candidate(status, r));
        }
    }
  }

  /** A required name at two places of a message. */
  ghost predicate NamedTwice(required: seq<RequiredDiagnostic>, statuses: seq<DiagnosticStatus>, i: int, j: int) {
    && 0 <= i < j < |statuses| && statuses[i].name == statuses[j].name
    && FindRequired(required, statuses[i].name).Some?
  }

  /** The search stops exactly when some required name comes twice. */
  lemma {:induction false} CollectDuplicates(required: seq<RequiredDiagnostic>, statuses: seq<DiagnosticStatus>)
    ensures Collect(required, statuses).duplicate.Some? <==> exists i, j :: NamedTwice(required, statuses, i, j)
    ensures Collect(required, statuses).duplicate.Some? ==>
            exists i, j :: NamedTwice(required, statuses, i, j) &&
              statuses[i].name == Collect(required, statuses).duplicate.value
  {
    hide FindRequired;
    if statuses != [] {
      var n := |statuses| - 1;
      var before, last := statuses[..n], statuses[n];
      CollectDuplicates(required, before);
      CollectSound(required, before);
      assert forall i, j | j < n :: NamedTwice(required, before, i, j) <==> NamedTwice(required, statuses, i, j);
      var found := Collect(required, before);
      if found.duplicate.None? && FindRequired(required, last.name).Some? {
        LastNamedTwice(required, statuses);
      }
    }
  }

  lemma LastNamedTwice(required: seq<RequiredDiagnostic>, statuses: seq<DiagnosticStatus>)
    requires statuses != []
    ensures var n := |statuses| - 1;
            FindRequired(required, statuses[n].name).Some? ==>
              (statuses[n].name in RequiredNamesIn(required, statuses[..n]) <==>
               exists i :: NamedTwice(required, statuses, i, n))
  {
    hide FindRequired;
    var n := |statuses| - 1;
    var before := statuses[..n];
    assert forall i | 0 <= i < n :: before[i] == statuses[i];
    assert forall i | 0 <= i < n && before[i].name == statuses[n].name ::
        FindRequired(required, statuses[n].name).Some? ==> NamedTwice(required, statuses, i, n);
  }

  // ----- guards -----

  lemma CandidateKnown(required: seq<RequiredDiagnostic>, candidates: seq<Candidate>, i: nat)
    requires CandidatesOf(required, candidates) && i < |candidates|
    ensures candidates[i].required.name == candidates[i].status.name
    ensures candidates[i].status.name in DiagnosticNames(required)
  {
    FindRequiredSound(required, candidates[i].status.name);
    hide FindRequired;
  }

  lemma CandidatesTail(required: seq<RequiredDiagnostic>, candidates: seq<Candidate>)
    requires CandidatesOf(required, candidates) && candidates != []
    ensures CandidatesOf(required, candidates[1..])
    ensures CandidateNames(candidates) == {candidates[0].status.name} + CandidateNames(candidates[1..])
    ensures candidates[0].status.name !in CandidateNames(candidates[1..])
  {
    hide FindRequired;
    var tail := candidates[1..];
    assert forall i | 0 <= i < |tail| :: tail[i] == candidates[i + 1];
    assert forall i | 0 < i < |candidates| :: candidates[i] == tail[i - 1];
  }

  ghost predicate GuardsKnow(required: seq<RequiredDiagnostic>, guards: map<string, Option<int>>) {
    guards.Keys == DiagnosticNames(required)
  }

  /** Classifying the candidates cannot throw; it accepts exactly when every guard does. */
  lemma {:induction false} StampFaultDefined(required: seq<RequiredDiagnostic>, guards: map<string, Option<int>>,
                                             candidates: seq<Candidate>, stampNs: int)
    requires CandidatesOf(required, candidates) && GuardsKnow(required, guards) && stampNs > 0
    ensures FirstStampFault(guards, candidates, stampNs).Success?
    ensures FirstStampFault(guards, candidates, stampNs) == Success(Accept) <==>
            forall n | n in CandidateNames(candidates) ::
              n in guards && StampOrderAfter(guards[n], stampNs) == Success(Accept)
  {
    hide FindRequired;
    hide DiagnosticNames;
    hide CandidatesOf;
    if candidates != [] {
      CandidateKnown(required, candidates, 0);
      CandidatesTail(required, candidates);
      hide CandidateNames;
      StampFaultDefined(required, guards, candidates[1..], stampNs);
    }
  }

  /** Committing accepted candidates cannot throw; it moves their guards to the stamp and no other. */
  lemma {:induction false} CommitGuardsMoves(required: seq<RequiredDiagnostic>, guards: map<string, Option<int>>,
                                             candidates: seq<Candidate>, stampNs: int)
    requires CandidatesOf(required, candidates) && GuardsKnow(required, guards)
    requires forall n | n in CandidateNames(candidates) ::
               n in guards && StampOrderAfter(guards[n], stampNs) == Success(Accept)
    ensures CommitGuards(guards, candidates, stampNs).Success?
    ensures var moved := CommitGuards(guards, candidates, stampNs).value;
            && moved.Keys == guards.Keys
            && forall n | n in guards ::
                 moved[n] == if n in CandidateNames(candidates) then Some(stampNs) else guards[n]
    decreases |candidates|
  {
    hide FindRequired;
    hide DiagnosticNames;
    hide CandidatesOf;
    if candidates == [] {
      assert CandidateNames(candidates) == {};
    } else {
      var name := candidates[0].required.name;
      CandidateKnown(required, candidates, 0);
      CandidatesTail(required, candidates);
      hide CandidateNames;
      var next := guards[name := Some(stampNs)];
      assert next.Keys == guards.Keys;
      CommitGuardsMoves(required, next, candidates[1..], stampNs);
    }
  }

  // ----- evidence -----

  ghost predicate Satisfies(candidate: Candidate) {
    var status := candidate.status;
    EvidenceError(candidate.required, status.level, status.hardwareId, status.values) == None
  }

  lemma {:induction false} EvidenceErrorNone(candidates: seq<Candidate>)
    ensures FirstEvidenceError(candidates) == None <==> forall i | 0 <= i < |candidates| :: Satisfies(candidates[i])
  {
    hide EvidenceError;
    if candidates != [] {
      EvidenceErrorNone(candidates[1..]);
      assert forall i | 0 < i < |candidates| :: candidates[i] == candidates[1..][i - 1];
    }
  }

  lemma {:induction false} StoreEvidenceWrites(required: seq<RequiredDiagnostic>,
                                               observations: map<string, Observation>, candidates: seq<Candidate>,
                                               stampNs: int, now: int)
    requires CandidatesOf(required, candidates)
    ensures var stored := StoreEvidence(observations, candidates, stampNs, now);
            && stored.Keys == observations.Keys + CandidateNames(candidates)
            && (forall n | n in observations && n !in CandidateNames(candidates) :: stored[n] == observations[n])
            && (forall i | 0 <= i < |candidates| :: candidates[i].status.name in stored &&
                  stored[candidates[i].status.name] == Observation(candidates[i].status.level, stampNs, now))
    decreases |candidates|
  {
    hide FindRequired;
    if candidates == [] {
      assert CandidateNames(candidates) == {};
    } else {
      var status := candidates[0].status;
      CandidatesTail(required, candidates);
      hide CandidatesOf;
      var next := observations[status.name := Observation(status.level, stampNs, now)];
      StoreEvidenceWrites(required, next, candidates[1..], stampNs, now);
      assert forall i | 0 < i < |candidates| :: candidates[i] == candidates[1..][i - 1];
    }
  }

  // ----- the invariant -----

  /** Erasing evidence keeps the invariant of the rest. */
  lemma EraseKeeps(c: Contract, d: DiagnosticTrack, names: set<string>)
    requires DiagnosticsInv(c, d)
    ensures DiagnosticsInv(c, d.(observations := d.observations - names))
  {
    hide LevelAllowed;
    hide DiagnosticNames;
  }

  /** Moving the guards of erased names keeps it too. */
  lemma GuardsKeep(c: Contract, d: DiagnosticTrack, names: set<string>, moved: map<string, Option<int>>, stampNs: int)
    requires DiagnosticsInv(c, d)
    requires d.observations.Keys !! names
    requires moved.Keys == d.guards.Keys
    requires forall n | n in d.guards :: moved[n] == if n in names then Some(stampNs) else d.guards[n]
    ensures DiagnosticsInv(c, d.(guards := moved))
  {
    hide LevelAllowed;
    hide DiagnosticNames;
  }

  /** New evidence carries the stamp its guard was just moved to, at an allowed level. */
  lemma StoreKeeps(c: Contract, d: DiagnosticTrack, candidates: seq<Candidate>, stampNs: int, now: int)
    requires DiagnosticsInv(c, d)
    requires CandidatesOf(c.input.requiredDiagnostics, candidates)
    requires forall n | n in CandidateNames(candidates) :: n in d.guards && d.guards[n] == Some(stampNs)
    requires forall i | 0 <= i < |candidates| :: Satisfies(candidates[i])
    ensures DiagnosticsInv(c, d.(observations := StoreEvidence(d.observations, candidates, stampNs, now)))
  {
    hide FindRequired;
    hide DiagnosticNames;
    StoreEvidenceWrites(c.input.requiredDiagnostics, d.observations, candidates, stampNs, now);
    hide StoreEvidence;
    var stored := StoreEvidence(d.observations, candidates, stampNs, now);
    forall n | n in stored
      ensures n in d.guards && d.guards[n] == Some(stored[n].stampNs)
      ensures LevelAllowed(c.input.requiredDiagnostics, n, stored[n].level)
    {
      if n in CandidateNames(candidates) {
        var i :| 0 <= i < |candidates| && candidates[i].status.name == n;
        assert Satisfies(candidates[i]);
      }
    }
    hide LevelAllowed;
  }

  ghost predicate OnlyDiagnosticsChanged(s: State, t: State) {
    && t == s.(diagnostics := t.diagnostics, counters := t.counters)
    && SameOdometryCounts(s.counters, t.counters)
  }

  lemma DiagnosticsFault(c: Contract, s: State, t: State, event: GateEvent, now: int)
    requires Inv(c, s) && OnlyDiagnosticsChanged(s, t) && DiagnosticsInv(c, t.diagnostics) && IsFault(event)
    ensures Decided(c, Fault(c, t, event), now)
  {
    hide Decided;
    hide Fault;
    hide WindowInv;
    hide AcceptedInv;
    hide CountersInv;
    hide StatusInv;
    hide DiagnosticsInv;
    hide GateInv;
    hide ObservedInv;
    hide FaultInv;
    hide Undecided;
    InputsReplaced(c, s, t);
    FaultDecides(c, t, event, now);
  }

  lemma RejectDiagnosticsDecides(c: Contract, s: State, t: State, count: nat, event: GateEvent, now: int)
    requires Inv(c, s) && OnlyDiagnosticsChanged(s, t) && DiagnosticsInv(c, t.diagnostics) && IsFault(event)
    ensures Decided(c, RejectDiagnostics(c, t, count, event), now)
  {
    hide Decided;
    hide Fault;
    hide Inv;
    hide DiagnosticsInv;
    DiagnosticsFault(c, s, t.(counters := t.counters.(diagnosticRejected := t.counters.diagnosticRejected + count)),
                     event, now);
  }

  lemma DiagnosticsEvaluate(c: Contract, s: State, t: State, now: int)
    requires Inv(c, s) && OnlyDiagnosticsChanged(s, t) && DiagnosticsInv(c, t.diagnostics)
    ensures MaybeAdvanceHealth(c, t, now).Success?
    ensures Decided(c, MaybeAdvanceHealth(c, t, now).value, now)
  {
    hide Decided;
    hide MaybeAdvanceHealth;
    hide WindowInv;
    hide AcceptedInv;
    hide CountersInv;
    hide StatusInv;
    hide DiagnosticsInv;
    hide GateInv;
    hide ObservedInv;
    hide FaultInv;
    hide Undecided;
    InputsReplaced(c, s, t);
    EvaluateKeepsInv(c, t, now);
  }

  /** The candidates of a message from the right publisher, their old evidence erased. */
  ghost predicate Sourced(c: Contract, s: State, t: State, candidates: seq<Candidate>) {
    && Inv(c, s) && OnlyDiagnosticsChanged(s, t)
    && CandidatesOf(c.input.requiredDiagnostics, candidates)
    && DiagnosticsInv(c, t.diagnostics)
    && t.diagnostics.observations.Keys !! CandidateNames(candidates)
  }

  lemma SourcedKeepsInv(c: Contract, s: State, t: State, now: int, rosNow: int, stamp: Time, candidates: seq<Candidate>)
    requires Sourced(c, s, t, candidates)
    ensures OnSourcedDiagnostics(c, t, now, rosNow, stamp, candidates).Success?
    ensures Decided(c, OnSourcedDiagnostics(c, t, now, rosNow, stamp, candidates).value, now)
  {
    hide Inv;
    hide Decided;
    hide DiagnosticsInv;
    hide RejectDiagnostics;
    hide MaybeAdvanceHealth;
    hide ClockDomainMatches;
    hide StampToNanoseconds;
    hide CandidatesOf;
    hide FirstStampFault;
    hide CommitGuards;
    hide FirstEvidenceError;
    hide StoreEvidence;
    hide CandidateNames;
    var n := |candidates|;
    if StampToNanoseconds(stamp).None? || StampToNanoseconds(stamp).value <= 0 {
      RejectDiagnosticsDecides(c, s, t, n, MarkTransient(UpstreamDiagnosticTimestampInvalid), now);
    } else {
      var stampNs := StampToNanoseconds(stamp).value;
      ClockDefined(c, rosNow, stampNs);
      GuardsKnown(c, t.diagnostics);
      StampFaultDefined(c.input.requiredDiagnostics, t.diagnostics.guards, candidates, stampNs);
      var order := FirstStampFault(t.diagnostics.guards, candidates, stampNs).value;
      if !ClockDomainMatches(c, rosNow, stampNs).value {
        RejectDiagnosticsDecides(
          c, s, t.(counters := t.counters.(clockDomainMismatch := t.counters.clockDomainMismatch + 1)), n,
          MarkTransient(UpstreamDiagnosticClockDomainMismatch), now);
      } else if order == Duplicate {
        RejectDiagnosticsDecides(
          c, s, t.(counters := t.counters.(diagnosticDuplicate := t.counters.diagnosticDuplicate + 1)), n,
          MarkTransient(UpstreamDiagnosticDuplicateTimestamp), now);
      } else if order == Nonmonotonic {
        RejectDiagnosticsDecides(
          c, s, t.(counters := t.counters.(diagnosticNonmonotonic := t.counters.diagnosticNonmonotonic + 1)), n,
          MarkLatched(UpstreamDiagnosticNonmonotonicTimestamp), now);
      } else {
        EvidenceKeepsInv(c, s, t, now, stampNs, candidates);
      }
    }
  }

  lemma GuardsKnown(c: Contract, d: DiagnosticTrack)
    requires DiagnosticsInv(c, d)
    ensures GuardsKnow(c.input.requiredDiagnostics, d.guards)
  {
    hide LevelAllowed;
    hide DiagnosticNames;
  }

  lemma EvidenceKeepsInv(c: Contract, s: State, t: State, now: int, stampNs: int, candidates: seq<Candidate>)
    requires Sourced(c, s, t, candidates) && stampNs > 0
    requires FirstStampFault(t.diagnostics.guards, candidates, stampNs) == Success(Accept)
    ensures CommitGuards(t.diagnostics.guards, candidates, stampNs).Success?
    ensures var guards := CommitGuards(t.diagnostics.guards, candidates, stampNs).value;
            var committed := t.(diagnostics := t.diagnostics.(guards := guards));
            && (forall event: GateEvent | IsFault(event) ::
                  Decided(c, RejectDiagnostics(c, committed, |candidates|, event), now))
            && (FirstEvidenceError(candidates) == None ==>
                var stored := StoreEvidence(t.diagnostics.observations, candidates, stampNs, now);
                var u := committed.(diagnostics := committed.diagnostics.(observations := stored));
                MaybeAdvanceHealth(c, u, now).Success? && Decided(c, MaybeAdvanceHealth(c, u, now).value, now))
  {
    hide Inv;
    hide Decided;
    hide DiagnosticsInv;
    hide RejectDiagnostics;
    hide MaybeAdvanceHealth;
    hide CandidatesOf;
    hide FirstStampFault;
    hide CommitGuards;
    hide FirstEvidenceError;
    hide StoreEvidence;
    hide CandidateNames;
    hide Satisfies;
    var required, d := c.input.requiredDiagnostics, t.diagnostics;
    GuardsKnown(c, d);
    StampFaultDefined(required, d.guards, candidates, stampNs);
    CommitGuardsMoves(required, d.guards, candidates, stampNs);
    var guards := CommitGuards(d.guards, candidates, stampNs).value;
    var committed := t.(diagnostics := d.(guards := guards));
    GuardsKeep(c, d, CandidateNames(candidates), guards, stampNs);
    forall event: GateEvent | IsFault(event)
      ensures Decided(c, RejectDiagnostics(c, committed, |candidates|, event), now)
    {
      RejectDiagnosticsDecides(c, s, committed, |candidates|, event, now);
    }
    if FirstEvidenceError(candidates) == None {
      EvidenceErrorNone(candidates);
      StoreKeeps(c, committed.diagnostics, candidates, stampNs, now);
      var stored := StoreEvidence(d.observations, candidates, stampNs, now);
      DiagnosticsEvaluate(c, s, committed.(diagnostics := committed.diagnostics.(observations := stored)), now);
    }
  }

  /** OnUpstreamDiagnostics never throws, keeps the invariant, and decides unless it found nothing it requires. */
  lemma DiagnosticsKeepsInv(c: Contract, s: State, now: int, rosNow: int, m: DiagnosticsMessage, gid: int,
                            publishers: seq<Endpoint>)
    requires Inv(c, s)
    ensures OnUpstreamDiagnostics(c, s, now, rosNow, m, gid, publishers).Success?
    ensures var t := OnUpstreamDiagnostics(c, s, now, rosNow, m, gid, publishers).value;
            if RequiredNamesIn(c.input.requiredDiagnostics, m.statuses) == {} then t == s && Inv(c, t)
            else Decided(c, t, now)
  {
    hide Decided;
    hide RejectDiagnostics;
    hide SourceFault;
    hide OnSourcedDiagnostics;
    hide Collect;
    hide CandidatesOf;
    assert DiagnosticsInv(c, s.diagnostics) by { hide *; InvHasDiagnostics(c, s); }
    hide Inv;
    hide DiagnosticsInv;
    var found := Collect(c.input.requiredDiagnostics, m.statuses);
    CollectSound(c.input.requiredDiagnostics, m.statuses);
    SourceFaultIsFault(found.candidates, gid, publishers);
    var counted := s.(counters := s.counters.(diagnosticReceived := s.counters.diagnosticReceived + found.received));
    if found.duplicate.Some? {
      EraseKeeps(c, s.diagnostics, {found.duplicate.value});
      var erased := counted.(diagnostics := s.diagnostics.(observations :=
        s.diagnostics.observations - {found.duplicate.value}));
      RejectDiagnosticsDecides(c, s, erased, 1, MarkLatched(DuplicateRequiredDiagnosticStatus), now);
    } else if found.candidates == [] {
      assert CandidateNames(found.candidates) == {};
    } else {
      assert found.candidates[0].status.name in CandidateNames(found.candidates);
      EraseKeeps(c, s.diagnostics, CandidateNames(found.candidates));
      var erased := counted.(diagnostics := s.diagnostics.(observations :=
        s.diagnostics.observations - CandidateNames(found.candidates)));
      match SourceFault(found.candidates, gid, publishers)
      case Some(event) => RejectDiagnosticsDecides(c, s, erased, |found.candidates|, event, now);
      case None => SourcedKeepsInv(c, s, erased, now, rosNow, m.stamp, found.candidates);
    }
  }

  lemma InvHasDiagnostics(c: Contract, s: State)
    requires Inv(c, s)
    ensures DiagnosticsInv(c, s.diagnostics)
  {
    hide DiagnosticsInv;
    hide WindowInv;
    hide AcceptedInv;
    hide GateInv;
    hide ObservedInv;
    hide FaultInv;
  }

  lemma SourceFaultIsFault(candidates: seq<Candidate>, gid: int, publishers: seq<Endpoint>)
    ensures SourceFault(candidates, gid, publishers).Some? ==> IsFault(SourceFault(candidates, gid, publishers).value)
  {
    hide MatchingNodes;
    hide CountNode;
  }
}
