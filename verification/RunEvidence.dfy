/** A diagnostics message replaces the evidence of everything it names, or leaves none of it. */
module RunEvidence {
  import opened Contracts
  import opened Reasons
  import opened Stamps
  import opened HealthGate
  import opened ContractConfig
  import opened AdapterState
  import opened AdapterSteps
  import opened AdapterInvariant
  import opened DiagnosticEvidence
  import opened AdapterEffects
  import opened AdapterRuns

  // ----- who sent it -----

  lemma {:induction false} MatchingNodesCount(publishers: seq<Endpoint>, gid: int)
    ensures |MatchingNodes(publishers, gid)| == 0 <==> forall i | 0 <= i < |publishers| :: publishers[i].gid != gid
    ensures |MatchingNodes(publishers, gid)| == 1 <==>
            exists i | 0 <= i < |publishers| :: SoleSender(publishers, gid, i)
    ensures forall i | 0 <= i < |publishers| && SoleSender(publishers, gid, i) ::
              MatchingNodes(publishers, gid) == [publishers[i].node]
  {
    if publishers != [] {
      var n := |publishers| - 1;
      var before := publishers[..n];
      MatchingNodesCount(before, gid);
      assert forall i | 0 <= i < n :: before[i] == publishers[i];
      assert forall i | 0 <= i < n ::
          SoleSender(publishers, gid, i) <==> SoleSender(before, gid, i) && publishers[n].gid != gid;
      assert SoleSender(publishers, gid, n) <==>
             publishers[n].gid == gid && forall i | 0 <= i < n :: before[i].gid != gid;
    }
  }

  /** The endpoint at i, and no other, carries the identifier. */
  ghost predicate SoleSender(publishers: seq<Endpoint>, gid: int, i: int) {
    && 0 <= i < |publishers| && publishers[i].gid == gid
    && forall j | 0 <= j < |publishers| && j != i :: publishers[j].gid != gid
  }

  /** The endpoint at i, and no other, belongs to its node. */
  ghost predicate SoleEndpoint(publishers: seq<Endpoint>, i: int) {
    && 0 <= i < |publishers|
    && forall j | 0 <= j < |publishers| && j != i :: publishers[j].node != publishers[i].node
  }

  lemma {:induction false} CountNodeZero(publishers: seq<Endpoint>, node: string)
    ensures CountNode(publishers, node) == 0 <==> forall i | 0 <= i < |publishers| :: publishers[i].node != node
  {
    if publishers != [] {
      CountNodeZero(publishers[..|publishers| - 1], node);
      assert forall i | 0 <= i < |publishers| - 1 :: publishers[..|publishers| - 1][i] == publishers[i];
    }
  }

  lemma {:induction false} CountNodeOne(publishers: seq<Endpoint>, i: int)
    requires 0 <= i < |publishers|
    ensures CountNode(publishers, publishers[i].node) == 1 <==> SoleEndpoint(publishers, i)
  {
    var n := |publishers| - 1;
    var before, node := publishers[..n], publishers[i].node;
    assert forall j | 0 <= j < n :: before[j] == publishers[j];
    CountNodeZero(before, node);
    if i < n {
      assert before[i].node == node;
      CountNodeOne(before, i);
    }
  }

  /**
   The source of a message is accepted exactly when one endpoint carries its identifier, that endpoint is the only one
   of its node, and the node is the expected publisher of every candidate.
   */
  lemma SourceVerified(candidates: seq<Candidate>, gid: int, publishers: seq<Endpoint>)
    ensures SourceFault(candidates, gid, publishers) == None <==>
            exists i | 0 <= i < |publishers| ::
              SoleSender(publishers, gid, i) && SoleEndpoint(publishers, i) && AllExpect(candidates, publishers[i].node)
  {
    MatchingNodesCount(publishers, gid);
    forall i | 0 <= i < |publishers|
      ensures CountNode(publishers, publishers[i].node) == 1 <==> SoleEndpoint(publishers, i)
    {
      CountNodeOne(publishers, i);
    }
    hide CountNode;
    hide MatchingNodes;
    hide AllExpect;
    hide SoleSender;
    hide SoleEndpoint;
  }

  // ----- all or nothing -----

  /** Everything about the message and its sender is in order, and every named guard accepts its stamp. */
  ghost predicate Admissible(c: Contract, d: DiagnosticTrack, rosNow: int, m: DiagnosticsMessage, gid: int,
                             publishers: seq<Endpoint>)
  {
    var found, stampNs := Collect(c.input.requiredDiagnostics, m.statuses), StampToNanoseconds(m.stamp);
    && found.duplicate.None?
    && SourceFault(found.candidates, gid, publishers).None?
    && stampNs.Some? && stampNs.value > 0
    && ClockDomainMatches(c, rosNow, stampNs.value) == Success(true)
    && (forall n | n in CandidateNames(found.candidates) ::
          n in d.guards && StampOrderAfter(d.guards[n], stampNs.value) == Success(Accept))
    && (forall i | 0 <= i < |found.candidates| :: Satisfies(found.candidates[i]))
  }

  /** The evidence of the named diagnostics is new, satisfies its requirement, and the rest is as before. */
  ghost predicate Replaced(c: Contract, d: DiagnosticTrack, e: DiagnosticTrack, m: DiagnosticsMessage, stampNs: int,
                           now: int)
  {
    var names := RequiredNamesIn(c.input.requiredDiagnostics, m.statuses);
    && e.observations.Keys == d.observations.Keys + names
    && (forall n | n in d.observations && n !in names :: e.observations[n] == d.observations[n])
    && (forall n | n in names :: NewEvidence(c, e, m, n, stampNs, now))
    && e.guards.Keys == d.guards.Keys
    && (forall n | n in d.guards :: e.guards[n] == if n in names then Some(stampNs) else d.guards[n])
  }

  /** The stored evidence of a name is that of the status of that name in the message, and meets the requirement. */
  ghost predicate NewEvidence(c: Contract, e: DiagnosticTrack, m: DiagnosticsMessage, name: string, stampNs: int,
                              now: int)
  {
    var required := FindRequired(c.input.requiredDiagnostics, name);
    && required.Some?
    && name in e.observations
    && exists i | 0 <= i < |m.statuses| ::
         && m.statuses[i].name == name
         && e.observations[name] == Observation(m.statuses[i].level, stampNs, now)
         && EvidenceError(required.value, m.statuses[i].level, m.statuses[i].hardwareId, m.statuses[i].values) == None
  }

  /** None of the named diagnostics has evidence left, and the rest is as before. */
  ghost predicate Erased(c: Contract, d: DiagnosticTrack, e: DiagnosticTrack, m: DiagnosticsMessage) {
    e.observations == d.observations - RequiredNamesIn(c.input.requiredDiagnostics, m.statuses)
  }

  lemma RejectKeepsTrack(c: Contract, s: State, count: nat, event: GateEvent)
    requires IsFault(event)
    ensures RejectDiagnostics(c, s, count, event).diagnostics == s.diagnostics
    ensures event.MarkLatched? ==> RejectDiagnostics(c, s, count, event).gate.state == LatchedFault
    ensures Faulted(RejectDiagnostics(c, s, count, event).gate.state)
  {
  }

  lemma SourcedOutcome(c: Contract, s: State, u: State, now: int, rosNow: int, stamp: Time, candidates: seq<Candidate>)
    requires Sourced(c, s, u, candidates)
    ensures var r, stampNs := OnSourcedDiagnostics(c, u, now, rosNow, stamp, candidates), StampToNanoseconds(stamp);
            && r.Success?
            && if stampNs.Some? && stampNs.value > 0
                  && ClockDomainMatches(c, rosNow, stampNs.value) == Success(true)
                  && (forall n | n in CandidateNames(candidates) ::
                        n in u.diagnostics.guards &&
                        StampOrderAfter(u.diagnostics.guards[n], stampNs.value) == Success(Accept))
                  && (forall i | 0 <= i < |candidates| :: Satisfies(candidates[i]))
               then
                 && CommitGuards(u.diagnostics.guards, candidates, stampNs.value).Success?
                 && r.value.diagnostics == DiagnosticTrack(
                      CommitGuards(u.diagnostics.guards, candidates, stampNs.value).value,
                      StoreEvidence(u.diagnostics.observations, candidates, stampNs.value, now))
               else
                 r.value.diagnostics.observations == u.diagnostics.observations && Faulted(r.value.gate.state)
  {
    hide Inv;
    hide Decided;
    hide DiagnosticsInv;
    hide RejectDiagnostics;
    hide MaybeAdvanceHealth;
    hide ClockDomainMatches;
    hide StampToNanoseconds;
    hide CandidatesOf;
    hide FirstStampFault;
    hide CommitGuards;
    hide FirstEvidenceError;
    hide StoreEvidence;
    hide CandidateNames;
    hide Satisfies;
    hide OneCall;
    hide RateHonest;
    ReachableRateHonest(c, s);
    SourcedKeepsInv(c, s, u, now, rosNow, stamp, candidates);
    forall v: State, count: nat, event: GateEvent | IsFault(event)
      ensures RejectDiagnostics(c, v, count, event).diagnostics == v.diagnostics
      ensures Faulted(RejectDiagnostics(c, v, count, event).gate.state)
    {
      RejectKeepsTrack(c, v, count, event);
    }
    var at := StampToNanoseconds(stamp);
    if at.Some? && at.value > 0 {
      ClockDefined(c, rosNow, at.value);
      GuardsKnown(c, u.diagnostics);
      StampFaultDefined(c.input.requiredDiagnostics, u.diagnostics.guards, candidates, at.value);
      EvidenceErrorNone(candidates);
      if FirstStampFault(u.diagnostics.guards, candidates, at.value) == Success(Accept) {
        EvidenceKeepsInv(c, s, u, now, at.value, candidates);
        if FirstEvidenceError(candidates) == None {
          var guards := CommitGuards(u.diagnostics.guards, candidates, at.value).value;
          var stored := u.(diagnostics := DiagnosticTrack(
            guards, StoreEvidence(u.diagnostics.observations, candidates, at.value, now)));
          EvaluateGateOnly(c, stored, now);
        }
      }
    }
  }

  lemma NewFromCandidate(c: Contract, e: DiagnosticTrack, m: DiagnosticsMessage, candidate: Candidate, stampNs: int,
                         now: int)
    requires candidate.status in m.statuses && Satisfies(candidate)
    requires FindRequired(c.input.requiredDiagnostics, candidate.status.name) == Some(candidate.required)
    requires candidate.status.name in e.observations
    requires e.observations[candidate.status.name] == Observation(candidate.status.level, stampNs, now)
    ensures NewEvidence(c, e, m, candidate.status.name, stampNs, now)
  {
    hide FindRequired;
    hide EvidenceError;
    var i :| 0 <= i < |m.statuses| && m.statuses[i] == candidate.status;
  }

  lemma ReplacedByCandidates(c: Contract, d: DiagnosticTrack, m: DiagnosticsMessage, stampNs: int, now: int)
    requires DiagnosticsInv(c, d)
    requires var found := Collect(c.input.requiredDiagnostics, m.statuses);
             && found.duplicate.None?
             && (forall n | n in CandidateNames(found.candidates) ::
                   n in d.guards && StampOrderAfter(d.guards[n], stampNs) == Success(Accept))
             && (forall i | 0 <= i < |found.candidates| :: Satisfies(found.candidates[i]))
    ensures var candidates := Collect(c.input.requiredDiagnostics, m.statuses).candidates;
            && CommitGuards(d.guards, candidates, stampNs).Success?
            && Replaced(c, d, DiagnosticTrack(CommitGuards(d.guards, candidates, stampNs).value,
                 StoreEvidence(d.observations - CandidateNames(candidates), candidates, stampNs, now)), m, stampNs, now)
  {
    hide DiagnosticsInv;
    hide Collect;
    hide CommitGuards;
    hide StoreEvidence;
    hide FindRequired;
    hide StampOrderAfter;
    hide EvidenceError;
    var required := c.input.requiredDiagnostics;
    var candidates := Collect(required, m.statuses).candidates;
    CollectSound(required, m.statuses);
    GuardsKnown(c, d);
    CommitGuardsMoves(required, d.guards, candidates, stampNs);
    StoreEvidenceWrites(required, d.observations - CandidateNames(candidates), candidates, stampNs, now);
    var e := DiagnosticTrack(CommitGuards(d.guards, candidates, stampNs).value,
                             StoreEvidence(d.observations - CandidateNames(candidates), candidates, stampNs, now));
    forall n | n in CandidateNames(candidates)
      ensures NewEvidence(c, e, m, n, stampNs, now)
    {
      var k :| 0 <= k < |candidates| && candidates[k].status.name == n;
      NewFromCandidate(c, e, m, candidates[k], stampNs, now);
    }
    hide NewEvidence;
  }

  /**
   From s to t, a message that is admissible replaces the evidence of all it names. Any other leaves none of them with
   evidence and the gate in a fault; only when a name comes twice is just that name erased, and the gate then latched.
   */
  ghost predicate AllOrNothing(c: Contract, s: State, t: State, now: int, rosNow: int, m: DiagnosticsMessage, gid: int,
                               publishers: seq<Endpoint>)
  {
    var found := Collect(c.input.requiredDiagnostics, m.statuses);
    if Admissible(c, s.diagnostics, rosNow, m, gid, publishers) then
      && StampToNanoseconds(m.stamp).Some?
      && Replaced(c, s.diagnostics, t.diagnostics, m, StampToNanoseconds(m.stamp).value, now)
    else
      && Faulted(t.gate.state)
      && (found.duplicate.None? ==> Erased(c, s.diagnostics, t.diagnostics, m))
      && (found.duplicate.Some? ==>
            && t.gate.state == LatchedFault
            && t.diagnostics == s.diagnostics.(observations :=
                 s.diagnostics.observations - {found.duplicate.value}))
  }

  lemma EvidenceStep(c: Contract, s: State, now: int, rosNow: int, m: DiagnosticsMessage, gid: int,
                     publishers: seq<Endpoint>)
    requires Inv(c, s)
    requires RequiredNamesIn(c.input.requiredDiagnostics, m.statuses) != {}
    ensures OnUpstreamDiagnostics(c, s, now, rosNow, m, gid, publishers).Success?
    ensures AllOrNothing(c, s, OnUpstreamDiagnostics(c, s, now, rosNow, m, gid, publishers).value, now, rosNow, m, gid,
                         publishers)
  {
    hide Decided;
    hide RejectDiagnostics;
    hide SourceFault;
    hide OnSourcedDiagnostics;
    hide Collect;
    hide CandidatesOf;
    hide DiagnosticsInv;
    hide Inv;
    hide StampToNanoseconds;
    hide ClockDomainMatches;
    hide StampOrderAfter;
    hide Satisfies;
    hide Replaced;
    hide CommitGuards;
    hide StoreEvidence;
    hide FindRequired;
    DiagnosticsKeepsInv(c, s, now, rosNow, m, gid, publishers);
    InvHasDiagnostics(c, s);
    var required := c.input.requiredDiagnostics;
    var found := Collect(required, m.statuses);
    CollectSound(required, m.statuses);
    SourceFaultIsFault(found.candidates, gid, publishers);
    var counted := s.(counters := s.counters.(diagnosticReceived := s.counters.diagnosticReceived + found.received));
    if found.duplicate.Some? {
      RejectKeepsTrack(c, counted.(diagnostics := s.diagnostics.(observations :=
        s.diagnostics.observations - {found.duplicate.value})), 1, MarkLatched(DuplicateRequiredDiagnosticStatus));
    } else {
      assert found.candidates != [];
      EraseKeeps(c, s.diagnostics, CandidateNames(found.candidates));
      var erased := counted.(diagnostics := s.diagnostics.(observations :=
        s.diagnostics.observations - CandidateNames(found.candidates)));
      match SourceFault(found.candidates, gid, publishers)
      case Some(event) => RejectKeepsTrack(c, erased, |found.candidates|, event);
      case None =>
        SourcedOutcome(c, s, erased, now, rosNow, m.stamp, found.candidates);
        if Admissible(c, s.diagnostics, rosNow, m, gid, publishers) {
          ReplacedByCandidates(c, s.diagnostics, m, StampToNanoseconds(m.stamp).value, now);
        }
    }
  }

  /** In every run, a diagnostics message that names anything required is all or nothing. */
  lemma EvidenceAllOrNothing(c: Contract, startedAt: int, events: seq<Event>)
    requires ValidContract(c) && events != [] && events[|events| - 1].input.Diagnostics?
    requires RequiredNamesIn(c.input.requiredDiagnostics, events[|events| - 1].input.message.statuses) != {}
    ensures var e := events[|events| - 1];
            AllOrNothing(c, StateAfter(c, startedAt, events[..|events| - 1]), StateAfter(c, startedAt, events),
                         e.now, e.rosNow, e.input.message, e.input.publisherGid, e.input.publishers)
  {
    hide ValidContract;
    hide Inv;
    hide StateAfter;
    hide Run;
    hide OnUpstreamDiagnostics;
    hide RequiredNamesIn;
    hide AllOrNothing;
    var e := events[|events| - 1];
    StateAfterSnoc(c, startedAt, events);
    EvidenceStep(c, StateAfter(c, startedAt, events[..|events| - 1]), e.now, e.rosNow, e.input.message,
                 e.input.publisherGid, e.input.publishers);
  }

  /** The evidence of everything the message names is replaced, or none of it is left. */
  ghost predicate ReplacedOrErased(c: Contract, s: State, t: State, m: DiagnosticsMessage, now: int) {
    || (StampToNanoseconds(m.stamp).Some?
        && Replaced(c, s.diagnostics, t.diagnostics, m, StampToNanoseconds(m.stamp).value, now))
    || RequiredNamesIn(c.input.requiredDiagnostics, m.statuses) !! t.diagnostics.observations.Keys
  }

  /** The name at which the message is refused for coming twice is the only one it names that had evidence before. */
  ghost predicate OnlyDuplicateHadEvidence(c: Contract, d: DiagnosticTrack, m: DiagnosticsMessage) {
    forall n | n in RequiredNamesIn(c.input.requiredDiagnostics, m.statuses) && n in d.observations ::
      Collect(c.input.requiredDiagnostics, m.statuses).duplicate == Some(n)
  }

  lemma DuplicateIsNamed(required: seq<RequiredDiagnostic>, statuses: seq<DiagnosticStatus>)
    ensures Collect(required, statuses).duplicate.Some? ==>
              Collect(required, statuses).duplicate.value in RequiredNamesIn(required, statuses)
  {
    CollectSound(required, statuses);
  }

  lemma ExactlyFromAllOrNothing(c: Contract, s: State, t: State, now: int, rosNow: int, m: DiagnosticsMessage, gid: int,
                                publishers: seq<Endpoint>)
    requires AllOrNothing(c, s, t, now, rosNow, m, gid, publishers)
    ensures ReplacedOrErased(c, s, t, m, now) <==>
            || Collect(c.input.requiredDiagnostics, m.statuses).duplicate.None?
            || OnlyDuplicateHadEvidence(c, s.diagnostics, m)
  {
    hide Collect;
    hide StampToNanoseconds;
    hide NewEvidence;
    hide RequiredNamesIn;
    hide SourceFault;
    hide ClockDomainMatches;
    hide StampOrderAfter;
    hide Satisfies;
    DuplicateIsNamed(c.input.requiredDiagnostics, m.statuses);
    var names := RequiredNamesIn(c.input.requiredDiagnostics, m.statuses);
    var found := Collect(c.input.requiredDiagnostics, m.statuses);
    if found.duplicate.Some? {
      var twice := found.duplicate.value;
      assert twice in names && twice !in t.diagnostics.observations;
      assert t.diagnostics.observations.Keys == s.diagnostics.observations.Keys - {twice};
    } else if !Admissible(c, s.diagnostics, rosNow, m, gid, publishers) {
      assert t.diagnostics.observations.Keys == s.diagnostics.observations.Keys - names;
    }
  }

  /**
   Exactly when a message replaces all the evidence it names or leaves none: unless a required name comes twice and
   another one that the message names already had evidence, which is then kept.
   */
  lemma ReplacedOrErasedExactly(c: Contract, startedAt: int, events: seq<Event>)
    requires ValidContract(c) && events != [] && events[|events| - 1].input.Diagnostics?
    requires RequiredNamesIn(c.input.requiredDiagnostics, events[|events| - 1].input.message.statuses) != {}
    ensures var e, s := events[|events| - 1], StateAfter(c, startedAt, events[..|events| - 1]);
            ReplacedOrErased(c, s, StateAfter(c, startedAt, events), e.input.message, e.now) <==>
            || (forall i, j :: !NamedTwice(c.input.requiredDiagnostics, e.input.message.statuses, i, j))
            || OnlyDuplicateHadEvidence(c, s.diagnostics, e.input.message)
  {
    hide ValidContract;
    hide StateAfter;
    hide RequiredNamesIn;
    hide AllOrNothing;
    hide ReplacedOrErased;
    hide OnlyDuplicateHadEvidence;
    hide NamedTwice;
    hide Collect;
    var e := events[|events| - 1];
    EvidenceAllOrNothing(c, startedAt, events);
    ExactlyFromAllOrNothing(c, StateAfter(c, startedAt, events[..|events| - 1]), StateAfter(c, startedAt, events),
                            e.now, e.rosNow, e.input.message, e.input.publisherGid, e.input.publishers);
    CollectDuplicates(c.input.requiredDiagnostics, e.input.message.statuses);
  }

  /** In every reachable state, stored evidence is of a required name, at an allowed level and at its guard's stamp. */
  lemma EvidenceStaysSound(c: Contract, startedAt: int, events: seq<Event>, name: string)
    requires ValidContract(c)
    requires name in StateAfter(c, startedAt, events).diagnostics.observations
    ensures var d := StateAfter(c, startedAt, events).diagnostics;
            && name in d.guards && d.guards[name] == Some(d.observations[name].stampNs)
            && exists i | 0 <= i < |c.input.requiredDiagnostics| ::
                 && c.input.requiredDiagnostics[i].name == name
                 && d.observations[name].level <= c.input.requiredDiagnostics[i].maximumLevel
  {
    hide ValidContract;
    hide Inv;
    hide Run;
    hide FindRequired;
    hide StateAfter;
    StateInv(c, startedAt, events);
    var s := StateAfter(c, startedAt, events);
    InvHasDiagnostics(c, s);
    FindRequiredSound(c.input.requiredDiagnostics, name);
  }
}
