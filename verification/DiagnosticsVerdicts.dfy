/** What a diagnostics message does, and why each one that does not count is refused, in terms of its own fields. */
module DiagnosticsVerdicts {
  import opened Contracts
  import opened Reasons
  import opened Stamps
  import opened HealthGate
  import opened ContractConfig
  import opened AdapterState
  import opened AdapterSteps
  import opened AdapterInvariant
  import opened DiagnosticEvidence
  import opened AdapterRuns
  import opened RunHealth
  import opened RunEvidence
  import opened HealthVerdicts
  import opened StatusVerdicts

  // ----- which statuses are looked at -----

  /** The statuses that are required, in the order of the message, each with its requirement. */
  function Selected(required: seq<RequiredDiagnostic>, statuses: seq<DiagnosticStatus>): seq<Candidate> {
    if statuses == [] then []
    else
      var before, last := Selected(required, statuses[..|statuses| - 1]), statuses[|statuses| - 1];
      match FindRequired(required, last.name)
      case None => before
      case Some(r) => before + [Candidate(last, r)]
  }

  /** The position at which a required name comes for the second time, before any other does. */
  ghost predicate FirstRepeat(required: seq<RequiredDiagnostic>, statuses: seq<DiagnosticStatus>, j: int) {
    && 0 <= j < |statuses| && (exists i :: NamedTwice(required, statuses, i, j))
    && forall i, k | k < j :: !NamedTwice(required, statuses, i, k)
  }

  /** Without a repetition the search finds what is selected. */
  lemma {:induction false} CollectSelects(required: seq<RequiredDiagnostic>, statuses: seq<DiagnosticStatus>)
    requires Collect(required, statuses).duplicate.None?
    ensures Collect(required, statuses).candidates == Selected(required, statuses)
    ensures Collect(required, statuses).received == |Selected(required, statuses)|
  {
    hide FindRequired;
    hide CandidateNames;
    if statuses != [] {
      CollectSelects(required, statuses[..|statuses| - 1]);
    }
  }

  lemma RepeatAtEnd(required: seq<RequiredDiagnostic>, statuses: seq<DiagnosticStatus>)
    requires statuses != [] && Collect(required, statuses).duplicate.Some?
    requires Collect(required, statuses[..|statuses| - 1]).duplicate.None?
    ensures var n := |statuses| - 1;
            && FirstRepeat(required, statuses, n) && statuses[n].name == Collect(required, statuses).duplicate.value
            && Collect(required, statuses).received == |Selected(required, statuses)|
  {
    var n := |statuses| - 1;
    var before := statuses[..n];
    hide FindRequired;
    CollectSelects(required, before);
    CollectSound(required, before);
    CollectDuplicates(required, before);
    LastNamedTwice(required, statuses);
    assert forall i, j | j < n :: NamedTwice(required, before, i, j) <==> NamedTwice(required, statuses, i, j);
    hide NamedTwice;
    hide CandidateNames;
    hide CandidatesOf;
    hide RequiredNamesIn;
  }

  lemma RepeatExtends(required: seq<RequiredDiagnostic>, statuses: seq<DiagnosticStatus>, j: int)
    requires statuses != [] && FirstRepeat(required, statuses[..|statuses| - 1], j)
    ensures FirstRepeat(required, statuses, j)
  {
    hide FindRequired;
    var before := statuses[..|statuses| - 1];
    assert forall i, k | k < |before| :: NamedTwice(required, before, i, k) <==> NamedTwice(required, statuses, i, k);
    hide NamedTwice;
  }

  /** With one it stops at the first, having looked at what is selected so far. */
  lemma {:induction false} CollectStopsAt(required: seq<RequiredDiagnostic>, statuses: seq<DiagnosticStatus>)
    returns (j: nat)
    requires Collect(required, statuses).duplicate.Some?
    ensures FirstRepeat(required, statuses, j) && statuses[j].name == Collect(required, statuses).duplicate.value
    ensures Collect(required, statuses).received == |Selected(required, statuses[..j + 1])|
  {
    hide FindRequired;
    hide CandidateNames;
    hide FirstRepeat;
    hide Selected;
    FirstRepeatBounds();
    var n := |statuses| - 1;
    var before := statuses[..n];
    if Collect(required, before).duplicate.Some? {
      j := CollectStopsAt(required, before);
      RepeatExtends(required, statuses, j);
      assert statuses[..j + 1] == before[..j + 1];
    } else {
      j := n;
      RepeatAtEnd(required, statuses);
      assert statuses[..j + 1] == statuses;
    }
  }

  lemma FirstRepeatBounds()
    ensures forall required, statuses, j | FirstRepeat(required, statuses, j) :: 0 <= j < |statuses|
  {
    hide NamedTwice;
  }

  lemma RepeatIsUnique(required: seq<RequiredDiagnostic>, statuses: seq<DiagnosticStatus>, j: int, k: int)
    requires FirstRepeat(required, statuses, j) && FirstRepeat(required, statuses, k)
    ensures j == k
  {
    hide NamedTwice;
  }

  // ----- who sent it -----

  predicate Sends(publishers: seq<Endpoint>, gid: int, i: int) {
    0 <= i < |publishers| && publishers[i].gid == gid
  }

  /** The first thing wrong with the sender: unknown, ambiguous, not alone in its node, or not the one expected. */
  ghost function SenderFault(candidates: seq<Candidate>, gid: int, publishers: seq<Endpoint>): Option<GateEvent> {
    if !exists i :: Sends(publishers, gid, i) then Some(MarkTransient(DiagnosticSourceNotDiscovered))
    else if exists i, j :: Sends(publishers, gid, i) && Sends(publishers, gid, j) && i < j then
      Some(MarkLatched(DiagnosticSourceGidNotUnique))
    else if exists i, j :: Sends(publishers, gid, i) && SharesNode(publishers, i, j) then
      Some(MarkLatched(DiagnosticPublisherNotUnique))
    else if exists i, k :: Sends(publishers, gid, i) && Mistrusts(candidates, k, publishers[i].node) then
      Some(MarkLatched(DiagnosticPublisherIdentityMismatch))
    else None
  }

  /** Another endpoint belongs to the same node. */
  predicate SharesNode(publishers: seq<Endpoint>, i: int, j: int) {
    0 <= i < |publishers| && 0 <= j < |publishers| && i != j && publishers[j].node == publishers[i].node
  }

  /** A candidate expects another publisher. */
  predicate Mistrusts(candidates: seq<Candidate>, k: int, node: string) {
    0 <= k < |candidates| && candidates[k].required.expectedPublisher != node
  }

  /** With a sole sender, the two questions about its node. */
  lemma SoleSenderFault(candidates: seq<Candidate>, gid: int, publishers: seq<Endpoint>, i: int)
    requires SoleSender(publishers, gid, i)
    ensures SenderFault(candidates, gid, publishers) ==
            if !SoleEndpoint(publishers, i) then Some(MarkLatched(DiagnosticPublisherNotUnique))
            else if !AllExpect(candidates, publishers[i].node) then
              Some(MarkLatched(DiagnosticPublisherIdentityMismatch))
            else None
  {
    assert Sends(publishers, gid, i);
    assert forall j | Sends(publishers, gid, j) :: j == i;
    if !SoleEndpoint(publishers, i) {
      var j :| 0 <= j < |publishers| && j != i && publishers[j].node == publishers[i].node;
      assert SharesNode(publishers, i, j);
    }
    if !AllExpect(candidates, publishers[i].node) {
      var k :| 0 <= k < |candidates| && candidates[k].required.expectedPublisher != publishers[i].node;
      assert Mistrusts(candidates, k, publishers[i].node);
    }
  }

  lemma SenderFaultMeans(candidates: seq<Candidate>, gid: int, publishers: seq<Endpoint>)
    ensures SourceFault(candidates, gid, publishers) == SenderFault(candidates, gid, publishers)
  {
    MatchingNodesCount(publishers, gid);
    if i :| 0 <= i < |publishers| && SoleSender(publishers, gid, i) {
      assert MatchingNodes(publishers, gid) == [publishers[i].node];
      CountNodeOne(publishers, i);
      SoleSenderFault(candidates, gid, publishers, i);
      hide SenderFault;
    } else {
      SendersCount(publishers, gid);
      hide SharesNode;
      hide Mistrusts;
    }
    hide MatchingNodes;
    hide CountNode;
    hide AllExpect;
    hide Sends;
    hide SoleEndpoint;
    hide SoleSender;
  }

  /** Without a sole sender there is none, or there are two. */
  lemma SendersCount(publishers: seq<Endpoint>, gid: int)
    requires !exists i | 0 <= i < |publishers| :: SoleSender(publishers, gid, i)
    ensures |MatchingNodes(publishers, gid)| == 0 <==> !exists i :: Sends(publishers, gid, i)
    ensures |MatchingNodes(publishers, gid)| != 1
    ensures (exists i :: Sends(publishers, gid, i)) ==>
            exists i, j :: Sends(publishers, gid, i) && Sends(publishers, gid, j) && i < j
  {
    MatchingNodesCount(publishers, gid);
    hide MatchingNodes;
    assert forall i | 0 <= i < |publishers| :: Sends(publishers, gid, i) <==> publishers[i].gid == gid;
    if i :| Sends(publishers, gid, i) {
      assert !SoleSender(publishers, gid, i);
      var j :| 0 <= j < |publishers| && j != i && publishers[j].gid == gid;
      assert Sends(publishers, gid, j);
      if i < j {
        assert Sends(publishers, gid, i) && Sends(publishers, gid, j) && i < j;
      } else {
        assert Sends(publishers, gid, j) && Sends(publishers, gid, i) && j < i;
      }
    }
  }

  // ----- order and values -----

  /** The first candidate whose last stamp is not before this one decides: the same stamp or a later one. */
  function OrderFault(guards: map<string, Option<int>>, candidates: seq<Candidate>, at: int): Option<GateEvent> {
    if candidates == [] then None
    else
      var name := candidates[0].status.name;
      var last := if name in guards then guards[name] else None;
      if last == Some(at) then Some(MarkTransient(UpstreamDiagnosticDuplicateTimestamp))
      else if last.Some? && at < last.value then Some(MarkLatched(UpstreamDiagnosticNonmonotonicTimestamp))
      else OrderFault(guards, candidates[1..], at)
  }

  lemma {:induction false} OrderFaultMeans(required: seq<RequiredDiagnostic>, guards: map<string, Option<int>>,
                                           candidates: seq<Candidate>, at: int)
    requires CandidatesOf(required, candidates) && GuardsKnow(required, guards) && at > 0
    ensures FirstStampFault(guards, candidates, at).Success?
    ensures OrderFault(guards, candidates, at) ==
            match FirstStampFault(guards, candidates, at).value
            case Accept => None
            case Duplicate => Some(MarkTransient(UpstreamDiagnosticDuplicateTimestamp))
            case Nonmonotonic => Some(MarkLatched(UpstreamDiagnosticNonmonotonicTimestamp))
  {
    hide FindRequired;
    hide DiagnosticNames;
    hide CandidatesOf;
    hide CandidateNames;
    if candidates != [] {
      CandidateKnown(required, candidates, 0);
      CandidatesTail(required, candidates);
      OrderFaultMeans(required, guards, candidates[1..], at);
    }
  }

  /** What is wrong with one status: level or identity, a repeated key, or a missing or different value. */
  ghost function StatusFaultOf(candidate: Candidate): Option<GateEvent> {
    var status, required := candidate.status, candidate.required;
    if status.level > required.maximumLevel || status.hardwareId != required.hardwareId then
      Some(MarkTransient(UpstreamDiagnosticIdentityOrLevelMismatch))
    else if exists i, j | 0 <= i < j < |status.values| :: status.values[i].0 == status.values[j].0 then
      Some(MarkLatched(UpstreamDiagnosticDuplicateValueKey))
    else if exists k | k in required.requiredValues :: (k, required.requiredValues[k]) !in status.values then
      Some(MarkTransient(UpstreamDiagnosticValueMismatch))
    else None
  }

  /** The first candidate with something wrong decides. */
  ghost function EvidenceFault(candidates: seq<Candidate>): Option<GateEvent> {
    if candidates == [] then None
    else if StatusFaultOf(candidates[0]).Some? then StatusFaultOf(candidates[0])
    else EvidenceFault(candidates[1..])
  }

  lemma StatusFaultMeans(candidate: Candidate)
    ensures var status := candidate.status;
            var error := EvidenceError(candidate.required, status.level, status.hardwareId, status.values);
            StatusFaultOf(candidate) == EvidenceEvent(error)
  {
  }

  function EvidenceEvent(error: Option<Reason>): Option<GateEvent> {
    if error == None then None
    else if error == Some(UpstreamDiagnosticDuplicateValueKey) then Some(MarkLatched(error.value))
    else Some(MarkTransient(error.value))
  }

  lemma {:induction false} EvidenceFaultMeans(candidates: seq<Candidate>)
    ensures EvidenceFault(candidates) == EvidenceEvent(FirstEvidenceError(candidates))
  {
    hide EvidenceError;
    hide StatusFaultOf;
    if candidates != [] {
      StatusFaultMeans(candidates[0]);
      EvidenceFaultMeans(candidates[1..]);
    }
  }

  // ----- the verdict -----

  /** The stamp enters the guards of all candidates: nothing is wrong but, perhaps, what the statuses say. */
  ghost predicate StampsEnter(c: Contract, guards: map<string, Option<int>>, rosNow: int, at: int,
                              candidates: seq<Candidate>, gid: int, publishers: seq<Endpoint>)
  {
    && SenderFault(candidates, gid, publishers) == None && at > 0 && SameClock(c, rosNow, at)
    && OrderFault(guards, candidates, at) == None
  }

  /** The first thing wrong with a message in which no required name comes twice. */
  ghost function CandidatesFault(c: Contract, guards: map<string, Option<int>>, rosNow: int, at: int,
                                 candidates: seq<Candidate>, gid: int, publishers: seq<Endpoint>): Option<GateEvent>
  {
    if SenderFault(candidates, gid, publishers).Some? then SenderFault(candidates, gid, publishers)
    else if at <= 0 then Some(MarkTransient(UpstreamDiagnosticTimestampInvalid))
    else if !SameClock(c, rosNow, at) then Some(MarkTransient(UpstreamDiagnosticClockDomainMismatch))
    else if OrderFault(guards, candidates, at).Some? then OrderFault(guards, candidates, at)
    else EvidenceFault(candidates)
  }

  function MessageCounters(n: Counters, received: nat, rejected: nat, fault: Option<GateEvent>): Counters {
    n.(diagnosticReceived := n.diagnosticReceived + received,
       diagnosticRejected := n.diagnosticRejected + rejected,
       diagnosticDuplicate := n.diagnosticDuplicate +
         (if fault == Some(MarkTransient(UpstreamDiagnosticDuplicateTimestamp)) then 1 else 0),
       diagnosticNonmonotonic := n.diagnosticNonmonotonic +
         (if fault == Some(MarkLatched(UpstreamDiagnosticNonmonotonicTimestamp)) then 1 else 0),
       clockDomainMismatch := n.clockDomainMismatch +
         (if fault == Some(MarkTransient(UpstreamDiagnosticClockDomainMismatch)) then 1 else 0))
  }

  /** Only evidence, guards, counters and the gate move. */
  predicate MessageOnly(s: State, t: State) {
    t == s.(gate := t.gate, diagnostics := t.diagnostics, lastHealthObserved := t.lastHealthObserved,
            counters := t.counters, gateHistory := t.gateHistory)
  }

  /** A message that names something twice: that name loses its evidence, and the gate latches. */
  ghost predicate RepeatJudged(s: State, t: State, name: string, looked: nat) {
    var latch := Some(MarkLatched(DuplicateRequiredDiagnosticStatus));
    && MessageOnly(s, t) && t.lastHealthObserved == s.lastHealthObserved
    && t.diagnostics == s.diagnostics.(observations := s.diagnostics.observations - {name})
    && t.counters == MessageCounters(s.counters, looked, 1, latch)
    && Called(s.gateHistory.calls, t.gateHistory.calls, latch)
  }

  /** Guards of the candidates at the stamp, all others as before. */
  ghost predicate GuardsAt(before: map<string, Option<int>>, after: map<string, Option<int>>, names: set<string>,
                           at: int)
  {
    && after.Keys == before.Keys
    && forall n | n in before :: after[n] == if n in names then Some(at) else before[n]
  }

  /** Evidence of the candidates as their statuses say, all other as before. */
  ghost predicate EvidenceOf(before: map<string, Observation>, after: map<string, Observation>,
                             candidates: seq<Candidate>, at: int, now: int)
  {
    && after.Keys == before.Keys + CandidateNames(candidates)
    && (forall n | n in before && n !in CandidateNames(candidates) :: after[n] == before[n])
    && forall i | 0 <= i < |candidates| ::
         candidates[i].status.name in after &&
         after[candidates[i].status.name] == Observation(candidates[i].status.level, at, now)
  }

  /** Any other message that names something. */
  ghost predicate CandidatesJudged(c: Contract, s: State, t: State, now: int, rosNow: int, at: int,
                                   candidates: seq<Candidate>, gid: int, publishers: seq<Endpoint>)
  {
    var fault := CandidatesFault(c, s.diagnostics.guards, rosNow, at, candidates, gid, publishers);
    var enters := StampsEnter(c, s.diagnostics.guards, rosNow, at, candidates, gid, publishers);
    var names, n := CandidateNames(candidates), |candidates|;
    && MessageOnly(s, t)
    && t.counters == MessageCounters(s.counters, n, if fault.Some? then n else 0, fault)
    && GuardsAt(s.diagnostics.guards, t.diagnostics.guards, if enters then names else {}, at)
    && if fault.Some? then
         && t.diagnostics.observations == s.diagnostics.observations - names
         && t.lastHealthObserved == s.lastHealthObserved
         && Called(s.gateHistory.calls, t.gateHistory.calls, fault)
       else
         && EvidenceOf(s.diagnostics.observations, t.diagnostics.observations, candidates, at, now)
         && Evaluated(c, s.gate.state, s.gateHistory, s.lastHealthObserved, t, now)
  }

  /** Everything that a diagnostics callback does. */
  ghost predicate MessageJudged(c: Contract, s: State, t: State, now: int, rosNow: int, m: DiagnosticsMessage, gid: int,
                                publishers: seq<Endpoint>)
  {
    var required := c.input.requiredDiagnostics;
    if exists j :: FirstRepeat(required, m.statuses, j) then
      forall j | FirstRepeat(required, m.statuses, j) ::
        RepeatJudged(s, t, m.statuses[j].name, |Selected(required, m.statuses[..j + 1])|)
    else if Selected(required, m.statuses) == [] then t == s
    else CandidatesJudged(c, s, t, now, rosNow, Nanoseconds(m.stamp), Selected(required, m.statuses), gid, publishers)
  }

  // ----- the stages -----

  lemma RejectedMessage(c: Contract, u: State, count: nat, event: GateEvent)
    requires IsFault(event)
    ensures var t := RejectDiagnostics(c, u, count, event);
            && t == u.(gate := t.gate, gateHistory := t.gateHistory,
                       counters := u.counters.(diagnosticRejected := u.counters.diagnosticRejected + count))
            && t.gateHistory.calls == u.gateHistory.calls + [event]
  {
    hide Apply;
  }

  /** The state in which the candidates are judged: counted, and without their evidence. */
  function Erased(s: State, candidates: seq<Candidate>): State {
    s.(counters := s.counters.(diagnosticReceived := s.counters.diagnosticReceived + |candidates|),
       diagnostics := s.diagnostics.(observations := s.diagnostics.observations - CandidateNames(candidates)))
  }

  lemma NoGuardMoves(guards: map<string, Option<int>>, at: int)
    ensures GuardsAt(guards, guards, {}, at)
  {
  }

  /** A refusal before the guards move. */
  lemma RefusedBefore(c: Contract, s: State, u: State, t: State, now: int, rosNow: int, at: int,
                      candidates: seq<Candidate>, gid: int, publishers: seq<Endpoint>, event: GateEvent)
    requires CandidatesFault(c, s.diagnostics.guards, rosNow, at, candidates, gid, publishers) == Some(event)
    requires !StampsEnter(c, s.diagnostics.guards, rosNow, at, candidates, gid, publishers) && IsFault(event)
    requires u == Erased(s, candidates).(counters := u.counters)
    requires u.counters == MessageCounters(s.counters, |candidates|, 0, Some(event))
    requires t == RejectDiagnostics(c, u, |candidates|, event)
    ensures CandidatesJudged(c, s, t, now, rosNow, at, candidates, gid, publishers)
  {
    hide CandidatesFault;
    hide StampsEnter;
    hide CandidateNames;
    hide GuardsAt;
    hide EvidenceOf;
    hide Evaluated;
    hide RejectDiagnostics;
    RejectedMessage(c, u, |candidates|, event);
    NoGuardMoves(s.diagnostics.guards, at);
  }

  /** A refusal for what a status says, after the guards have moved. */
  lemma RefusedAfter(c: Contract, s: State, u: State, t: State, now: int, rosNow: int, at: int,
                     candidates: seq<Candidate>, gid: int, publishers: seq<Endpoint>, event: GateEvent)
    requires CandidatesFault(c, s.diagnostics.guards, rosNow, at, candidates, gid, publishers) == Some(event)
    requires StampsEnter(c, s.diagnostics.guards, rosNow, at, candidates, gid, publishers) && IsFault(event)
    requires MessageCounters(s.counters, |candidates|, 0, Some(event)) == Erased(s, candidates).counters
    requires u == Erased(s, candidates).(diagnostics := u.diagnostics)
    requires u.diagnostics.observations == s.diagnostics.observations - CandidateNames(candidates)
    requires GuardsAt(s.diagnostics.guards, u.diagnostics.guards, CandidateNames(candidates), at)
    requires t == RejectDiagnostics(c, u, |candidates|, event)
    ensures CandidatesJudged(c, s, t, now, rosNow, at, candidates, gid, publishers)
  {
    hide CandidatesFault;
    hide StampsEnter;
    hide CandidateNames;
    hide GuardsAt;
    hide EvidenceOf;
    hide Evaluated;
    hide RejectDiagnostics;
    RejectedMessage(c, u, |candidates|, event);
  }

  /** New evidence, and an evaluation. */
  lemma StoredJudged(c: Contract, s: State, u: State, t: State, now: int, rosNow: int, at: int,
                     candidates: seq<Candidate>, gid: int, publishers: seq<Endpoint>)
    requires ValidContract(c) && DataInv(c, t)
    requires CandidatesFault(c, s.diagnostics.guards, rosNow, at, candidates, gid, publishers) == None
    requires StampsEnter(c, s.diagnostics.guards, rosNow, at, candidates, gid, publishers)
    requires u == Erased(s, candidates).(diagnostics := u.diagnostics)
    requires GuardsAt(s.diagnostics.guards, u.diagnostics.guards, CandidateNames(candidates), at)
    requires EvidenceOf(s.diagnostics.observations, u.diagnostics.observations, candidates, at, now)
    requires MaybeAdvanceHealth(c, u, now) == Success(t)
    ensures CandidatesJudged(c, s, t, now, rosNow, at, candidates, gid, publishers)
  {
    hide ValidContract;
    hide DataInv;
    hide CandidatesFault;
    hide StampsEnter;
    hide CandidateNames;
    hide GuardsAt;
    hide EvidenceOf;
    hide Evaluated;
    hide MaybeAdvanceHealth;
    EvaluationVerdictAfter(c, u, now);
  }

  // ----- the callback -----

  lemma EventsAreFaults(c: Contract, guards: map<string, Option<int>>, candidates: seq<Candidate>, gid: int, at: int,
                        publishers: seq<Endpoint>)
    ensures SenderFault(candidates, gid, publishers).Some? ==> IsFault(SenderFault(candidates, gid, publishers).value)
    ensures SenderFault(candidates, gid, publishers).Some? ==>
              SenderFault(candidates, gid, publishers).value.reason in
              {DiagnosticSourceNotDiscovered, DiagnosticSourceGidNotUnique, DiagnosticPublisherNotUnique,
               DiagnosticPublisherIdentityMismatch}
  {
    hide Sends;
    hide SharesNode;
    hide Mistrusts;
  }

  lemma {:induction false} EvidenceCodes(candidates: seq<Candidate>)
    ensures EvidenceFault(candidates) in
            {None, Some(MarkTransient(UpstreamDiagnosticIdentityOrLevelMismatch)),
             Some(MarkLatched(UpstreamDiagnosticDuplicateValueKey)),
             Some(MarkTransient(UpstreamDiagnosticValueMismatch))}
  {
    if candidates != [] {
      EvidenceCodes(candidates[1..]);
    }
  }

  /** What happens once the guards accept the stamp. */
  lemma OrderedVerdict(c: Contract, s: State, now: int, rosNow: int, at: int, candidates: seq<Candidate>, gid: int,
                       publishers: seq<Endpoint>)
    requires ValidContract(c) && Sourced(c, s, Erased(s, candidates), candidates)
    requires StampsEnter(c, s.diagnostics.guards, rosNow, at, candidates, gid, publishers)
    requires FirstStampFault(s.diagnostics.guards, candidates, at) == Success(Accept)
    ensures OnOrderedDiagnostics(c, Erased(s, candidates), now, at, candidates).Success?
    ensures CandidatesJudged(c, s, OnOrderedDiagnostics(c, Erased(s, candidates), now, at, candidates).value, now,
                             rosNow, at, candidates, gid, publishers)
  {
    hide ValidContract;
    hide Sourced;
    hide CandidatesJudged;
    hide FirstStampFault;
    hide CommitGuards;
    hide FirstEvidenceError;
    hide StoreEvidence;
    hide CandidateNames;
    hide MaybeAdvanceHealth;
    hide RejectDiagnostics;
    hide Decided;
    hide SenderFault;
    hide SameClock;
    hide OrderFault;
    hide EvidenceFault;
    hide GuardsAt;
    hide EvidenceOf;
    hide DataInv;
    var e := Erased(s, candidates);
    OrderedParts(c, s, e, now, at, candidates);
    EvidenceFaultMeans(candidates);
    EvidenceCodes(candidates);
    var guards := CommitGuards(e.diagnostics.guards, candidates, at).value;
    var u := e.(diagnostics := e.diagnostics.(guards := guards));
    match FirstEvidenceError(candidates)
    case Some(error) =>
      var event := EvidenceFault(candidates).value;
      RefusedAfter(c, s, u, RejectDiagnostics(c, u, |candidates|, event), now, rosNow, at, candidates, gid, publishers,
                   event);
    case None =>
      var stored := StoreEvidence(e.diagnostics.observations, candidates, at, now);
      var v := u.(diagnostics := u.diagnostics.(observations := stored));
      var t := MaybeAdvanceHealth(c, v, now).value;
      DecidedState(c, t, now);
      StoredJudged(c, s, v, t, now, rosNow, at, candidates, gid, publishers);
  }

  lemma DecidedState(c: Contract, t: State, now: int)
    requires Decided(c, t, now)
    ensures DataInv(c, t)
  {
    hide Inv;
    hide HealthReason;
    InvData(c, t);
  }

  /** The parts that the source's loops leave, once the guards accept. */
  lemma OrderedParts(c: Contract, s: State, e: State, now: int, at: int, candidates: seq<Candidate>)
    requires Sourced(c, s, e, candidates) && e == Erased(s, candidates) && at > 0
    requires FirstStampFault(e.diagnostics.guards, candidates, at) == Success(Accept)
    ensures CommitGuards(e.diagnostics.guards, candidates, at).Success?
    ensures GuardsAt(s.diagnostics.guards, CommitGuards(e.diagnostics.guards, candidates, at).value,
                     CandidateNames(candidates), at)
    ensures var u := e.(diagnostics := e.diagnostics.(
                          guards := CommitGuards(e.diagnostics.guards, candidates, at).value));
            var stored := StoreEvidence(e.diagnostics.observations, candidates, at, now);
            var v := u.(diagnostics := u.diagnostics.(observations := stored));
            && EvidenceOf(s.diagnostics.observations, stored, candidates, at, now)
            && (FirstEvidenceError(candidates) == None ==>
                  MaybeAdvanceHealth(c, v, now).Success? && Decided(c, MaybeAdvanceHealth(c, v, now).value, now))
  {
    hide Inv;
    hide Decided;
    hide DiagnosticsInv;
    hide CandidatesOf;
    hide FirstStampFault;
    hide CommitGuards;
    hide FirstEvidenceError;
    hide StoreEvidence;
    hide CandidateNames;
    hide MaybeAdvanceHealth;
    hide RejectDiagnostics;
    EvidenceKeepsInv(c, s, e, now, at, candidates);
    GuardsKnown(c, e.diagnostics);
    StampFaultDefined(c.input.requiredDiagnostics, e.diagnostics.guards, candidates, at);
    CommitGuardsMoves(c.input.requiredDiagnostics, e.diagnostics.guards, candidates, at);
    StoreEvidenceWrites(c.input.requiredDiagnostics, e.diagnostics.observations, candidates, at, now);
  }

  /** What happens to a message whose sender is as expected. */
  lemma SourcedVerdict(c: Contract, s: State, now: int, rosNow: int, stamp: Time, candidates: seq<Candidate>, gid: int,
                       publishers: seq<Endpoint>)
    requires ValidContract(c) && Sourced(c, s, Erased(s, candidates), candidates)
    requires SenderFault(candidates, gid, publishers) == None
    ensures OnSourcedDiagnostics(c, Erased(s, candidates), now, rosNow, stamp, candidates).Success?
    ensures CandidatesJudged(c, s, OnSourcedDiagnostics(c, Erased(s, candidates), now, rosNow, stamp, candidates).value,
                             now, rosNow, Nanoseconds(stamp), candidates, gid, publishers)
  {
    hide ValidContract;
    hide Sourced;
    hide CandidatesJudged;
    hide FirstStampFault;
    hide OnOrderedDiagnostics;
    hide CandidateNames;
    hide RejectDiagnostics;
    hide SenderFault;
    hide SameClock;
    hide ClockDomainMatches;
    hide OrderFault;
    hide EvidenceFault;
    hide StampToNanoseconds;
    hide Nanoseconds;
    var e, n, at := Erased(s, candidates), |candidates|, Nanoseconds(stamp);
    var k := e.counters;
    NanosecondsMeans(stamp);
    SameClockMeans(c, rosNow, at);
    if at <= 0 {
      RefusedBefore(c, s, e, RejectDiagnostics(c, e, n, MarkTransient(UpstreamDiagnosticTimestampInvalid)), now, rosNow,
                    at, candidates, gid, publishers, MarkTransient(UpstreamDiagnosticTimestampInvalid));
    } else if !SameClock(c, rosNow, at) {
      var u := e.(counters := k.(clockDomainMismatch := k.clockDomainMismatch + 1));
      RefusedBefore(c, s, u, RejectDiagnostics(c, u, n, MarkTransient(UpstreamDiagnosticClockDomainMismatch)), now,
                    rosNow, at, candidates, gid, publishers, MarkTransient(UpstreamDiagnosticClockDomainMismatch));
    } else {
      OrderKnown(c, s, e, candidates, at);
      match FirstStampFault(e.diagnostics.guards, candidates, at).value
      case Accept => OrderedVerdict(c, s, now, rosNow, at, candidates, gid, publishers);
      case Duplicate =>
        var u := e.(counters := k.(diagnosticDuplicate := k.diagnosticDuplicate + 1));
        RefusedBefore(c, s, u, RejectDiagnostics(c, u, n, MarkTransient(UpstreamDiagnosticDuplicateTimestamp)), now,
                      rosNow, at, candidates, gid, publishers, MarkTransient(UpstreamDiagnosticDuplicateTimestamp));
      case Nonmonotonic =>
        var u := e.(counters := k.(diagnosticNonmonotonic := k.diagnosticNonmonotonic + 1));
        RefusedBefore(c, s, u, RejectDiagnostics(c, u, n, MarkLatched(UpstreamDiagnosticNonmonotonicTimestamp)), now,
                      rosNow, at, candidates, gid, publishers, MarkLatched(UpstreamDiagnosticNonmonotonicTimestamp));
    }
  }

  lemma OrderKnown(c: Contract, s: State, e: State, candidates: seq<Candidate>, at: int)
    requires Sourced(c, s, e, candidates) && e.diagnostics.guards == s.diagnostics.guards && at > 0
    ensures FirstStampFault(e.diagnostics.guards, candidates, at).Success?
    ensures OrderFault(s.diagnostics.guards, candidates, at) ==
            match FirstStampFault(e.diagnostics.guards, candidates, at).value
            case Accept => None
            case Duplicate => Some(MarkTransient(UpstreamDiagnosticDuplicateTimestamp))
            case Nonmonotonic => Some(MarkLatched(UpstreamDiagnosticNonmonotonicTimestamp))
  {
    hide Inv;
    hide DiagnosticsInv;
    hide CandidatesOf;
    hide CandidateNames;
    hide FirstStampFault;
    hide OrderFault;
    GuardsKnown(c, e.diagnostics);
    OrderFaultMeans(c.input.requiredDiagnostics, e.diagnostics.guards, candidates, at);
  }

  lemma ErasedIsSourced(c: Contract, s: State, candidates: seq<Candidate>)
    requires Inv(c, s) && CandidatesOf(c.input.requiredDiagnostics, candidates)
    ensures Sourced(c, s, Erased(s, candidates), candidates)
  {
    hide Inv;
    hide CandidatesOf;
    hide DiagnosticsInv;
    hide CandidateNames;
    InvHasDiagnostics(c, s);
    EraseKeeps(c, s.diagnostics, CandidateNames(candidates));
  }

  /** A message that names something, and nothing twice. */
  lemma CandidatesVerdict(c: Contract, s: State, now: int, rosNow: int, m: DiagnosticsMessage, gid: int,
                          publishers: seq<Endpoint>)
    requires ValidContract(c) && Inv(c, s)
    requires var found := Collect(c.input.requiredDiagnostics, m.statuses);
             found.duplicate.None? && found.candidates != []
    ensures OnUpstreamDiagnostics(c, s, now, rosNow, m, gid, publishers).Success?
    ensures CandidatesJudged(c, s, OnUpstreamDiagnostics(c, s, now, rosNow, m, gid, publishers).value, now, rosNow,
                             Nanoseconds(m.stamp), Selected(c.input.requiredDiagnostics, m.statuses), gid, publishers)
  {
    hide ValidContract;
    hide Inv;
    hide CandidatesJudged;
    hide Collect;
    hide Selected;
    hide CandidatesOf;
    hide Sourced;
    hide SourceFault;
    hide SenderFault;
    hide OnSourcedDiagnostics;
    hide RejectDiagnostics;
    hide CandidateNames;
    hide Nanoseconds;
    hide OrderFault;
    hide EvidenceFault;
    hide SameClock;
    var candidates := Selected(c.input.requiredDiagnostics, m.statuses);
    CollectSelects(c.input.requiredDiagnostics, m.statuses);
    CollectSound(c.input.requiredDiagnostics, m.statuses);
    SenderFaultMeans(candidates, gid, publishers);
    EventsAreFaults(c, s.diagnostics.guards, candidates, gid, 0, publishers);
    ErasedIsSourced(c, s, candidates);
    match SenderFault(candidates, gid, publishers)
    case Some(event) =>
      RefusedBefore(c, s, Erased(s, candidates), RejectDiagnostics(c, Erased(s, candidates), |candidates|, event), now,
                    rosNow, Nanoseconds(m.stamp), candidates, gid, publishers, event);
    case None => SourcedVerdict(c, s, now, rosNow, m.stamp, candidates, gid, publishers);
  }

  lemma RepeatVerdict(c: Contract, s: State, now: int, rosNow: int, m: DiagnosticsMessage, gid: int,
                      publishers: seq<Endpoint>)
    requires Collect(c.input.requiredDiagnostics, m.statuses).duplicate.Some?
    ensures OnUpstreamDiagnostics(c, s, now, rosNow, m, gid, publishers).Success?
    ensures exists j :: FirstRepeat(c.input.requiredDiagnostics, m.statuses, j)
    ensures forall j | FirstRepeat(c.input.requiredDiagnostics, m.statuses, j) ::
              RepeatJudged(s, OnUpstreamDiagnostics(c, s, now, rosNow, m, gid, publishers).value, m.statuses[j].name,
                           |Selected(c.input.requiredDiagnostics, m.statuses[..j + 1])|)
  {
    var required, found := c.input.requiredDiagnostics, Collect(c.input.requiredDiagnostics, m.statuses);
    var k := CollectStopsAt(required, m.statuses);
    hide FirstRepeat;
    hide Selected;
    hide Collect;
    hide RejectDiagnostics;
    var u := s.(counters := s.counters.(diagnosticReceived := s.counters.diagnosticReceived + found.received),
                diagnostics := s.diagnostics.(observations := s.diagnostics.observations - {found.duplicate.value}));
    RejectedMessage(c, u, 1, MarkLatched(DuplicateRequiredDiagnosticStatus));
    FirstRepeatBounds();
    forall j | FirstRepeat(required, m.statuses, j)
      ensures j == k
    {
      RepeatIsUnique(required, m.statuses, j, k);
    }
  }

  lemma MessageVerdict(c: Contract, s: State, now: int, rosNow: int, m: DiagnosticsMessage, gid: int,
                       publishers: seq<Endpoint>)
    requires ValidContract(c) && Inv(c, s)
    ensures OnUpstreamDiagnostics(c, s, now, rosNow, m, gid, publishers).Success?
    ensures MessageJudged(c, s, OnUpstreamDiagnostics(c, s, now, rosNow, m, gid, publishers).value, now, rosNow, m, gid,
                          publishers)
  {
    hide ValidContract;
    hide Inv;
    hide CandidatesJudged;
    hide RepeatJudged;
    hide Collect;
    hide Selected;
    hide FirstRepeat;
    hide Nanoseconds;
    hide OnUpstreamDiagnostics;
    hide Decided;
    var required := c.input.requiredDiagnostics;
    var found := Collect(required, m.statuses);
    FirstRepeatBounds();
    if found.duplicate.Some? {
      RepeatVerdict(c, s, now, rosNow, m, gid, publishers);
    } else {
      CollectSelects(required, m.statuses);
      NoRepeat(required, m.statuses);
      if found.candidates == [] {
        NothingSelected(c, s, now, rosNow, m, gid, publishers);
      } else {
        CandidatesVerdict(c, s, now, rosNow, m, gid, publishers);
      }
    }
  }

  lemma NoRepeat(required: seq<RequiredDiagnostic>, statuses: seq<DiagnosticStatus>)
    requires Collect(required, statuses).duplicate.None?
    ensures forall j :: !FirstRepeat(required, statuses, j)
  {
    CollectDuplicates(required, statuses);
    hide NamedTwice;
  }

  lemma NothingSelected(c: Contract, s: State, now: int, rosNow: int, m: DiagnosticsMessage, gid: int,
                        publishers: seq<Endpoint>)
    requires var found := Collect(c.input.requiredDiagnostics, m.statuses);
             found.duplicate.None? && found.candidates == []
    ensures OnUpstreamDiagnostics(c, s, now, rosNow, m, gid, publishers) == Success(s)
  {
    CollectSound(c.input.requiredDiagnostics, m.statuses);
    hide Collect;
    hide CandidatesOf;
  }

  /** In every run a diagnostics callback does exactly what MessageJudged says. */
  lemma MessageVerdictsOfRuns(c: Contract, startedAt: int, events: seq<Event>)
    requires ValidContract(c) && events != [] && events[|events| - 1].input.Diagnostics?
    ensures var e := events[|events| - 1];
            MessageJudged(c, StateAfter(c, startedAt, events[..|events| - 1]), StateAfter(c, startedAt, events), e.now,
                          e.rosNow, e.input.message, e.input.publisherGid, e.input.publishers)
  {
    hide ValidContract;
    hide Inv;
    hide StateAfter;
    hide OnUpstreamDiagnostics;
    hide MessageJudged;
    var e, s := events[|events| - 1], StateAfter(c, startedAt, events[..|events| - 1]);
    StateAfterSnoc(c, startedAt, events);
    MessageVerdict(c, s, e.now, e.rosNow, e.input.message, e.input.publisherGid, e.input.publishers);
  }
}
