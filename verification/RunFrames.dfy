/** How many frames a recovery takes, over every run. */
module RunFrames {
  import opened Contracts
  import opened Reasons
  import opened Stamps
  import opened HealthGate
  import opened ContractConfig
  import opened AdapterState
  import opened AdapterSteps
  import opened AdapterInvariant
  import opened DiagnosticEvidence
  import opened AdapterEffects
  import opened AdapterRuns

  // ----- one callback -----

  lemma StepDecision(c: Contract, s: State, e: Event)
    requires ValidContract(c) && Inv(c, s)
    ensures Step(c, s, e).Success?
    ensures var t := Step(c, s, e).value;
            && OneCall(c, s.gateHistory, s.lastHealthObserved, t)
            && (Deciding(c, e) ==> Settled(s.gateHistory, t))
            && (if e.input.Odometry? then AcceptedStep(s.odometryHistory.accepted, t)
                else t.odometry == s.odometry && t.odometryHistory == s.odometryHistory)
  {
    hide ValidContract;
    hide Inv;
    hide OnOdometry;
    hide OnVisualSlamStatus;
    hide OnUpstreamDiagnostics;
    hide OnDiagnosticTimer;
    hide EvidenceEffect;
    hide OneCall;
    hide Settled;
    hide AcceptedStep;
    hide ClockDomainMatches;
    hide FindRequired;
    match e.input
    case Odometry(m) => OdometryChanges(c, s, e.now, e.rosNow, m);
    case Status(m) => StatusChanges(c, s, e.now, e.rosNow, m);
    case Timer(odometry, status) => TimerChanges(c, s, e.now, odometry, status);
    case Diagnostics(m, gid, publishers) =>
      DiagnosticsChanges(c, s, e.now, e.rosNow, m, gid, publishers);
      if i :| 0 <= i < |m.statuses| && FindRequired(c.input.requiredDiagnostics, m.statuses[i].name).Some? {
        assert m.statuses[i].name in RequiredNamesIn(c.input.requiredDiagnostics, m.statuses);
      }
  }

  /** A newly accepted stamp is later than every observed one. */
  lemma NewStampUnobserved(c: Contract, s: State, t: State)
    requires Inv(c, s) && Inv(c, t) && t.odometry.valid && AcceptedStep(s.odometryHistory.accepted, t)
    ensures t.odometry.stampGuard.Some? && t.odometry.stampGuard != s.lastHealthObserved
  {
    hide WindowInv;
    hide CountersInv;
    hide StatusInv;
    hide DiagnosticsInv;
    hide GateInv;
    hide FaultInv;
    hide MarkedInv;
    hide StepWithin;
    hide CleanWindow;
    var earlier, later := s.odometryHistory.accepted, t.odometryHistory.accepted;
    AcceptedStampsIncrease(c, t);
    assert forall j | 0 <= j < |earlier| :: later[j] == later[..|earlier|][j];
    hide StrictlyIncreasing;
  }

  /** On a gate in or after a transient fault: what a callback that marks no fault adds to the two counts. */
  lemma StepFrames(c: Contract, s: State, e: Event)
    requires ValidContract(c) && Inv(c, s)
    requires Step(c, s, e).Success? && Inv(c, Step(c, s, e).value)
    requires var t := Step(c, s, e).value;
             && !NewFault(s.gateHistory.calls, t.gateHistory.calls)
             && t.gate.state != Starting && t.gate.state != LatchedFault
    ensures var t := Step(c, s, e).value;
            && SameFault(s.gateHistory, t.gateHistory)
            && if Deciding(c, e) then
                 && !Pending(t)
                 && |t.gateHistory.observed| - |s.gateHistory.observed| ==
                    |t.odometryHistory.accepted| - |s.odometryHistory.accepted|
                    + (if Pending(s) && !e.input.Odometry? then 1 else 0)
               else t == s
  {
    hide Inv;
    hide ValidContract;
    hide Step;
    hide Deciding;
    hide Ordinary;
    var t := Step(c, s, e).value;
    StepKeepsInv(c, s, e);
    StepDecision(c, s, e);
    if e.input.Odometry? && t.odometry.valid {
      NewStampUnobserved(c, s, t);
    }
    hide AcceptedStep;
  }

  // ----- the last fault of a run -----

  /** The last callback of the run marked a fault. */
  ghost predicate FaultsLast(c: Contract, startedAt: int, events: seq<Event>)
    requires ValidContract(c) && events != []
  {
    NewFault(StateAfter(c, startedAt, events[..|events| - 1]).gateHistory.calls,
             StateAfter(c, startedAt, events).gateHistory.calls)
  }

  /** How many callbacks it took up to the last fault, with the one that marked it. */
  ghost function LastFault(c: Contract, startedAt: int, events: seq<Event>): (n: nat)
    requires ValidContract(c)
    ensures n <= |events|
  {
    hide ValidContract;
    hide StateAfter;
    if events == [] then 0
    else if FaultsLast(c, startedAt, events) then |events|
    else LastFault(c, startedAt, events[..|events| - 1])
  }

  /** No callback from the given one on decides. */
  ghost predicate NothingDecided(c: Contract, events: seq<Event>, from: nat) {
    forall k | from <= k < |events| :: !Deciding(c, events[k])
  }

  /** The first callback to decide, from the given one on, is one on a status, on diagnostics or of the timer. */
  ghost predicate OtherDecidesFirst(c: Contract, events: seq<Event>, from: nat) {
    exists k | from <= k < |events| ::
      && Deciding(c, events[k]) && !events[k].input.Odometry?
      && forall j | from <= j < k :: !Deciding(c, events[j])
  }

  lemma DecidesFirstSnoc(c: Contract, events: seq<Event>, from: nat)
    requires from < |events|
    ensures var n := |events| - 1;
            && (NothingDecided(c, events, from) <==>
                NothingDecided(c, events[..n], from) && !Deciding(c, events[n]))
            && (OtherDecidesFirst(c, events, from) <==>
                || OtherDecidesFirst(c, events[..n], from)
                || (NothingDecided(c, events[..n], from) && Deciding(c, events[n]) && !events[n].input.Odometry?))
            && !(NothingDecided(c, events[..n], from) && OtherDecidesFirst(c, events[..n], from))
  {
    hide Deciding;
    var n := |events| - 1;
    var before := events[..n];
    assert forall k | from <= k < n :: before[k] == events[k];
    if k :| from <= k < n && Deciding(c, before[k]) && !before[k].input.Odometry?
            && forall j | from <= j < k :: !Deciding(c, before[j]) {
      assert forall j | from <= j < k :: !Deciding(c, events[j]);
    }
  }

  /** Frames accepted since the last fault. */
  function FreshFrames(s: State): int {
    |s.odometryHistory.accepted| - s.gateHistory.faultAccepted
  }

  /** Healthy samples that the gate has counted since the last fault. */
  function Counted(s: State): int {
    |s.gateHistory.observed| - s.gateHistory.faultObserved
  }

  /**
   An older frame counts: one that was accepted before the last fault and still waited to be counted when it was marked,
   after which the first callback to decide was not an odometry callback.
   */
  ghost predicate OlderFrameCounts(c: Contract, startedAt: int, events: seq<Event>)
    requires ValidContract(c)
  {
    hide ValidContract;
    hide StateAfter;
    var fault := LastFault(c, startedAt, events);
    Pending(StateAfter(c, startedAt, events[..fault])) && OtherDecidesFirst(c, events, fault)
  }

  /** A transient fault is on record and no latch. */
  predicate Recoverable(s: State) {
    LastTransient(s.gateHistory.calls).Some? && LastLatch(s.gateHistory.calls).None?
  }

  /** The balance since the last fault, at the end of a run. */
  ghost predicate Balance(c: Contract, startedAt: int, events: seq<Event>)
    requires ValidContract(c)
  {
    hide ValidContract;
    hide StateAfter;
    var fault, t := LastFault(c, startedAt, events), StateAfter(c, startedAt, events);
    var s := StateAfter(c, startedAt, events[..fault]);
    && fault > 0 && FaultsLast(c, startedAt, events[..fault])
    && t.gateHistory.faultAccepted == |s.odometryHistory.accepted|
    && t.gateHistory.faultObserved == |s.gateHistory.observed|
    && t.gateHistory.faultPending == Pending(s)
    && (Pending(t) <==> Pending(s) && NothingDecided(c, events, fault))
    && Counted(t) == FreshFrames(t) + (if OlderFrameCounts(c, startedAt, events) then 1 else 0)
  }

  lemma RecoverableSnoc(s: State, t: State)
    requires Recoverable(t) && !NewFault(s.gateHistory.calls, t.gateHistory.calls)
    requires t.gateHistory.calls == s.gateHistory.calls ||
             (|t.gateHistory.calls| == |s.gateHistory.calls| + 1 &&
              t.gateHistory.calls[..|s.gateHistory.calls|] == s.gateHistory.calls)
    ensures Recoverable(s)
  {
  }

  lemma RecoverableState(c: Contract, s: State)
    requires ValidContract(c) && Inv(c, s) && Recoverable(s)
    ensures s.gate.state != Starting && s.gate.state != LatchedFault
  {
    hide ValidInput;
    hide ValidExtrinsic;
    hide Inv;
    GateReplays(c, s);
    GateClosedForm(c.health.recoveryConsecutiveSamples, s.gateHistory.calls);
    hide LastLatch;
    hide LastTransient;
    hide HealthySinceTransient;
    hide Replay;
  }

  /** A callback that marks a fault starts the balance anew. */
  lemma BalanceAtFault(c: Contract, startedAt: int, events: seq<Event>)
    requires ValidContract(c) && events != [] && FaultsLast(c, startedAt, events)
    ensures Balance(c, startedAt, events)
  {
    hide ValidContract;
    hide Inv;
    hide StateAfter;
    hide Step;
    hide Ordinary;
    hide Pending;
    hide Deciding;
    StateAfterSnoc(c, startedAt, events);
    StepDecision(c, StateAfter(c, startedAt, events[..|events| - 1]), events[|events| - 1]);
    assert events[..|events|] == events;
  }

  /** A callback that marks none keeps it. */
  lemma BalanceKept(c: Contract, startedAt: int, events: seq<Event>)
    requires ValidContract(c) && events != [] && !FaultsLast(c, startedAt, events)
    requires Balance(c, startedAt, events[..|events| - 1]) && Recoverable(StateAfter(c, startedAt, events))
    ensures Balance(c, startedAt, events)
  {
    hide ValidContract;
    hide Inv;
    hide StateAfter;
    hide Step;
    hide Recoverable;
    hide Pending;
    hide Deciding;
    hide NothingDecided;
    hide OtherDecidesFirst;
    hide NewFault;
    var n := |events| - 1;
    var before, s, t := events[..n], StateAfter(c, startedAt, events[..n]), StateAfter(c, startedAt, events);
    StateAfterSnoc(c, startedAt, events);
    RecoverableState(c, t);
    StepFrames(c, s, events[n]);
    var fault := LastFault(c, startedAt, before);
    assert LastFault(c, startedAt, events) == fault;
    assert events[..fault] == before[..fault];
    DecidesFirstSnoc(c, events, fault);
  }

  lemma {:induction false} BalanceHolds(c: Contract, startedAt: int, events: seq<Event>)
    requires ValidContract(c) && Recoverable(StateAfter(c, startedAt, events))
    ensures Balance(c, startedAt, events)
  {
    hide ValidContract;
    hide Inv;
    hide StateAfter;
    hide Step;
    hide Balance;
    hide Ordinary;
    hide CallMade;
    StateInv(c, startedAt, events);
    if events == [] {
      NothingOnRecord(c, startedAt);
    } else if FaultsLast(c, startedAt, events) {
      BalanceAtFault(c, startedAt, events);
    } else {
      var before := events[..|events| - 1];
      StateAfterSnoc(c, startedAt, events);
      StepDecision(c, StateAfter(c, startedAt, before), events[|events| - 1]);
      RecoverableSnoc(StateAfter(c, startedAt, before), StateAfter(c, startedAt, events));
      BalanceHolds(c, startedAt, before);
      BalanceKept(c, startedAt, events);
    }
  }

  lemma NothingOnRecord(c: Contract, startedAt: int)
    ensures !Recoverable(InitialState(c, startedAt))
  {
  }

  // ----- the theorems -----

  /**
   Since the last transient fault the gate has counted every frame accepted since, each once, and possibly one older
   frame: the one that waited when the fault was marked, if a callback on another input, or the timer, decided next.
   */
  lemma FramesSinceFault(c: Contract, startedAt: int, events: seq<Event>)
    requires ValidContract(c) && Recoverable(StateAfter(c, startedAt, events))
    ensures var fault, t := LastFault(c, startedAt, events), StateAfter(c, startedAt, events);
            && fault > 0 && FaultsLast(c, startedAt, events[..fault])
            && FreshFrames(t) == |t.odometryHistory.accepted|
                                 - |StateAfter(c, startedAt, events[..fault]).odometryHistory.accepted|
            && Counted(t) == |t.gateHistory.observed|
                             - |StateAfter(c, startedAt, events[..fault]).gateHistory.observed|
            && Counted(t) == FreshFrames(t) + (if OlderFrameCounts(c, startedAt, events) then 1 else 0)
  {
    hide ValidContract;
    hide StateAfter;
    hide Recoverable;
    hide OlderFrameCounts;
    hide FaultsLast;
    hide LastFault;
    BalanceHolds(c, startedAt, events);
  }

  /**
   So the gate is Healthy again exactly when N frames were accepted since the fault, or N - 1 and an older one counts.
   The second case is the only one in which it is Healthy with fewer than the N frames that are promised.
   */
  lemma RecoveryNeedsFrames(c: Contract, startedAt: int, events: seq<Event>)
    requires ValidContract(c) && Recoverable(StateAfter(c, startedAt, events))
    ensures var t, N := StateAfter(c, startedAt, events), c.health.recoveryConsecutiveSamples;
            && (t.gate.state == Healthy <==>
                  || FreshFrames(t) >= N
                  || (FreshFrames(t) == N - 1 && OlderFrameCounts(c, startedAt, events)))
            && (t.gate.state == Healthy ==>
                  (FreshFrames(t) >= N <==> !(FreshFrames(t) == N - 1 && OlderFrameCounts(c, startedAt, events))))
            && FreshFrames(t) >= 0
  {
    hide ValidInput;
    hide ValidExtrinsic;
    hide StateAfter;
    hide OlderFrameCounts;
    hide LastFault;
    hide Inv;
    FramesSinceFault(c, startedAt, events);
    StateInv(c, startedAt, events);
    var t := StateAfter(c, startedAt, events);
    CountIsHealthySince(c, t);
    GateReplays(c, t);
    GateClosedForm(c.health.recoveryConsecutiveSamples, t.gateHistory.calls);
    hide LastLatch;
    hide LastTransient;
    hide HealthySinceTransient;
    hide Replay;
  }

  lemma CountIsHealthySince(c: Contract, s: State)
    requires Inv(c, s) && LastLatch(s.gateHistory.calls).None?
    ensures Counted(s) == HealthySinceTransient(s.gateHistory.calls)
    ensures FreshFrames(s) >= 0
  {
    hide DataInv;
    hide GateInv;
    hide FaultInv;
    hide MarkedInv;
    hide LastLatch;
    hide LastTransient;
    hide HealthySinceTransient;
  }
}
