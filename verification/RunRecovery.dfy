/** Quarantine after a timestamp gap, and what recovery from a fault takes, over every run. */
module RunRecovery {
  import opened Contracts
  import opened Reasons
  import opened RigidTransforms
  import opened Stamps
  import opened HealthGate
  import opened ContractConfig
  import opened AdapterState
  import opened AdapterSteps
  import opened AdapterInvariant
  import opened AdapterRuns

  // ----- gap quarantine -----

  /** The committed stamps g - 1 and g are further apart than the contract allows. */
  predicate GapAt(c: Contract, committed: seq<int>, g: nat) {
    0 < g < |committed| && Gap(committed, g) > c.health.maximumOdometryStampGapSec
  }

  /** A gap spoils every window that contains both of its ends. */
  lemma GapSpoilsWindows(c: Contract, committed: seq<int>, g: nat, q: nat)
    requires ValidHealth(c.health) && GapAt(c, committed, g)
    requires g <= q < g + c.health.odometryRateWindowSamples - 1 && q < |committed|
    ensures !CleanWindow(c, WindowAt(c, committed, q))
  {
    var W, limit := c.health.odometryRateWindowSamples, c.health.maximumOdometryStampGapSec;
    var prefix := committed[..q + 1];
    var window := WindowAt(c, committed, q);
    if |prefix| >= W {
      var k := g - (q + 1 - W);
      assert window == prefix[q + 1 - W..];
      assert window[k] == committed[g] && window[k - 1] == committed[g - 1];
      assert Gap(window, k) == Gap(committed, g);
      MaximumGapBounds(window, limit);
    }
    hide MaximumGap;
    hide MeanRate;
  }

  /** So no sample committed in the quarantine is accepted. */
  lemma QuarantineRejects(c: Contract, s: State, g: nat, i: nat)
    requires ValidContract(c) && Inv(c, s)
    requires GapAt(c, s.odometryHistory.committed, g) && i < |s.odometryHistory.accepted|
    ensures s.odometryHistory.accepted[i].index < g ||
            s.odometryHistory.accepted[i].index >= g + c.health.odometryRateWindowSamples - 1
  {
    hide CleanWindow;
    hide GateInv;
    hide ObservedInv;
    hide FaultInv;
    hide MarkedInv;
    hide WindowInv;
    hide StatusInv;
    hide DiagnosticsInv;
    hide StepWithin;
    hide ValidInput;
    hide ValidExtrinsic;
    hide GapAt;
    var a := s.odometryHistory.accepted[i];
    assert AcceptedSampleInv(c, s.odometryHistory.committed, a);
    if g <= a.index < g + c.health.odometryRateWindowSamples - 1 {
      GapSpoilsWindows(c, s.odometryHistory.committed, g, a.index);
    }
  }

  /** The position of a stamp among strictly increasing stamps. */
  ghost predicate StampAt(stamps: seq<int>, from: nat, stampNs: int) {
    exists k | from <= k < |stamps| :: stamps[k] == stampNs
  }

  /** A strictly increasing list drawn from the tail of another is no longer than that tail. */
  lemma {:induction false} IncreasingFits(xs: seq<int>, ys: seq<int>, from: nat)
    requires StrictlyIncreasing(xs) && StrictlyIncreasing(ys)
    requires forall i | 0 <= i < |xs| :: StampAt(ys, from, xs[i])
    requires xs != []
    ensures from + |xs| <= |ys|
    ensures exists k | from + |xs| - 1 <= k < |ys| :: ys[k] == xs[|xs| - 1]
  {
    var n := |xs| - 1;
    assert StampAt(ys, from, xs[n]);
    var k :| from <= k < |ys| && ys[k] == xs[n];
    if n > 0 {
      var before := xs[..n];
      assert forall i | 0 <= i < n :: before[i] == xs[i];
      IncreasingFits(before, ys, from);
      var j :| from + n - 1 <= j < |ys| && ys[j] == before[n - 1];
      assert xs[n - 1] < xs[n];
      if k <= j {
        assert false;
      }
    }
  }

  /** The samples observed since the last fault are committed at or after its last commit. */
  lemma ObservedAfterFault(c: Contract, s: State, i: nat)
    requires Inv(c, s) && s.gateHistory.faultObserved <= i < |s.gateHistory.observed|
    ensures exists j | 0 <= j < |s.odometryHistory.accepted| ::
              && s.odometryHistory.accepted[j].stampNs == s.gateHistory.observed[i]
              && s.odometryHistory.accepted[j].index + 1 >= s.gateHistory.faultCommitted
  {
    hide DataInv;
    hide GateInv;
    hide ObservedInv;
    hide MarkedInv;
    var g, h := s.gateHistory, s.odometryHistory;
    assert AcceptedFrom(h, FirstUsable(g, i), g.observed[i]);
    var j :| FirstUsable(g, i) <= j < |h.accepted| && h.accepted[j].stampNs == g.observed[i];
    if j < g.faultAccepted {
      assert g.faultPending && j == g.faultAccepted - 1;
    }
  }

  /** Once the commit after a gap completes a full window, a fault is on record at or after it. */
  lemma GapLeavesFault(c: Contract, s: State, g: nat)
    requires ValidContract(c) && Inv(c, s)
    requires GapAt(c, s.odometryHistory.committed, g)
    requires |s.odometryHistory.committed| >= c.health.odometryRateWindowSamples
    ensures s.gateHistory.faultCommitted > g
  {
    hide DataInv;
    hide GateInv;
    hide ObservedInv;
    hide FaultInv;
    hide CleanWindow;
    hide ValidInput;
    hide ValidExtrinsic;
    var W := c.health.odometryRateWindowSamples;
    var q := if g < W - 1 then W - 1 else g;
    GapSpoilsWindows(c, s.odometryHistory.committed, g, q);
    hide GapAt;
  }

  /** A Healthy gate with a fault on record has observed N samples since. */
  lemma HealthyCount(c: Contract, s: State)
    requires ValidContract(c) && Inv(c, s) && Trusting(s.gate.state)
    requires s.gateHistory.faultCommitted > 0
    ensures |s.gateHistory.observed| - s.gateHistory.faultObserved >= 1
    ensures s.gate.state == Healthy ==>
            |s.gateHistory.observed| - s.gateHistory.faultObserved >= c.health.recoveryConsecutiveSamples
  {
    hide DataInv;
    hide FaultInv;
    hide MarkedInv;
    hide HealthReason;
    hide Replay;
    hide LastLatch;
    hide LastTransient;
    hide HealthySinceTransient;
    hide StrictlyIncreasing;
    hide AcceptedFrom;
    hide ValidInput;
    hide ValidExtrinsic;
    GateClosedForm(c.health.recoveryConsecutiveSamples, s.gateHistory.calls);
  }

  /** A sample observed since the fault that a gap left lies beyond the quarantine. */
  lemma ObservedStampAt(c: Contract, s: State, g: nat, i: nat)
    requires ValidContract(c) && Inv(c, s)
    requires GapAt(c, s.odometryHistory.committed, g) && s.gateHistory.faultCommitted > g
    requires s.gateHistory.faultObserved <= i < |s.gateHistory.observed|
    ensures StampAt(s.odometryHistory.committed, g + c.health.odometryRateWindowSamples - 1, s.gateHistory.observed[i])
  {
    hide Inv;
    hide ValidInput;
    hide ValidExtrinsic;
    hide GapAt;
    hide StrictlyIncreasing;
    InvParts(c, s);
    ObservedAfterFault(c, s, i);
    var h := s.odometryHistory;
    var j :| 0 <= j < |h.accepted| && h.accepted[j].stampNs == s.gateHistory.observed[i]
             && h.accepted[j].index + 1 >= s.gateHistory.faultCommitted;
    QuarantineRejects(c, s, g, j);
    assert h.committed[h.accepted[j].index] == s.gateHistory.observed[i];
  }

  lemma ObservedBeyondQuarantine(c: Contract, s: State, g: nat)
    requires ValidContract(c) && Inv(c, s)
    requires GapAt(c, s.odometryHistory.committed, g) && s.gateHistory.faultCommitted > g
    requires s.gateHistory.faultObserved < |s.gateHistory.observed|
    ensures |s.gateHistory.observed| - s.gateHistory.faultObserved + g + c.health.odometryRateWindowSamples - 1
            <= |s.odometryHistory.committed|
  {
    hide Inv;
    hide ValidInput;
    hide ValidExtrinsic;
    hide GapAt;
    hide StampAt;
    var from := g + c.health.odometryRateWindowSamples - 1;
    var observed, k := s.gateHistory.observed, s.gateHistory.faultObserved;
    InvParts(c, s);
    forall i | k <= i < |observed|
      ensures StampAt(s.odometryHistory.committed, from, observed[i])
    {
      ObservedStampAt(c, s, g, i);
    }
    TailFits(observed, k, s.odometryHistory.committed, from);
  }

  lemma TailFits(xs: seq<int>, k: nat, ys: seq<int>, from: nat)
    requires StrictlyIncreasing(xs) && StrictlyIncreasing(ys) && k < |xs|
    requires forall i | k <= i < |xs| :: StampAt(ys, from, xs[i])
    ensures |xs| - k + from <= |ys|
  {
    hide StampAt;
    IncreasingFits(xs[k..], ys, from);
  }

  lemma InvParts(c: Contract, s: State)
    requires Inv(c, s)
    ensures StrictlyIncreasing(s.odometryHistory.committed) && StrictlyIncreasing(s.gateHistory.observed)
    ensures s.gateHistory.faultObserved <= |s.gateHistory.observed|
    ensures forall j | 0 <= j < |s.odometryHistory.accepted| ::
              && s.odometryHistory.accepted[j].index < |s.odometryHistory.committed|
              && s.odometryHistory.committed[s.odometryHistory.accepted[j].index] ==
                 s.odometryHistory.accepted[j].stampNs
    ensures Trusting(s.gate.state) ==> |s.odometryHistory.committed| >= c.health.odometryRateWindowSamples
  {
    hide CleanWindow;
    hide MarkedInv;
    hide HealthReason;
    hide Replay;
    hide LastLatch;
    hide LastTransient;
    hide HealthySinceTransient;
    hide AcceptedFrom;
    hide MeanRate;
    hide MaximumGap;
    hide StatusInv;
    hide DiagnosticsInv;
    hide StepWithin;
    if Trusting(s.gate.state) {
      TrustNeedsFullWindow(c, s);
    }
    hide StrictlyIncreasing;
  }

  /**
   If two consecutively committed stamps are too far apart, none of the W - 1 samples committed from the later one on
   is ever accepted, and the gate is neither Healthy before the (W - 1 + N)-th of them nor Recovering before the W-th.
   */
  lemma GapQuarantine(c: Contract, startedAt: int, events: seq<Event>, g: nat)
    requires ValidContract(c)
    requires GapAt(c, StateAfter(c, startedAt, events).odometryHistory.committed, g)
    ensures var s := StateAfter(c, startedAt, events);
            var since, W, N := |s.odometryHistory.committed| - g, c.health.odometryRateWindowSamples,
                               c.health.recoveryConsecutiveSamples;
            && (forall i | 0 <= i < |s.odometryHistory.accepted| ::
                  !(g <= s.odometryHistory.accepted[i].index < g + W - 1))
            && (s.gate.state == Healthy ==> since >= W - 1 + N)
            && (s.gate.state == Recovering ==> since >= W)
  {
    hide ValidContract;
    hide Inv;
    hide Run;
    hide StateAfter;
    StateInv(c, startedAt, events);
    var s := StateAfter(c, startedAt, events);
    forall i | 0 <= i < |s.odometryHistory.accepted|
      ensures s.odometryHistory.accepted[i].index < g ||
              s.odometryHistory.accepted[i].index >= g + c.health.odometryRateWindowSamples - 1
    {
      QuarantineRejects(c, s, g, i);
    }
    if Trusting(s.gate.state) {
      InvParts(c, s);
      GapLeavesFault(c, s, g);
      HealthyCount(c, s);
      ObservedBeyondQuarantine(c, s, g);
    }
    hide GapAt;
    hide StrictlyIncreasing;
  }

  // ----- recovery -----

  /** What a run has observed since the last fault. */
  ghost function FreshObservations(s: State): seq<int>
    requires s.gateHistory.faultObserved <= |s.gateHistory.observed|
  {
    s.gateHistory.observed[s.gateHistory.faultObserved..]
  }

  /**
   After a transient fault the gate counts observations of distinct accepted stamps in strictly increasing order, and
   is Healthy again exactly when there are N of them. All but the first were accepted after the fault; so was the
   first, unless a valid sample was still waiting to be observed when the fault was marked.
   */
  lemma RecoveryObservations(c: Contract, startedAt: int, events: seq<Event>)
    requires ValidContract(c)
    requires LastTransient(StateAfter(c, startedAt, events).gateHistory.calls).Some?
    requires LastLatch(StateAfter(c, startedAt, events).gateHistory.calls).None?
    ensures var s := StateAfter(c, startedAt, events);
            var g, N := s.gateHistory, c.health.recoveryConsecutiveSamples;
            && g.faultObserved <= |g.observed|
            && var recent := FreshObservations(s);
               && StrictlyIncreasing(recent)
               && (s.gate.state == Healthy <==> |recent| >= N)
               && (s.gate.state == Recovering <==> 0 < |recent| < N)
               && (s.gate.state == TransientFault <==> |recent| == 0)
               && s.gate.progress == (if |recent| < N then |recent| else 0)
               && (forall i | 0 <= i < |recent| && (i > 0 || !g.faultPending) ::
                     AcceptedFrom(s.odometryHistory, g.faultAccepted, recent[i]))
  {
    hide ValidInput;
    hide ValidExtrinsic;
    hide Inv;
    hide Run;
    hide StateAfter;
    StateInv(c, startedAt, events);
    var s := StateAfter(c, startedAt, events);
    GateClosedForm(c.health.recoveryConsecutiveSamples, s.gateHistory.calls);
    GateReplays(c, s);
    FreshAccount(c, s);
    hide StrictlyIncreasing;
    hide AcceptedFrom;
    hide LastLatch;
    hide LastTransient;
    hide HealthySinceTransient;
    hide Replay;
  }

  lemma FreshAccount(c: Contract, s: State)
    requires Inv(c, s)
    ensures var g := s.gateHistory;
            && g.faultObserved <= |g.observed|
            && StrictlyIncreasing(FreshObservations(s))
            && (LastLatch(g.calls).None? ==> |FreshObservations(s)| == HealthySinceTransient(g.calls))
            && (forall i | 0 <= i < |FreshObservations(s)| && (i > 0 || !g.faultPending) ::
                  AcceptedFrom(s.odometryHistory, g.faultAccepted, FreshObservations(s)[i]))
  {
    hide DataInv;
    hide GateInv;
    hide MarkedInv;
    hide LastLatch;
    hide LastTransient;
    hide HealthySinceTransient;
    hide AcceptedFrom;
    var g := s.gateHistory;
    var recent := FreshObservations(s);
    assert forall i | 0 <= i < |recent| :: recent[i] == g.observed[g.faultObserved + i];
    forall i | 0 <= i < |recent| && (i > 0 || !g.faultPending)
      ensures AcceptedFrom(s.odometryHistory, g.faultAccepted, recent[i])
    {
      assert FirstUsable(g, g.faultObserved + i) == g.faultAccepted;
    }
  }
}
