/** Validation of one odometry sample on its own (validation.cpp). */
module OdometryValidation {
  import opened Contracts
  import opened Reasons
  import opened Geometry
  import opened RigidTransforms
  import opened Stamps
  import opened HealthGate

  /**
   What the node reads from nav_msgs/msg/Odometry. velocitiesFinite covers both velocities; the covariance
   flags are the verdicts of the positive-semidefiniteness test.
   */
  datatype OdometryMessage = OdometryMessage(
    parentFrame: string,
    childFrame: string,
    stamp: Time,
    position: VectorReading,
    orientation: QuaternionReading,
    velocitiesFinite: bool,
    poseCovarianceValid: bool,
    twistCovarianceValid: bool)
  {
    predicate Finite() {
      position.FiniteVector? && velocitiesFinite
    }
  }

  datatype ValidationIssue = ValidationIssue(code: Reason, latched: bool)

  /** The issues found so far, and one more when a check fails. */
  function Checked(issues: seq<ValidationIssue>, ok: bool, code: Reason, latched: bool): seq<ValidationIssue> {
    if ok then issues else issues + [ValidationIssue(code, latched)]
  }

  function FrameIssues(m: OdometryMessage, parent: string, child: string): seq<ValidationIssue> {
    Checked(Checked([], m.parentFrame == parent, ParentFrameMismatch, true),
            m.childFrame == child, ChildFrameMismatch, true)
  }

  function SampleIssues(m: OdometryMessage, stampNs: int, parent: string, child: string): seq<ValidationIssue> {
    var frames := FrameIssues(m, parent, child);
    var stamped := Checked(frames, stampNs > 0, InvalidTimestamp, false);
    var finite := Checked(stamped, m.Finite(), NonfiniteMeasurement, false);
    var oriented := Checked(finite, Normalizable(m.orientation), InvalidQuaternion, false);
    var posed := Checked(oriented, m.poseCovarianceValid, InvalidPoseCovariance, false);
    Checked(posed, m.twistCovarianceValid, InvalidTwistCovariance, false)
  }

  function ValidatedIssues(m: OdometryMessage, stampNs: int, parent: string, child: string)
    : Result<seq<ValidationIssue>>
  {
    var p :- ValidateFrameId(parent);
    var c :- ValidateFrameId(child);
    Success(SampleIssues(m, stampNs, p, c))
  }

  method ValidateOdometrySample(m: OdometryMessage, stampNs: int, expectedParent: string, expectedChild: string)
    returns (result: Result<seq<ValidationIssue>>)
    ensures result == ValidatedIssues(m, stampNs, expectedParent, expectedChild)
  {
    var parent :- ValidateFrameId(expectedParent);
    var child :- ValidateFrameId(expectedChild);
    var issues := [];
    if m.parentFrame != parent {
      issues := issues + [ValidationIssue(ParentFrameMismatch, true)];
    }
    if m.childFrame != child {
      issues := issues + [ValidationIssue(ChildFrameMismatch, true)];
    }
    if stampNs <= 0 {
      issues := issues + [ValidationIssue(InvalidTimestamp, false)];
    }
    if !m.Finite() {
      issues := issues + [ValidationIssue(NonfiniteMeasurement, false)];
    }
    var quaternion := ValidatedNormalizedQuaternion(m.orientation);
    if quaternion.Failure? {
      issues := issues + [ValidationIssue(InvalidQuaternion, false)];
    }
    if !m.poseCovarianceValid {
      issues := issues + [ValidationIssue(InvalidPoseCovariance, false)];
    }
    if !m.twistCovarianceValid {
      issues := issues + [ValidationIssue(InvalidTwistCovariance, false)];
    }
    return Success(issues);
  }

  /** A sample that nothing is wrong with. */
  predicate SampleValid(m: OdometryMessage, stampNs: int, parent: string, child: string) {
    && m.parentFrame == parent && m.childFrame == child && stampNs > 0 && m.Finite()
    && Normalizable(m.orientation) && m.poseCovarianceValid && m.twistCovarianceValid
  }

  /** The first latching issue decides; without one the first issue does. */
  function IssueEvent(issues: seq<ValidationIssue>): GateEvent
    requires issues != []
  {
    match FirstLatched(issues)
    case Some(issue) => MarkLatched(issue.code)
    case None => MarkTransient(issues[0].code)
  }

  function FirstLatched(issues: seq<ValidationIssue>): Option<ValidationIssue> {
    if issues == [] then None
    else if issues[0].latched then Some(issues[0])
    else FirstLatched(issues[1..])
  }

  /** No issue exactly for valid samples; frame mismatches latch, everything else is transient. */
  lemma SampleVerdict(m: OdometryMessage, stampNs: int, parent: string, child: string)
    ensures var issues := SampleIssues(m, stampNs, parent, child);
            && (issues == [] <==> SampleValid(m, stampNs, parent, child))
            && (issues != [] ==>
                && (IssueEvent(issues).MarkLatched? <==> m.parentFrame != parent || m.childFrame != child)
                && (IssueEvent(issues).MarkLatched? || IssueEvent(issues).MarkTransient?)
                && IssueEvent(issues).reason == issues[0].code)
  {
    hide Normalizable;
    hide Checked;
    var frames := FrameIssues(m, parent, child);
    FrameVerdict(m, parent, child);
    var stamped := Checked(frames, stampNs > 0, InvalidTimestamp, false);
    CheckedTransient(frames, stampNs > 0, InvalidTimestamp);
    var finite := Checked(stamped, m.Finite(), NonfiniteMeasurement, false);
    CheckedTransient(stamped, m.Finite(), NonfiniteMeasurement);
    var oriented := Checked(finite, Normalizable(m.orientation), InvalidQuaternion, false);
    CheckedTransient(finite, Normalizable(m.orientation), InvalidQuaternion);
    var posed := Checked(oriented, m.poseCovarianceValid, InvalidPoseCovariance, false);
    CheckedTransient(oriented, m.poseCovarianceValid, InvalidPoseCovariance);
    CheckedTransient(posed, m.twistCovarianceValid, InvalidTwistCovariance);
    var issues := SampleIssues(m, stampNs, parent, child);
    if AllTransient(issues) {
      NoneLatched(issues);
    }
  }

  lemma CheckedAdds(issues: seq<ValidationIssue>, ok: bool, code: Reason, latched: bool)
    ensures forall i: ValidationIssue ::
              i in Checked(issues, ok, code, latched) <==> i in issues || (!ok && i == ValidationIssue(code, latched))
  {
  }

  /** Every fault of a sample is among the issues, and nothing else is. */
  lemma IssuesExactly(m: OdometryMessage, stampNs: int, parent: string, child: string)
    ensures forall i: ValidationIssue :: i in SampleIssues(m, stampNs, parent, child) <==>
              || (i == ValidationIssue(ParentFrameMismatch, true) && m.parentFrame != parent)
              || (i == ValidationIssue(ChildFrameMismatch, true) && m.childFrame != child)
              || (i == ValidationIssue(InvalidTimestamp, false) && stampNs <= 0)
              || (i == ValidationIssue(NonfiniteMeasurement, false)
                  && (m.position.NonFiniteVector? || !m.velocitiesFinite))
              || (i == ValidationIssue(InvalidQuaternion, false) && !Normalizable(m.orientation))
              || (i == ValidationIssue(InvalidPoseCovariance, false) && !m.poseCovarianceValid)
              || (i == ValidationIssue(InvalidTwistCovariance, false) && !m.twistCovarianceValid)
  {
    hide Normalizable;
    hide Checked;
    var first := Checked([], m.parentFrame == parent, ParentFrameMismatch, true);
    CheckedAdds([], m.parentFrame == parent, ParentFrameMismatch, true);
    CheckedAdds(first, m.childFrame == child, ChildFrameMismatch, true);
    var frames := FrameIssues(m, parent, child);
    CheckedAdds(frames, stampNs > 0, InvalidTimestamp, false);
    var stamped := Checked(frames, stampNs > 0, InvalidTimestamp, false);
    CheckedAdds(stamped, m.Finite(), NonfiniteMeasurement, false);
    var finite := Checked(stamped, m.Finite(), NonfiniteMeasurement, false);
    CheckedAdds(finite, Normalizable(m.orientation), InvalidQuaternion, false);
    var oriented := Checked(finite, Normalizable(m.orientation), InvalidQuaternion, false);
    CheckedAdds(oriented, m.poseCovarianceValid, InvalidPoseCovariance, false);
    var posed := Checked(oriented, m.poseCovarianceValid, InvalidPoseCovariance, false);
    CheckedAdds(posed, m.twistCovarianceValid, InvalidTwistCovariance, false);
  }

  ghost predicate AllTransient(issues: seq<ValidationIssue>) {
    forall i | 0 <= i < |issues| :: !issues[i].latched
  }

  lemma FrameVerdict(m: OdometryMessage, parent: string, child: string)
    ensures var frames := FrameIssues(m, parent, child);
            if m.parentFrame == parent && m.childFrame == child then frames == [] else frames != [] && frames[0].latched
  {
  }

  lemma CheckedTransient(issues: seq<ValidationIssue>, ok: bool, code: Reason)
    ensures var r := Checked(issues, ok, code, false);
            && (r == [] <==> issues == [] && ok)
            && (issues != [] ==> r != [] && r[0] == issues[0])
            && (AllTransient(issues) ==> AllTransient(r))
  {
  }

  lemma {:induction false} NoneLatched(issues: seq<ValidationIssue>)
    requires AllTransient(issues)
    ensures FirstLatched(issues) == None
  {
    if issues != [] {
      NoneLatched(issues[1..]);
    }
  }
}
