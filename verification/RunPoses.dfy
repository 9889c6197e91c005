/** What the jump check on camera poses guarantees about the camera and about the shadow base pose, over every run. */
module RunPoses {
  import opened Contracts
  import opened Geometry
  import opened RigidTransforms
  import opened Stamps
  import opened ContractConfig
  import opened AdapterState
  import opened AdapterSteps
  import opened AdapterInvariant
  import opened AdapterRuns

  /** The accepted poses are camera poses, each within one step of the one before. */
  ghost predicate SmallSteps(c: Contract, poses: seq<Accepted>) {
    && (forall i | 0 <= i < |poses| :: IsCameraPose(poses[i].pose))
    && (forall i | 0 < i < |poses| :: StepWithin(c, poses[i - 1].pose, poses[i].pose))
  }

  lemma AcceptedSmallSteps(c: Contract, s: State)
    requires Inv(c, s)
    ensures SmallSteps(c, s.odometryHistory.accepted)
  {
    hide WindowInv;
    hide CountersInv;
    hide StatusInv;
    hide DiagnosticsInv;
    hide GateInv;
    hide ObservedInv;
    hide FaultInv;
    hide MarkedInv;
    hide CleanWindow;
    hide StepWithin;
    hide IsCameraPose;
    var accepted := s.odometryHistory.accepted;
    assert forall i | 0 <= i < |accepted| :: AcceptedSampleInv(c, s.odometryHistory.committed, accepted[i]);
  }

  function Displacement(from: RigidTransform, to: RigidTransform): Vec3 {
    Sub(to.translation, from.translation)
  }

  lemma DisplacementsAdd(a: RigidTransform, b: RigidTransform, c: RigidTransform)
    ensures Displacement(a, c) == Add(Displacement(a, b), Displacement(b, c))
  {
  }

  /** One accepted step is no longer than the contract allows. */
  lemma StepLength(c: Contract, previous: RigidTransform, pose: RigidTransform)
    requires StepWithin(c, previous, pose)
    ensures NormSquared(Displacement(previous, pose)) <= c.health.maximumPositionStepM * c.health.maximumPositionStepM
  {
    hide NormSquared;
    hide MeasurePoseStep;
    hide TurnsFurther;
    StepMeasures(previous, pose, 0.0);
  }

  /** Nor does it turn further. */
  lemma StepTurn(c: Contract, previous: RigidTransform, pose: RigidTransform)
    requires StepWithin(c, previous, pose) && c.health.maximumRotationStepHalfCosine >= 0.0
    ensures !TurnsFurther(previous.rotation, pose.rotation, c.health.maximumRotationStepHalfCosine)
  {
    hide NormSquared;
    hide MeasurePoseStep;
    hide TurnsFurther;
    StepMeasures(previous, pose, c.health.maximumRotationStepHalfCosine);
  }

  lemma SamePlace(a: RigidTransform)
    ensures NormSquared(Displacement(a, a)) <= 0.0
  {
  }

  lemma NextMultiple(k: nat, m: real)
    ensures (k + 1) as real * m == k as real * m + m
    ensures m >= 0.0 ==> k as real * m >= 0.0
  {
  }

  /** After k steps the camera is within k steps' length of where it was. */
  lemma {:induction false} CameraDisplacement(c: Contract, poses: seq<Accepted>, i: nat, j: nat)
    requires c.health.maximumPositionStepM >= 0.0
    requires SmallSteps(c, poses) && i <= j < |poses|
    ensures var reach := (j - i) as real * c.health.maximumPositionStepM;
            reach >= 0.0 && NormSquared(Displacement(poses[i].pose, poses[j].pose)) <= reach * reach
  {
    hide NormSquared;
    hide StepWithin;
    hide Displacement;
    hide Add;
    hide IsCameraPose;
    var m := c.health.maximumPositionStepM;
    if i == j {
      SamePlace(poses[i].pose);
    } else {
      var k := j - 1 - i;
      CameraDisplacement(c, poses, i, j - 1);
      StepLength(c, poses[j - 1].pose, poses[j].pose);
      DisplacementsAdd(poses[i].pose, poses[j - 1].pose, poses[j].pose);
      NextMultiple(k, m);
      TriangleInequality(Displacement(poses[i].pose, poses[j - 1].pose),
                         Displacement(poses[j - 1].pose, poses[j].pose), k as real * m, m);
    }
  }

  /** The shadow base pose of an accepted sample. */
  function BasePose(c: Contract, pose: RigidTransform): Result<RigidTransform>
    requires c.extrinsic.IsApproved()
  {
    CameraPoseToBasePose(pose, c.extrinsic.transform.value)
  }

  /** The base stays within the camera's reach plus two lever arms; armLength bounds the length of the lever arm. */
  lemma BaseDisplacement(c: Contract, poses: seq<Accepted>, i: nat, j: nat, armLength: real)
    requires ValidContract(c) && c.extrinsic.IsApproved()
    requires SmallSteps(c, poses) && i <= j < |poses|
    requires armLength >= 0.0
    requires NormSquared(c.extrinsic.transform.value.translation) <= armLength * armLength
    ensures BasePose(c, poses[i].pose).Success? && BasePose(c, poses[j].pose).Success?
    ensures var reach := (j - i) as real * c.health.maximumPositionStepM + 2.0 * armLength;
            NormSquared(Displacement(BasePose(c, poses[i].pose).value, BasePose(c, poses[j].pose).value))
            <= reach * reach
  {
    hide NormSquared;
    hide StepWithin;
    hide Displacement;
    hide Add;
    hide IsCameraPose;
    hide ValidInput;
    hide CameraPoseToBasePose;
    var reach := (j - i) as real * c.health.maximumPositionStepM;
    var first, last := poses[i].pose, poses[j].pose;
    ArmLengths(c, first, armLength);
    ArmLengths(c, last, armLength);
    CameraDisplacement(c, poses, i, j);
    var base0, base1 := BasePose(c, first).value, BasePose(c, last).value;
    DisplacementsAdd(base0, first, last);
    DisplacementsAdd(base0, last, base1);
    TriangleInequality(Displacement(base0, first), Displacement(first, last), armLength, reach);
    TriangleInequality(Displacement(base0, last), Displacement(last, base1), armLength + reach, armLength);
  }

  /** From the camera to the base and back is one lever arm. */
  lemma ArmLengths(c: Contract, pose: RigidTransform, armLength: real)
    requires ValidContract(c) && c.extrinsic.IsApproved() && IsCameraPose(pose)
    requires NormSquared(c.extrinsic.transform.value.translation) <= armLength * armLength
    ensures BasePose(c, pose).Success?
    ensures NormSquared(Displacement(pose, BasePose(c, pose).value)) <= armLength * armLength
    ensures NormSquared(Displacement(BasePose(c, pose).value, pose)) <= armLength * armLength
  {
    hide NormSquared;
    hide ValidInput;
    hide ValidHealth;
    hide CameraPoseToBasePose;
    LeverArm(pose, c.extrinsic.transform.value);
    var base := BasePose(c, pose).value;
    NormNeg(Displacement(pose, base));
    assert Neg(Displacement(pose, base)) == Displacement(base, pose);
  }

  /** Consecutive shadow base poses turn exactly as the camera poses do, so within the same limit. */
  lemma BaseTurn(c: Contract, poses: seq<Accepted>, i: nat)
    requires ValidContract(c) && c.extrinsic.IsApproved()
    requires SmallSteps(c, poses) && 0 < i < |poses|
    ensures BasePose(c, poses[i - 1].pose).Success? && BasePose(c, poses[i].pose).Success?
    ensures var before, after := BasePose(c, poses[i - 1].pose).value.rotation,
                                 BasePose(c, poses[i].pose).value.rotation;
            && !TurnsFurther(before, after, c.health.maximumRotationStepHalfCosine)
            && forall half | half >= 0.0 ::
                 TurnsFurther(before, after, half) <==>
                 TurnsFurther(poses[i - 1].pose.rotation, poses[i].pose.rotation, half)
  {
    hide NormSquared;
    hide TurnsFurther;
    hide StepWithin;
    hide ValidInput;
    hide ValidExtrinsic;
    hide BasePose;
    StepTurn(c, poses[i - 1].pose, poses[i].pose);
    TurnsAlike(c, poses[i - 1].pose, poses[i].pose);
  }

  /**
   Over every run: from the i-th to the j-th accepted sample the camera moves at most j - i position steps and the
   shadow base pose at most two lever arms more; both turn alike, and between neighbours within the configured limit.
   */
  lemma JumpCheckBoundsPoses(c: Contract, startedAt: int, events: seq<Event>, i: nat, j: nat, armLength: real)
    requires ValidContract(c)
    requires i <= j < |StateAfter(c, startedAt, events).odometryHistory.accepted|
    requires c.extrinsic.IsApproved() ==>
               armLength >= 0.0 && NormSquared(c.extrinsic.transform.value.translation) <= armLength * armLength
    ensures var poses, reach := StateAfter(c, startedAt, events).odometryHistory.accepted,
                                (j - i) as real * c.health.maximumPositionStepM;
            var first, last := poses[i].pose, poses[j].pose;
            && NormSquared(Displacement(first, last)) <= reach * reach
            && (j == i + 1 ==>
                  !TurnsFurther(first.rotation, last.rotation, c.health.maximumRotationStepHalfCosine))
            && (c.extrinsic.IsApproved() ==>
                && BasePose(c, first).Success? && BasePose(c, last).Success?
                && NormSquared(Displacement(BasePose(c, first).value, BasePose(c, last).value))
                   <= (reach + 2.0 * armLength) * (reach + 2.0 * armLength)
                && forall half | half >= 0.0 ::
                     TurnsFurther(BasePose(c, first).value.rotation, BasePose(c, last).value.rotation, half) <==>
                     TurnsFurther(first.rotation, last.rotation, half))
  {
    hide Inv;
    hide Run;
    hide ValidInput;
    hide ValidExtrinsic;
    hide NormSquared;
    hide Displacement;
    hide TurnsFurther;
    hide BasePose;
    hide StateAfter;
    hide StepWithin;
    StateInv(c, startedAt, events);
    var s := StateAfter(c, startedAt, events);
    AcceptedSmallSteps(c, s);
    var first, last := s.odometryHistory.accepted[i].pose, s.odometryHistory.accepted[j].pose;
    if j == i + 1 {
      StepTurn(c, first, last);
    }
    hide SmallSteps;
    CameraDisplacement(c, s.odometryHistory.accepted, i, j);
    if c.extrinsic.IsApproved() {
      BaseDisplacement(c, s.odometryHistory.accepted, i, j, armLength);
      TurnsAlike(c, first, last);
    }
  }

  /** Any two base poses turn as the camera poses they come from. */
  lemma TurnsAlike(c: Contract, first: RigidTransform, last: RigidTransform)
    requires ValidContract(c) && c.extrinsic.IsApproved() && IsCameraPose(first) && IsCameraPose(last)
    ensures BasePose(c, first).Success? && BasePose(c, last).Success?
    ensures forall half | half >= 0.0 ::
              TurnsFurther(BasePose(c, first).value.rotation, BasePose(c, last).value.rotation, half) <==>
              TurnsFurther(first.rotation, last.rotation, half)
  {
    hide ValidInput;
    hide ValidHealth;
    hide CameraPoseToBasePose;
    hide MeasurePoseStep;
    hide TurnsFurther;
    BaseTurnsWithCamera(first, last, c.extrinsic.transform.value);
  }

  /** The published shadow pose is the base pose of the last accepted sample, and with the extrinsic gives it back. */
  lemma ShadowPoseIsBasePose(c: Contract, startedAt: int, events: seq<Event>)
    requires ValidContract(c) && c.extrinsic.IsApproved()
    ensures var s := StateAfter(c, startedAt, events);
            if s.odometryHistory.accepted == [] then s.odometry.shadowPose == None
            else
              && s.odometry.shadowPose.Some?
              && var last := s.odometryHistory.accepted[|s.odometryHistory.accepted| - 1].pose;
                 && s.odometry.inputPose == Some(last)
                 && Compose(s.odometry.shadowPose.value, c.extrinsic.transform.value) == Success(last)
  {
    hide Inv;
    hide Run;
    hide ValidInput;
    hide ValidHealth;
    hide CameraPoseToBasePose;
    hide Compose;
    hide StateAfter;
    StateInv(c, startedAt, events);
    var s := StateAfter(c, startedAt, events);
    ShadowOfLast(c, s);
    if s.odometryHistory.accepted != [] {
      CameraPoseRoundTrip(s.odometryHistory.accepted[|s.odometryHistory.accepted| - 1].pose,
                          c.extrinsic.transform.value);
    }
  }

  lemma ShadowOfLast(c: Contract, s: State)
    requires Inv(c, s) && c.extrinsic.IsApproved()
    ensures if s.odometryHistory.accepted == [] then s.odometry.shadowPose == None
            else
              var last := s.odometryHistory.accepted[|s.odometryHistory.accepted| - 1].pose;
              && IsCameraPose(last) && s.odometry.inputPose == Some(last)
              && s.odometry.shadowPose == ShadowPose(c, last)
  {
    hide WindowInv;
    hide CountersInv;
    hide StatusInv;
    hide DiagnosticsInv;
    hide GateInv;
    hide ObservedInv;
    hide FaultInv;
    hide MarkedInv;
    hide CleanWindow;
    hide StepWithin;
    hide IsCameraPose;
    hide ShadowPose;
    var accepted := s.odometryHistory.accepted;
    if accepted != [] {
      assert AcceptedSampleInv(c, s.odometryHistory.committed, accepted[|accepted| - 1]);
    }
  }
}
