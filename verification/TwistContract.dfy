/** Moving a camera twist to the base frame (twist_contract.cpp), over exact reals. */
module TwistContract {
  import opened Contracts
  import opened Geometry
  import opened RigidTransforms

  datatype TemporalModel = UnknownModel | WindowPoseDifference | InstantaneousAtHeaderStamp

  datatype TwistSemantics = TwistSemantics(
    referencePointFrame: Option<string>,
    expressedInFrame: Option<string>,
    temporalModel: TemporalModel,
    approvalId: Option<string>)
  {
    predicate Approved() {
      approvalId.Some? && approvalId.value != ""
    }
  }

  const CUVSLAM_RAW_UNAPPROVED := TwistSemantics(None, None, WindowPoseDifference, None)

  /** The velocity of a point, in the axes of a frame; finite records that all six numbers are. */
  datatype SpatialVelocity = SpatialVelocity(
    linear: Vec3,
    angular: Vec3,
    finite: bool,
    referencePointFrame: string,
    expressedInFrame: string)

  function AngularInBase(twist: SpatialVelocity, base: RigidTransform): Vec3 {
    Rotate(base.rotation, twist.angular)
  }

  function LinearAtBase(twist: SpatialVelocity, base: RigidTransform): Vec3 {
    Add(Rotate(base.rotation, twist.linear), Neg(Cross(AngularInBase(twist, base), base.translation)))
  }

  function InstantaneousCameraTwistToBase(twist: SpatialVelocity, base: RigidTransform, semantics: TwistSemantics)
    : Result<SpatialVelocity>
  {
    var camera := base.child;
    if !semantics.Approved() then Failure(UnapprovedTwistSemantics)
    else if semantics.referencePointFrame.None? || semantics.referencePointFrame.value != camera then
      Failure(UnapprovedTwistSemantics)
    else if semantics.expressedInFrame.None? || semantics.expressedInFrame.value != camera then
      Failure(UnapprovedTwistSemantics)
    else if semantics.temporalModel != InstantaneousAtHeaderStamp then Failure(UnapprovedTwistSemantics)
    else
      var reference :- ValidateFrameId(twist.referencePointFrame);
      if reference != camera then Failure(FrameContractViolation)
      else
        var expressed :- ValidateFrameId(twist.expressedInFrame);
        if expressed != camera then Failure(FrameContractViolation)
        else if !twist.finite then Failure(NumericContractViolation)
        else Success(SpatialVelocity(LinearAtBase(twist, base), AngularInBase(twist, base), true,
                                     base.parent, base.parent))
  }

  /** Semantics that approve an instantaneous twist of the origin of the frame, in its own axes. */
  predicate ApprovesFrame(semantics: TwistSemantics, frame: string) {
    && semantics.Approved()
    && semantics.referencePointFrame == Some(frame)
    && semantics.expressedInFrame == Some(frame)
    && semantics.temporalModel == InstantaneousAtHeaderStamp
  }

  predicate TwistOf(twist: SpatialVelocity, frame: string) {
    twist.referencePointFrame == frame && twist.expressedInFrame == frame && twist.finite
  }

  /** Exactly the approved, matching, finite twists are transported; missing approval is reported first. */
  lemma TransportAccepts(twist: SpatialVelocity, base: RigidTransform, semantics: TwistSemantics)
    ensures InstantaneousCameraTwistToBase(twist, base, semantics).Success? <==>
            ApprovesFrame(semantics, base.child) && TwistOf(twist, base.child)
    ensures InstantaneousCameraTwistToBase(twist, base, semantics) == Failure(UnapprovedTwistSemantics) <==>
            !ApprovesFrame(semantics, base.child)
    ensures InstantaneousCameraTwistToBase(twist, base, CUVSLAM_RAW_UNAPPROVED) == Failure(UnapprovedTwistSemantics)
  {
    hide LinearAtBase;
    hide AngularInBase;
    hide Unit;
  }

  /** In an open chain, transport through T[b,c] and then T[a,b] is transport through their composition. */
  lemma OpenTransportComposes(twist: SpatialVelocity, ab: RigidTransform, bc: RigidTransform,
                          inB: TwistSemantics, inC: TwistSemantics)
    requires ab.child == bc.parent && ab.parent != bc.child
    requires ApprovesFrame(inB, bc.parent) && ApprovesFrame(inC, bc.child) && TwistOf(twist, bc.child)
    ensures Compose(ab, bc).Success?
    ensures InstantaneousCameraTwistToBase(twist, bc, inC).Success?
    ensures InstantaneousCameraTwistToBase(InstantaneousCameraTwistToBase(twist, bc, inC).value, ab, inB) ==
            InstantaneousCameraTwistToBase(twist, Compose(ab, bc).value, inC)
  {
    hide Unit;
    hide LinearAtBase;
    hide AngularInBase;
    hide Compose;
    ComposeResult(ab, bc);
    var ac := Compose(ab, bc).value;
    var b := InstantaneousCameraTwistToBase(twist, bc, inC).value;
    TransportAccepts(b, ab, inB);
    AngularComposes(twist, b, ab, bc, ac);
    LinearComposes(twist, b, ab, bc, ac);
  }

  lemma AngularComposes(twist: SpatialVelocity, b: SpatialVelocity, ab: RigidTransform, bc: RigidTransform,
                        ac: RigidTransform)
    requires b.angular == AngularInBase(twist, bc)
    requires ac.rotation == ChainRotation(ab, bc)
    ensures AngularInBase(b, ab) == AngularInBase(twist, ac)
  {
    hide Rotate;
    hide Mul;
    hide Unit;
    RotateMul(ab.rotation, bc.rotation, twist.angular);
  }

  /** R1(R2 v - w x t2) - R1 w x t1 = R1 R2 v - R1 w x (t1 + R1 t2), with w = R2 omega. */
  lemma LinearComposes(twist: SpatialVelocity, b: SpatialVelocity, ab: RigidTransform, bc: RigidTransform,
                       ac: RigidTransform)
    requires b.linear == LinearAtBase(twist, bc) && b.angular == AngularInBase(twist, bc)
    requires ac.rotation == ChainRotation(ab, bc) && ac.translation == ChainTranslation(ab, bc)
    ensures LinearAtBase(b, ab) == LinearAtBase(twist, ac)
  {
    hide Rotate;
    hide Mul;
    hide Unit;
    hide Cross;
    AngularComposes(twist, b, ab, bc, ac);
    hide AngularInBase;
    var w, W, r := AngularInBase(twist, bc), AngularInBase(b, ab), ab.rotation;
    assert Rotate(r, w) == W by {
      AngularUnfolds(b, ab);
    }
    RotateAdd(r, Rotate(bc.rotation, twist.linear), Neg(Cross(w, bc.translation)));
    RotateNeg(r, Cross(w, bc.translation));
    RotateProducts(r, w, bc.translation);
    RotateMul(r, bc.rotation, twist.linear);
    CrossAdd(W, ab.translation, Rotate(r, bc.translation));
  }

  lemma AngularUnfolds(twist: SpatialVelocity, base: RigidTransform)
    ensures AngularInBase(twist, base) == Rotate(base.rotation, twist.angular)
  {
  }

  /** Two transports are the raw product at work, whether or not the chain closes. */
  lemma TwoTransports(twist: SpatialVelocity, ab: RigidTransform, bc: RigidTransform,
                      inB: TwistSemantics, inC: TwistSemantics)
    requires ab.child == bc.parent
    requires ApprovesFrame(inB, bc.parent) && ApprovesFrame(inC, bc.child) && TwistOf(twist, bc.child)
    ensures InstantaneousCameraTwistToBase(twist, bc, inC).Success?
    ensures var w := Rotate(ChainRotation(ab, bc), twist.angular);
            InstantaneousCameraTwistToBase(InstantaneousCameraTwistToBase(twist, bc, inC).value, ab, inB) ==
            Success(SpatialVelocity(Add(Rotate(ChainRotation(ab, bc), twist.linear),
                                        Neg(Cross(w, ChainTranslation(ab, bc)))), w, true, ab.parent, ab.parent))
  {
    hide Rotate;
    hide Mul;
    hide Unit;
    hide Cross;
    hide Add;
    hide Neg;
    var b := InstantaneousCameraTwistToBase(twist, bc, inC).value;
    TransportAccepts(b, ab, inB);
    var r, q := ab.rotation, bc.rotation;
    var w := Rotate(q, twist.angular);
    RotateMul(r, q, twist.angular);
    RotateMul(r, q, twist.linear);
    RotateAdd(r, Rotate(q, twist.linear), Neg(Cross(w, bc.translation)));
    RotateNeg(r, Cross(w, bc.translation));
    RotateProducts(r, w, bc.translation);
    CrossDistributes(Rotate(r, Rotate(q, twist.linear)), Rotate(r, w), ab.translation, Rotate(r, bc.translation));
  }

  lemma CrossDistributes(v: Vec3, w: Vec3, t: Vec3, u: Vec3)
    ensures Add(Add(v, Neg(Cross(w, u))), Neg(Cross(w, t))) == Add(v, Neg(Cross(w, Add(t, u))))
  {
    CrossAdd(w, t, u);
    hide Cross;
  }

  /** A raw product of transforms leaves a twist alone. */
  predicate TwistStays(translation: Vec3, rotation: Quat, linear: Vec3, angular: Vec3) {
    && Rotate(rotation, angular) == angular
    && Add(Rotate(rotation, linear), Neg(Cross(Rotate(rotation, angular), translation))) == linear
  }

  lemma TwistStaysUnmoved(rotation: Quat, linear: Vec3, angular: Vec3)
    requires rotation == ONE || rotation == QuatNeg(ONE)
    ensures TwistStays(ZERO, rotation, linear, angular)
  {
    hide Rotate;
    RotateOne(linear);
    RotateOne(angular);
    RotateQuatNeg(ONE, linear);
    RotateQuatNeg(ONE, angular);
    hide QuatNeg;
    CrossZero(angular);
    hide Cross;
  }

  lemma TwistStaysMeans(translation: Vec3, rotation: Quat)
    requires Unit(rotation)
    requires TwistStays(translation, rotation, ZERO, Vec3(1.0, 0.0, 0.0))
    requires TwistStays(translation, rotation, ZERO, Vec3(0.0, 1.0, 0.0))
    ensures translation == ZERO && (rotation == ONE || rotation == QuatNeg(ONE))
  {
    hide Rotate;
    hide Unit;
    hide QuatNeg;
    hide Cross;
    hide Add;
    hide Neg;
    FixesAxes(rotation);
    RotateZero(rotation);
    CrossAxes(translation);
  }

  /** It leaves every twist alone exactly when it moves nothing. */
  lemma TwistsUnmoved(translation: Vec3, rotation: Quat)
    requires Unit(rotation)
    ensures (forall linear, angular :: TwistStays(translation, rotation, linear, angular)) <==>
            translation == ZERO && (rotation == ONE || rotation == QuatNeg(ONE))
  {
    hide Unit;
    hide QuatNeg;
    hide TwistStays;
    if translation == ZERO && (rotation == ONE || rotation == QuatNeg(ONE)) {
      forall linear, angular ensures TwistStays(translation, rotation, linear, angular) {
        TwistStaysUnmoved(rotation, linear, angular);
      }
    } else if forall linear, angular :: TwistStays(translation, rotation, linear, angular) {
      TwistStaysMeans(translation, rotation);
      assert false;
    }
  }

  lemma CrossAxes(t: Vec3)
    requires Add(ZERO, Neg(Cross(Vec3(1.0, 0.0, 0.0), t))) == ZERO
    requires Add(ZERO, Neg(Cross(Vec3(0.0, 1.0, 0.0), t))) == ZERO
    ensures t == ZERO
  {
  }

  /**
   Transport through T[b,c] and then T[a,b] is, for all twists, transport through their composition, except that a
   chain that closes needs a raw product that moves nothing.
   */
  lemma TransportComposes(ab: RigidTransform, bc: RigidTransform, inB: TwistSemantics, inC: TwistSemantics)
    requires Compose(ab, bc).Success?
    requires ApprovesFrame(inB, bc.parent) && ApprovesFrame(inC, bc.child)
    ensures (forall twist: SpatialVelocity | TwistOf(twist, bc.child) ::
               && InstantaneousCameraTwistToBase(twist, bc, inC).Success?
               && InstantaneousCameraTwistToBase(InstantaneousCameraTwistToBase(twist, bc, inC).value, ab, inB) ==
                  InstantaneousCameraTwistToBase(twist, Compose(ab, bc).value, inC))
            <==> ab.parent != bc.child || ActsAsIdentity(ab, bc)
  {
    hide Unit;
    hide Compose;
    hide ActsAsIdentity;
    hide InstantaneousCameraTwistToBase;
    ComposeResult(ab, bc);
    if ab.parent != bc.child {
      forall twist: SpatialVelocity | TwistOf(twist, bc.child)
        ensures InstantaneousCameraTwistToBase(twist, bc, inC).Success?
        ensures InstantaneousCameraTwistToBase(InstantaneousCameraTwistToBase(twist, bc, inC).value, ab, inB) ==
                InstantaneousCameraTwistToBase(twist, Compose(ab, bc).value, inC)
      {
        TransportAccepts(twist, bc, inC);
        OpenTransportComposes(twist, ab, bc, inB, inC);
      }
    } else {
      ClosedTransport(ab, bc, inB, inC);
    }
  }

  /** Transport through a closed chain does nothing; transport through its two halves is the raw product at work. */
  lemma ClosedTransportOf(twist: SpatialVelocity, ab: RigidTransform, bc: RigidTransform,
                          inB: TwistSemantics, inC: TwistSemantics)
    requires Compose(ab, bc).Success? && ab.parent == bc.child && TwistOf(twist, bc.child)
    requires ApprovesFrame(inB, bc.parent) && ApprovesFrame(inC, bc.child)
    ensures InstantaneousCameraTwistToBase(twist, bc, inC).Success?
    ensures InstantaneousCameraTwistToBase(InstantaneousCameraTwistToBase(twist, bc, inC).value, ab, inB) ==
            InstantaneousCameraTwistToBase(twist, Compose(ab, bc).value, inC) <==>
            TwistStays(ChainTranslation(ab, bc), ChainRotation(ab, bc), twist.linear, twist.angular)
  {
    hide Unit;
    hide Compose;
    hide Rotate;
    hide Mul;
    hide Cross;
    hide Add;
    hide Neg;
    hide Closes;
    hide ChainTranslation;
    hide ValidFrameId;
    ComposeResult(ab, bc);
    TwoTransports(twist, ab, bc, inB, inC);
    TransportAccepts(twist, Compose(ab, bc).value, inC);
    IdentityTransport(twist, Compose(ab, bc).value);
    hide ChainRotation;
  }

  lemma ClosedTransport(ab: RigidTransform, bc: RigidTransform, inB: TwistSemantics, inC: TwistSemantics)
    requires Compose(ab, bc).Success? && ab.parent == bc.child
    requires ApprovesFrame(inB, bc.parent) && ApprovesFrame(inC, bc.child)
    ensures (forall twist: SpatialVelocity | TwistOf(twist, bc.child) ::
               && InstantaneousCameraTwistToBase(twist, bc, inC).Success?
               && InstantaneousCameraTwistToBase(InstantaneousCameraTwistToBase(twist, bc, inC).value, ab, inB) ==
                  InstantaneousCameraTwistToBase(twist, Compose(ab, bc).value, inC))
            <==> ActsAsIdentity(ab, bc)
  {
    hide Compose;
    hide TwistStays;
    hide Mul;
    hide QuatNeg;
    hide ChainTranslation;
    hide InstantaneousCameraTwistToBase;
    hide ApprovesFrame;
    UnitMul(ab.rotation, bc.rotation);
    var T, R := ChainTranslation(ab, bc), ChainRotation(ab, bc);
    TwistsUnmoved(T, R);
    hide Unit;
    hide ChainRotation;
    forall twist: SpatialVelocity | TwistOf(twist, bc.child)
      ensures InstantaneousCameraTwistToBase(twist, bc, inC).Success?
      ensures InstantaneousCameraTwistToBase(InstantaneousCameraTwistToBase(twist, bc, inC).value, ab, inB) ==
              InstantaneousCameraTwistToBase(twist, Compose(ab, bc).value, inC) <==>
              TwistStays(T, R, twist.linear, twist.angular)
    {
      ClosedTransportOf(twist, ab, bc, inB, inC);
    }
    if forall twist: SpatialVelocity | TwistOf(twist, bc.child) ::
        && InstantaneousCameraTwistToBase(twist, bc, inC).Success?
        && InstantaneousCameraTwistToBase(InstantaneousCameraTwistToBase(twist, bc, inC).value, ab, inB) ==
           InstantaneousCameraTwistToBase(twist, Compose(ab, bc).value, inC) {
      forall linear, angular ensures TwistStays(T, R, linear, angular) {
        assert TwistOf(SpatialVelocity(linear, angular, true, bc.child, bc.child), bc.child);
      }
    }
  }

  /** Transport through the inverse undoes transport. */
  lemma TransportInverse(twist: SpatialVelocity, base: RigidTransform,
                         inChild: TwistSemantics, inParent: TwistSemantics)
    requires ApprovesFrame(inChild, base.child) && ApprovesFrame(inParent, base.parent)
    requires TwistOf(twist, base.child)
    ensures InstantaneousCameraTwistToBase(twist, base, inChild).Success?
    ensures InstantaneousCameraTwistToBase(InstantaneousCameraTwistToBase(twist, base, inChild).value,
                                           Inverse(base), inParent) == Success(twist)
  {
    hide Unit;
    hide LinearAtBase;
    hide AngularInBase;
    hide Inverse;
    var b := InstantaneousCameraTwistToBase(twist, base, inChild).value;
    var i := Inverse(base);
    InverseFrames(base);
    TransportAccepts(b, i, inParent);
    if base.parent == base.child {
      IdentityTransport(twist, base);
      IdentityTransport(b, i);
    } else {
      ExtrinsicCancelsInverse(base);
      // The chain T[child,parent] T[parent,child] is exactly the identity, through which nothing changes.
      var id := Identity(base.child).value;
      InverseComposes(base);
      AngularComposes(twist, b, i, base, id);
      LinearComposes(twist, b, i, base, id);
      IdentityTransport(twist, id);
    }
  }

  lemma InverseFrames(t: RigidTransform)
    ensures Inverse(t).parent == t.child && Inverse(t).child == t.parent
  {
    hide Unit;
    hide Rotate;
  }

  lemma ExtrinsicCancelsInverse(t: RigidTransform)
    requires t.parent != t.child
    ensures ChainTranslation(Inverse(t), t) == ZERO && ChainRotation(Inverse(t), t) == ONE
  {
    hide *;
    ExtrinsicCancels(t);
  }

  lemma IdentityTransport(twist: SpatialVelocity, id: RigidTransform)
    requires id.parent == id.child
    ensures LinearAtBase(twist, id) == twist.linear && AngularInBase(twist, id) == twist.angular
  {
    hide Rotate;
    RotateOne(twist.linear);
    RotateOne(twist.angular);
    CrossZero(twist.angular);
    hide Cross;
  }

  lemma CrossZero(a: Vec3)
    ensures Cross(a, ZERO) == ZERO
  {
  }

  /** The velocity of the point p of a body that moves with the twist. */
  function VelocityAt(linear: Vec3, angular: Vec3, p: Vec3): Vec3 {
    Add(linear, Cross(angular, p))
  }

  /** Both twists describe one motion: every point has the same velocity, in the axes of the child and of the parent. */
  lemma TransportIsOneMotion(twist: SpatialVelocity, base: RigidTransform, semantics: TwistSemantics, p: Vec3)
    requires ApprovesFrame(semantics, base.child) && TwistOf(twist, base.child)
    ensures InstantaneousCameraTwistToBase(twist, base, semantics).Success?
    ensures var b := InstantaneousCameraTwistToBase(twist, base, semantics).value;
            VelocityAt(b.linear, b.angular, ApplyPoint(base, p)) ==
            Rotate(base.rotation, VelocityAt(twist.linear, twist.angular, p))
  {
    hide Unit;
    hide Rotate;
    hide Cross;
    hide Add;
    hide Neg;
    var r, w := base.rotation, AngularInBase(twist, base);
    RotateAdd(r, twist.linear, Cross(twist.angular, p));
    RotateProducts(r, twist.angular, p);
    CrossAdd(w, base.translation, Rotate(r, p));
    LeverArmCancels(Rotate(r, twist.linear), Cross(w, base.translation), Cross(w, Rotate(r, p)));
  }

  lemma LeverArmCancels(a: Vec3, b: Vec3, c: Vec3)
    ensures Add(Add(a, Neg(b)), Add(b, c)) == Add(a, c)
  {
  }

  /** A twist keeps its turn rate and its pitch omega . v, wherever it is measured. */
  lemma TransportInvariants(twist: SpatialVelocity, base: RigidTransform, semantics: TwistSemantics)
    requires ApprovesFrame(semantics, base.child) && TwistOf(twist, base.child)
    ensures InstantaneousCameraTwistToBase(twist, base, semantics).Success?
    ensures var b := InstantaneousCameraTwistToBase(twist, base, semantics).value;
            && NormSquared(b.angular) == NormSquared(twist.angular)
            && Dot(b.angular, b.linear) == Dot(twist.angular, twist.linear)
            && TwistOf(b, base.parent)
  {
    hide Unit;
    hide Rotate;
    hide Cross;
    hide Dot;
    hide NormSquared;
    hide Add;
    hide Neg;
    RotateNorm(base.rotation, twist.angular);
    RotateProducts(base.rotation, twist.angular, twist.linear);
    var w := AngularInBase(twist, base);
    DotSkipsCross(w, Rotate(base.rotation, twist.linear), base.translation);
  }

  /** a . (b - a x c) = a . b, since a x c is orthogonal to a. */
  lemma DotSkipsCross(a: Vec3, b: Vec3, c: Vec3)
    ensures Dot(a, Add(b, Neg(Cross(a, c)))) == Dot(a, b)
  {
    var x := Cross(a, c);
    CrossOrthogonal(a, c);
    TimesVecAdd(a.x, b, Neg(x)); TimesVecAdd(a.y, b, Neg(x)); TimesVecAdd(a.z, b, Neg(x));
    TimesNeg(a.x, x.x, -x.x); TimesNeg(a.y, x.y, -x.y); TimesNeg(a.z, x.z, -x.z);
    VecDotParts(a, Add(b, Neg(x)));
    VecDotParts(a, b);
    VecDotParts(a, x);
    hide Cross;
    hide Times;
    hide Dot;
  }

  lemma CrossOrthogonal(a: Vec3, c: Vec3)
    ensures Dot(a, Cross(a, c)) == 0.0
  {
    hide *;
    var x := Cross(a, c);
    CrossParts(a, c);
    VecDotParts(a, x);
    DifferenceTimes2(a.x, x.x, a.y, c.z, a.z, c.y);
    DifferenceTimes2(a.y, x.y, a.z, c.x, a.x, c.z);
    DifferenceTimes2(a.z, x.z, a.x, c.y, a.y, c.x);
    Times3Swap(a.x, a.y, c.z);
    Times3Swap(a.x, a.z, c.y);
    Times3Swap(a.y, a.z, c.x);
  }

  lemma DifferenceTimes2(k: real, m: real, a: real, e: real, b: real, f: real)
    requires m == Times(a, e) - Times(b, f)
    ensures Times(k, m) == Times3(k, a, e) - Times3(k, b, f)
  {
    Distribute(m, a * e, -(b * f), 0.0, 0.0, k);
  }

  lemma Times3Swap(a: real, b: real, c: real)
    ensures Times3(a, b, c) == Times3(b, a, c)
  {
  }
}
