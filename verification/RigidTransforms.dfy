/** Rigid transforms between named frames (rigid_transform.cpp) and the pose step (validation.cpp), over exact reals. */
module RigidTransforms {
  import opened Contracts
  import opened Geometry

  const QUATERNION_NORM_TOLERANCE := 0.001
  const QUATERNION_ZERO_TOLERANCE := 0.000000000001

  /** A closed chain may be off by 1e-9 m and by 1e-9 rad. */
  const CLOSED_CHAIN_TRANSLATION := 0.000000001

  /** cos(x/2) for x = 1e-9 rad, by its series; the terms left out are below 3e-39. */
  const CLOSED_CHAIN_HALF_ANGLE_COSINE := 1.0 - 0.000000000000000000125

  // ----- frame names -----

  predicate IsSpace(c: char) {
    c == ' ' || '\t' <= c <= '\r'
  }

  predicate ValidFrameId(frame: string) {
    && frame != ""
    && frame[0] != '/'
    && (forall i | 0 <= i < |frame| :: !IsSpace(frame[i]))
    && (forall i | 0 < i < |frame| :: !(frame[i - 1] == '/' && frame[i] == '/'))
  }

  function ValidateFrameId(frame: string): Result<string> {
    if ValidFrameId(frame) then Success(frame) else Failure(FrameContractViolation)
  }

  // ----- quaternions as read from a message -----

  /** Four doubles. A finite reading carries its norm, the one square root that the code takes of it. */
  datatype Reading = NonFinite | Finite(q: Quat, norm: real)

  type QuaternionReading = r: Reading |
    r.Finite? ==> r.norm >= 0.0 && r.norm * r.norm == QuatDot(r.q, r.q)
    witness NonFinite

  function Normalized(q: Quat, norm: real): Quat
    requires norm != 0.0
  {
    Quat(q.w / norm, q.x / norm, q.y / norm, q.z / norm)
  }

  /** The second quaternion is the first, as many times over. */
  predicate Rescales(n: Quat, norm: real, q: Quat) {
    n.w * norm == q.w && n.x * norm == q.x && n.y * norm == q.y && n.z * norm == q.z
  }

  lemma NormalizedRescales(q: Quat, norm: real)
    requires norm != 0.0
    ensures Rescales(Normalized(q, norm), norm, q)
  {
  }

  predicate Normalizable(r: QuaternionReading) {
    r.Finite? && r.norm > QUATERNION_ZERO_TOLERANCE && Abs(r.norm - 1.0) <= QUATERNION_NORM_TOLERANCE
  }

  function ValidatedNormalizedQuaternion(r: QuaternionReading): (n: Result<Quat>)
    ensures n.Success? <==> Normalizable(r)
    ensures n.Failure? ==> n.error == NumericContractViolation
    ensures n.Success? ==> Unit(n.value) && Rescales(n.value, r.norm, r.q)
  {
    if !r.Finite? then Failure(NumericContractViolation)
    else if r.norm <= QUATERNION_ZERO_TOLERANCE then Failure(NumericContractViolation)
    else if Abs(r.norm - 1.0) > QUATERNION_NORM_TOLERANCE then Failure(NumericContractViolation)
    else
      NormalizedIsUnit(r.q, r.norm);
      NormalizedRescales(r.q, r.norm);
      Success(Normalized(r.q, r.norm))
  }

  lemma QuotientSquare(a: real, n: real, q: real)
    requires n != 0.0 && q == a / n
    ensures a * a == q * q * (n * n)
  {
    assert a == q * n;
    assert (q * n) * (q * n) == q * q * (n * n);
  }

  lemma NormalizedIsUnit(q: Quat, n: real)
    requires n != 0.0 && n * n == QuatDot(q, q)
    ensures Unit(Normalized(q, n))
  {
    var m := n * n;
    NormalizedSquares(q, n, m);
    hide *;
    var u := Normalized(q, n);
    DotParts(q, q);
    DotParts(u, u);
    UnitIff(u);
    TimesSum4(m, Times(u.w, u.w), Times(u.x, u.x), Times(u.y, u.y), Times(u.z, u.z), QuatDot(u, u));
    TimesCancel(QuatDot(u, u), m);
  }

  lemma NormalizedSquares(q: Quat, n: real, m: real)
    requires n != 0.0 && m == n * n
    ensures m > 0.0
    ensures var u := Normalized(q, n);
            && Times(q.w, q.w) == Times(Times(u.w, u.w), m) && Times(q.x, q.x) == Times(Times(u.x, u.x), m)
            && Times(q.y, q.y) == Times(Times(u.y, u.y), m) && Times(q.z, q.z) == Times(Times(u.z, u.z), m)
  {
    SquareZero(n);
    QuotientSquare(q.w, n, q.w / n); QuotientSquare(q.x, n, q.x / n);
    QuotientSquare(q.y, n, q.y / n); QuotientSquare(q.z, n, q.z / n);
  }

  lemma TimesSum4(m: real, a: real, b: real, c: real, d: real, s: real)
    requires s == a + b + c + d
    ensures Times(s, m) == Times(a, m) + Times(b, m) + Times(c, m) + Times(d, m)
  {
    Distribute(s, a, b, c, d, m);
  }

  lemma TimesCancel(s: real, m: real)
    requires m > 0.0 && Times(s, m) == m
    ensures s == 1.0
  {
    if s > 1.0 {
      TimesStrict(m, s, 1.0);
    } else if s < 1.0 {
      TimesStrict(m, 1.0, s);
    }
  }

  /** Over exact reals a product of unit quaternions has norm one and normalizing leaves it alone. */
  lemma UnitReading(q: Quat)
    requires Unit(q)
    ensures 1.0 * 1.0 == QuatDot(q, q)
    ensures ValidatedNormalizedQuaternion(Finite(q, 1.0)) == Success(q)
  {
    hide QuatDot;
    assert Normalized(q, 1.0) == q;
  }

  // ----- transforms -----

  /** T[parent,child]: the pose of the child frame in the parent frame. */
  datatype Transform = Transform(parent: string, child: string, translation: Vec3, rotation: Quat)

  predicate WellFormed(t: Transform) {
    && ValidFrameId(t.parent)
    && ValidFrameId(t.child)
    && Unit(t.rotation)
    && (t.parent == t.child ==> t.translation == ZERO && t.rotation == ONE)
  }

  /** Every value that the class can build: a frame relates to itself by the identity only. */
  type RigidTransform = t: Transform | WellFormed(t)
    witness (FrameWitness(); Transform("f", "f", ZERO, ONE))

  lemma FrameWitness()
    ensures ValidFrameId("f") && Unit(ONE)
  {
    assert |"f"| == 1 && "f"[0] == 'f';
  }

  lemma OneIsUnit()
    ensures Unit(ONE)
  {
  }

  /** Three doubles. */
  datatype VectorReading = NonFiniteVector | FiniteVector(v: Vec3)

  function Create(parent: string, child: string, translation: VectorReading, rotation: QuaternionReading)
    : (r: Result<RigidTransform>)
    ensures r.Success? <==>
            && ValidFrameId(parent) && ValidFrameId(child) && parent != child
            && translation.FiniteVector? && Normalizable(rotation)
    ensures r.Success? ==>
            && r.value == Transform(parent, child, translation.v, Normalized(rotation.q, rotation.norm))
            && Rescales(r.value.rotation, rotation.norm, rotation.q)
    ensures r == Failure(FrameContractViolation) <==> !ValidFrameId(parent) || !ValidFrameId(child) || parent == child
  {
    hide Unit;
    var p :- ValidateFrameId(parent);
    var c :- ValidateFrameId(child);
    if p == c then Failure(FrameContractViolation)
    else if translation.NonFiniteVector? then Failure(NumericContractViolation)
    else
      var q :- ValidatedNormalizedQuaternion(rotation);
      Success(Transform(p, c, translation.v, q))
  }

  function Identity(frame: string): (r: Result<RigidTransform>)
    ensures r.Success? <==> ValidFrameId(frame)
    ensures r.Success? ==> r.value == Transform(frame, frame, ZERO, ONE)
  {
    var f :- ValidateFrameId(frame);
    OneIsUnit();
    hide Unit;
    Success(Transform(f, f, ZERO, ONE))
  }

  /** The translation of the product of two transforms, before any frame check. */
  function ChainTranslation(left: RigidTransform, right: RigidTransform): Vec3 {
    Add(left.translation, Rotate(left.rotation, right.translation))
  }

  function ChainRotation(left: RigidTransform, right: RigidTransform): Quat {
    Mul(left.rotation, right.rotation)
  }

  predicate Closes(translation: Vec3, rotation: Quat) {
    && NormSquared(translation) <= CLOSED_CHAIN_TRANSLATION * CLOSED_CHAIN_TRANSLATION
    && Abs(rotation.w) >= CLOSED_CHAIN_HALF_ANGLE_COSINE
  }

  function Compose(left: RigidTransform, right: RigidTransform): (r: Result<RigidTransform>)
  {
    hide Unit;
    if left.child != right.parent then Failure(FrameContractViolation)
    else
      var translation := ChainTranslation(left, right);
      UnitMul(left.rotation, right.rotation);
      UnitReading(ChainRotation(left, right));
      var rotation := ValidatedNormalizedQuaternion(Finite(ChainRotation(left, right), 1.0)).value;
      if left.parent == right.child then
        if !Closes(translation, rotation) then Failure(FrameContractViolation) else Identity(left.parent)
      else Success(Transform(left.parent, right.child, translation, rotation))
  }

  function Inverse(t: RigidTransform): RigidTransform {
    hide Unit;
    UnitInverse(t.rotation);
    OneIsUnit();
    if t.parent == t.child then Transform(t.parent, t.parent, ZERO, ONE)
    else Transform(t.child, t.parent, Neg(Rotate(Conj(t.rotation), t.translation)), Conj(t.rotation))
  }

  function ApplyPoint(t: RigidTransform, point: Vec3): Vec3 {
    Add(t.translation, Rotate(t.rotation, point))
  }

  /** An angle x given by cos(x/2); angles above 180 degrees count as 180 degrees, which no rotation exceeds. */
  datatype Angle = InvalidAngle | HalfAngleCosine(c: real)

  type AngleTolerance = a: Angle | a.HalfAngleCosine? ==> 0.0 <= a.c <= 1.0
    witness InvalidAngle

  function IsEquivalent(t: RigidTransform, other: RigidTransform, distance: real, angle: AngleTolerance): Result<bool> {
    if distance < 0.0 || angle.InvalidAngle? then Failure(NumericContractViolation)
    else if t.parent != other.parent || t.child != other.child then Success(false)
    else if NormSquared(Sub(t.translation, other.translation)) > distance * distance then Success(false)
    else Success(Abs(QuatDot(t.rotation, other.rotation)) >= angle.c)
  }

  lemma SameRotation(p: Quat, q: Quat)
    requires Unit(p) && Unit(q)
    ensures Abs(QuatDot(p, q)) >= 1.0 <==> p == q || p == QuatNeg(q)
  {
    QuatNegDot(p, q);
    QuatNegDot(q, q);
    hide QuatDot;
    hide QuatNeg;
    if QuatDot(p, q) >= 1.0 {
      UnitDotReachesOne(p, q);
    } else if -QuatDot(p, q) >= 1.0 {
      UnitDotReachesOne(p, QuatNeg(q));
    }
  }

  lemma SameTranslation(a: Vec3, b: Vec3)
    ensures NormSquared(Sub(a, b)) <= 0.0 <==> a == b
  {
    if a == b {
      assert Sub(a, b) == ZERO;
    } else if NormSquared(Sub(a, b)) <= 0.0 {
      hide NormSquared;
      ZeroNorm(Sub(a, b));
      assert false;
    }
  }

  /** With tolerances of zero: equal translations, and rotations equal up to the sign of the quaternion. */
  lemma EquivalentExactly(t: RigidTransform, other: RigidTransform)
    ensures IsEquivalent(t, other, 0.0, HalfAngleCosine(1.0)) == Success(true) <==>
            && t.parent == other.parent && t.child == other.child && t.translation == other.translation
            && (t.rotation == other.rotation || t.rotation == QuatNeg(other.rotation))
    ensures IsEquivalent(t, other, 0.0, HalfAngleCosine(1.0)) == Success(true) ==>
            forall point :: ApplyPoint(t, point) == ApplyPoint(other, point)
  {
    hide QuatDot;
    hide NormSquared;
    hide Rotate;
    hide QuatNeg;
    hide Add;
    hide Sub;
    hide Unit;
    hide ValidFrameId;
    hide Abs;
    SameRotation(t.rotation, other.rotation);
    SameTranslation(t.translation, other.translation);
    forall point ensures Rotate(QuatNeg(other.rotation), point) == Rotate(other.rotation, point) {
      RotateQuatNeg(other.rotation, point);
    }
    assert 0.0 * 0.0 == 0.0;
  }

  /** Equivalence is reflexive and symmetric, and what holds within some tolerances holds within wider ones. */
  lemma EquivalenceLaws(t: RigidTransform, other: RigidTransform, distance: real, angle: AngleTolerance,
                        wider: real, wide: AngleTolerance)
    requires angle.HalfAngleCosine? && wide.HalfAngleCosine? && wide.c <= angle.c
    requires 0.0 <= distance <= wider
    ensures IsEquivalent(t, t, distance, angle) == Success(true)
    ensures IsEquivalent(t, other, distance, angle) == IsEquivalent(other, t, distance, angle)
    ensures IsEquivalent(t, other, distance, angle) == Success(true) ==>
            IsEquivalent(t, other, wider, wide) == Success(true)
  {
    SquareGrows(distance, wider);
    SameTranslation(t.translation, t.translation);
    SubNorms(t.translation, other.translation);
    DotCommutes(t.rotation, other.rotation);
    hide NormSquared;
    hide Sub;
    hide QuatDot;
    hide ValidFrameId;
  }

  lemma SquareGrows(a: real, b: real)
    requires 0.0 <= a <= b
    ensures 0.0 <= a * a <= b * b
  {
  }

  /** Seen from another frame, two transforms are as equivalent as before. */
  lemma EquivalenceInvariant(a: RigidTransform, t: RigidTransform, other: RigidTransform, distance: real,
                             angle: AngleTolerance)
    requires a.child == t.parent == other.parent && a.parent != t.child && a.parent != other.child
    ensures Compose(a, t).Success? && Compose(a, other).Success?
    ensures IsEquivalent(Compose(a, t).value, Compose(a, other).value, distance, angle) ==
            IsEquivalent(t, other, distance, angle)
  {
    hide Unit;
    hide Mul;
    hide Rotate;
    hide NormSquared;
    hide QuatDot;
    hide Closes;
    hide Compose;
    ComposeResult(a, t);
    ComposeResult(a, other);
    DotLeftInvariant(a.rotation, t.rotation, other.rotation);
    ChainsApart(a, t, other);
    hide Sub;
    hide ChainTranslation;
    hide ValidFrameId;
  }

  lemma ChainsApart(a: RigidTransform, t: RigidTransform, other: RigidTransform)
    ensures NormSquared(Sub(ChainTranslation(a, t), ChainTranslation(a, other))) ==
            NormSquared(Sub(t.translation, other.translation))
  {
    hide Rotate;
    hide NormSquared;
    var u, v := t.translation, other.translation;
    RotateAdd(a.rotation, u, Neg(v));
    RotateNeg(a.rotation, v);
    assert Add(u, Neg(v)) == Sub(u, v);
    assert Sub(ChainTranslation(a, t), ChainTranslation(a, other)) == Rotate(a.rotation, Sub(u, v));
    RotateNorm(a.rotation, Sub(u, v));
    hide Sub;
  }

  /** Tolerances as distances: equivalent when the origins and all images of a vector are close enough. */
  lemma EquivalentWithin(t: RigidTransform, other: RigidTransform, distance: real, angle: AngleTolerance)
    ensures IsEquivalent(t, other, distance, angle) == Failure(NumericContractViolation) <==>
            distance < 0.0 || angle.InvalidAngle?
    ensures IsEquivalent(t, other, distance, angle) == Success(true) <==>
            && distance >= 0.0 && angle.HalfAngleCosine?
            && t.parent == other.parent && t.child == other.child
            && NormSquared(Sub(t.translation, other.translation)) <= distance * distance
            && !TurnsFurther(t.rotation, other.rotation, angle.c)
  {
    if angle.HalfAngleCosine? {
      hide QuatDot;
      hide Abs;
      hide TurnsFurther;
      hide ValidFrameId;
      TurnExceeds(t.rotation, other.rotation, angle.c);
    }
    hide Unit;
    hide NormSquared;
    hide Sub;
  }

  // ----- the group laws -----

  /** What a successful composition is: the raw product, or the identity when the chain closes. */
  lemma ComposeResult(left: RigidTransform, right: RigidTransform)
    ensures var r := Compose(left, right);
            && (r.Success? <==>
                && left.child == right.parent
                && (left.parent == right.child ==> Closes(ChainTranslation(left, right), ChainRotation(left, right))))
            && (r.Success? && left.parent != right.child ==>
                r.value == Transform(left.parent, right.child,
                                     ChainTranslation(left, right), ChainRotation(left, right)))
            && (r.Success? && left.parent == right.child ==> Identity(left.parent) == r)
            && (r.Failure? ==> r.error == FrameContractViolation)
  {
    hide Unit;
    hide Mul;
    hide Rotate;
    hide Closes;
    UnitMul(left.rotation, right.rotation);
    UnitReading(ChainRotation(left, right));
  }

  lemma DotWithOne(q: Quat)
    ensures QuatDot(ONE, q) == q.w
  {
  }

  /** A chain closes within a nanometre, and a turn of a nanoradian (by the cosine of half of it). */
  lemma ClosesMeans(translation: Vec3, rotation: Quat)
    requires Unit(rotation)
    ensures Closes(translation, rotation) <==>
            && NormSquared(translation) <= 0.000000001 * 0.000000001
            && !TurnsFurther(ONE, rotation, 1.0 - 0.000000000000000000125)
  {
    OneIsUnit();
    hide Unit;
    hide TurnsFurther;
    hide NormSquared;
    DotWithOne(rotation);
    hide QuatDot;
    TurnExceeds(ONE, rotation, CLOSED_CHAIN_HALF_ANGLE_COSINE);
  }

  lemma ExactlyClosed()
    ensures Closes(ZERO, ONE)
  {
  }

  lemma AddLaws(a: Vec3, b: Vec3, c: Vec3)
    ensures Add(a, Add(b, c)) == Add(Add(a, b), c)
    ensures Add(a, ZERO) == a == Add(ZERO, a)
    ensures Add(a, Neg(a)) == ZERO == Add(Neg(a), a)
    ensures Add(a, b) == Add(a, c) ==> b == c
    ensures Add(a, c) == Add(b, c) ==> a == b
    ensures Neg(Neg(a)) == a
  {
  }

  /** The raw products of three transforms agree, whichever pair is multiplied first. */
  lemma ChainAssociative(ab: RigidTransform, bc: RigidTransform, cd: RigidTransform)
    ensures Add(ChainTranslation(ab, bc), Rotate(ChainRotation(ab, bc), cd.translation)) ==
            Add(ab.translation, Rotate(ab.rotation, ChainTranslation(bc, cd)))
    ensures Mul(ChainRotation(ab, bc), cd.rotation) == Mul(ab.rotation, ChainRotation(bc, cd))
  {
    hide Unit;
    hide Mul;
    hide Rotate;
    hide Add;
    RotateMul(ab.rotation, bc.rotation, cd.translation);
    RotateAdd(ab.rotation, bc.translation, Rotate(bc.rotation, cd.translation));
    AddLaws(ab.translation, Rotate(ab.rotation, bc.translation),
            Rotate(ab.rotation, Rotate(bc.rotation, cd.translation)));
    MulAssoc(ab.rotation, bc.rotation, cd.rotation);
  }

  lemma IdentityComposes(t: RigidTransform, id: RigidTransform)
    requires id.parent == id.child
    ensures id.child == t.parent ==> Compose(id, t) == Success(t)
    ensures t.child == id.parent ==> Compose(t, id) == Success(t)
  {
    hide Unit;
    hide Mul;
    hide Rotate;
    hide Add;
    hide Closes;
    ComposeResult(id, t);
    ComposeResult(t, id);
    MulOne(t.rotation);
    RotateOne(t.translation);
    RotateZero(t.rotation);
    AddLaws(t.translation, ZERO, ZERO);
    ExactlyClosed();
  }

  function ThenCompose(left: Result<RigidTransform>, right: RigidTransform): Result<RigidTransform> {
    match left
    case Success(l) => Compose(l, right)
    case Failure(e) => Failure(e)
  }

  function ComposeThen(left: RigidTransform, right: Result<RigidTransform>): Result<RigidTransform> {
    match right
    case Success(r) => Compose(left, r)
    case Failure(e) => Failure(e)
  }

  /** Composition is associative, errors and closing chains included, as long as no inner pair closes a chain. */
  lemma ComposeAssociative(ab: RigidTransform, bc: RigidTransform, cd: RigidTransform)
    requires ab.child == bc.parent && bc.child == cd.parent
    requires ab.parent != bc.child && bc.parent != cd.child
    ensures ThenCompose(Compose(ab, bc), cd) == ComposeThen(ab, Compose(bc, cd))
  {
    hide Unit;
    hide Mul;
    hide Rotate;
    hide Add;
    hide Closes;
    ComposeResult(ab, bc);
    ComposeResult(bc, cd);
    ComposeResult(Compose(ab, bc).value, cd);
    ComposeResult(ab, Compose(bc, cd).value);
    ChainAssociative(ab, bc, cd);
  }

  lemma MulCancels(p: Quat, q: Quat)
    requires Unit(q)
    ensures Mul(p, q) == q <==> p == ONE
    ensures Mul(q, p) == q <==> p == ONE
  {
    hide *;
    MulOne(q);
    MulOne(p);
    UnitInverse(q);
    MulAssoc(p, q, Conj(q));
    MulAssoc(Conj(q), q, p);
  }

  lemma RotateCancels(q: Quat, v: Vec3)
    requires Unit(q)
    ensures Rotate(q, v) == ZERO <==> v == ZERO
  {
    hide *;
    RotateZero(q);
    RotateZero(Conj(q));
    RotateInverse(q, v);
  }

  /** When only a and b close a chain, composing b with c first goes through and keeps their raw product. */
  lemma ComposeAroundClosingLeft(ab: RigidTransform, bc: RigidTransform, cd: RigidTransform)
    requires ab.child == bc.parent && bc.child == cd.parent
    requires cd.parent != cd.child && ab.parent == bc.child && bc.parent != cd.child
    ensures Compose(bc, cd).Success?
    ensures Compose(ab, Compose(bc, cd).value) ==
            Success(Transform(ab.parent, cd.child,
                              Add(ChainTranslation(ab, bc), Rotate(ChainRotation(ab, bc), cd.translation)),
                              Mul(ChainRotation(ab, bc), cd.rotation)))
  {
    hide Unit;
    hide Mul;
    hide Rotate;
    hide Add;
    hide Closes;
    hide Compose;
    ComposeResult(bc, cd);
    ComposeResult(ab, Compose(bc, cd).value);
    ChainAssociative(ab, bc, cd);
  }

  /** The mirror image: only b and c close a chain. */
  lemma ComposeAroundClosingRight(ab: RigidTransform, bc: RigidTransform, cd: RigidTransform)
    requires ab.child == bc.parent && bc.child == cd.parent
    requires ab.parent != ab.child && ab.parent != bc.child && bc.parent == cd.child
    ensures Compose(ab, bc).Success?
    ensures Compose(Compose(ab, bc).value, cd) ==
            Success(Transform(ab.parent, cd.child,
                              Add(ab.translation, Rotate(ab.rotation, ChainTranslation(bc, cd))),
                              Mul(ab.rotation, ChainRotation(bc, cd))))
  {
    hide Unit;
    hide Mul;
    hide Rotate;
    hide Add;
    hide Closes;
    hide Compose;
    ComposeResult(ab, bc);
    ComposeResult(Compose(ab, bc).value, cd);
    ChainAssociative(ab, bc, cd);
  }

  /** Composing two transforms that close a chain, within tolerance, leaves the neutral element. */
  lemma ClosingComposes(left: RigidTransform, right: RigidTransform, t: RigidTransform)
    requires left.child == right.parent && left.parent == right.child
    ensures Compose(left, right).Success? <==> Closes(ChainTranslation(left, right), ChainRotation(left, right))
    ensures Compose(left, right).Success? && t.parent == left.parent ==>
            Compose(Compose(left, right).value, t) == Success(t)
    ensures Compose(left, right).Success? && t.child == left.parent ==>
            Compose(t, Compose(left, right).value) == Success(t)
  {
    hide Unit;
    hide Mul;
    hide Rotate;
    hide Add;
    hide Closes;
    hide Compose;
    ComposeResult(left, right);
    if Compose(left, right).Success? {
      IdentityComposes(t, Compose(left, right).value);
    }
  }

  lemma AddCancels(a: Vec3, b: Vec3)
    ensures Add(a, b) == b <==> a == ZERO
    ensures Add(b, a) == b <==> a == ZERO
  {
  }

  /**
   When the first two of three proper transforms close a chain, the code replaces their product by the exact identity,
   so associativity holds exactly when that product already was the identity, not merely within tolerance of it.
   */
  lemma ComposeAssociativeClosingLeft(ab: RigidTransform, bc: RigidTransform, cd: RigidTransform)
    requires ab.child == bc.parent && bc.child == cd.parent
    requires ab.parent != ab.child && cd.parent != cd.child
    requires ab.parent == bc.child && bc.parent != cd.child
    ensures ThenCompose(Compose(ab, bc), cd) == ComposeThen(ab, Compose(bc, cd)) <==>
            ChainTranslation(ab, bc) == ZERO && ChainRotation(ab, bc) == ONE
  {
    hide Unit;
    hide Mul;
    hide Rotate;
    hide Add;
    hide Closes;
    hide Compose;
    hide ChainTranslation;
    hide ChainRotation;
    ComposeAroundClosingLeft(ab, bc, cd);
    ClosingComposes(ab, bc, cd);
    ExactlyClosed();
    MulCancels(ChainRotation(ab, bc), cd.rotation);
    RotateOne(cd.translation);
    AddCancels(ChainTranslation(ab, bc), cd.translation);
  }

  /** The mirror image: the last two transforms close a chain. */
  lemma ComposeAssociativeClosingRight(ab: RigidTransform, bc: RigidTransform, cd: RigidTransform)
    requires ab.child == bc.parent && bc.child == cd.parent
    requires ab.parent != ab.child && cd.parent != cd.child
    requires ab.parent != bc.child && bc.parent == cd.child
    ensures ThenCompose(Compose(ab, bc), cd) == ComposeThen(ab, Compose(bc, cd)) <==>
            ChainTranslation(bc, cd) == ZERO && ChainRotation(bc, cd) == ONE
  {
    hide Unit;
    hide Mul;
    hide Rotate;
    hide Add;
    hide Closes;
    hide Compose;
    hide ChainTranslation;
    hide ChainRotation;
    ComposeAroundClosingRight(ab, bc, cd);
    ClosingComposes(bc, cd, ab);
    ExactlyClosed();
    MulCancels(ChainRotation(bc, cd), ab.rotation);
    RotateCancels(ab.rotation, ChainTranslation(bc, cd));
    AddCancels(Rotate(ab.rotation, ChainTranslation(bc, cd)), ab.translation);
  }

  /** The raw product of two transforms is the identity, not merely within tolerance of it. */
  predicate ExactIdentity(left: RigidTransform, right: RigidTransform) {
    ChainTranslation(left, right) == ZERO && ChainRotation(left, right) == ONE
  }

  predicate ChainCloses(left: RigidTransform, right: RigidTransform) {
    Closes(ChainTranslation(left, right), ChainRotation(left, right))
  }

  /** Whether three transforms compose alike from both sides. */
  predicate Associates(ab: RigidTransform, bc: RigidTransform, cd: RigidTransform) {
    if ab.child != bc.parent || bc.child != cd.parent then true
    else if ab.parent == bc.child && bc.parent == cd.child then
      if ChainCloses(ab, bc) then ChainCloses(bc, cd) && ab == cd else !ChainCloses(bc, cd)
    else if ab.parent == bc.child then cd.parent == cd.child || ExactIdentity(ab, bc)
    else if bc.parent == cd.child then ab.parent == ab.child || ExactIdentity(bc, cd)
    else true
  }

  /** For all transforms, connected or not: composition associates exactly when Associates says so, errors included. */
  lemma ComposeAssociativeExactly(ab: RigidTransform, bc: RigidTransform, cd: RigidTransform)
    ensures ThenCompose(Compose(ab, bc), cd) == ComposeThen(ab, Compose(bc, cd)) <==> Associates(ab, bc, cd)
  {
    hide Unit;
    hide Mul;
    hide Rotate;
    hide Add;
    hide Closes;
    hide Compose;
    hide ChainTranslation;
    hide ChainRotation;
    if ab.child != bc.parent || bc.child != cd.parent {
      DisconnectedAssociates(ab, bc, cd);
    } else if ab.parent == bc.child && bc.parent == cd.child {
      ClosingComposes(ab, bc, cd);
      ClosingComposes(bc, cd, ab);
      ComposeResult(ab, bc);
      ComposeResult(bc, cd);
    } else if ab.parent == bc.child {
      if cd.parent == cd.child || ab.parent == ab.child {
        IdentityAssociates(ab, bc, cd);
      } else {
        ComposeAssociativeClosingLeft(ab, bc, cd);
      }
    } else if bc.parent == cd.child {
      if ab.parent == ab.child || cd.parent == cd.child {
        IdentityAssociates(ab, bc, cd);
      } else {
        ComposeAssociativeClosingRight(ab, bc, cd);
      }
    } else {
      ComposeAssociative(ab, bc, cd);
    }
  }

  lemma DisconnectedAssociates(ab: RigidTransform, bc: RigidTransform, cd: RigidTransform)
    requires ab.child != bc.parent || bc.child != cd.parent
    ensures ThenCompose(Compose(ab, bc), cd) == Failure(FrameContractViolation)
    ensures ComposeThen(ab, Compose(bc, cd)) == Failure(FrameContractViolation)
  {
    hide Unit;
    hide Mul;
    hide Rotate;
    hide Add;
    hide Closes;
    hide Compose;
    hide ChainTranslation;
    hide ChainRotation;
    ComposeResult(ab, bc);
    ComposeResult(bc, cd);
    if Compose(ab, bc).Success? {
      ComposeResult(Compose(ab, bc).value, cd);
    }
    if Compose(bc, cd).Success? {
      ComposeResult(ab, Compose(bc, cd).value);
    }
  }

  /** An identity at either end associates with everything; with a closing pair the pair's check decides alone. */
  lemma IdentityAssociates(ab: RigidTransform, bc: RigidTransform, cd: RigidTransform)
    requires ab.child == bc.parent && bc.child == cd.parent
    requires ab.parent == ab.child || cd.parent == cd.child
    ensures ThenCompose(Compose(ab, bc), cd) == ComposeThen(ab, Compose(bc, cd))
    ensures ab.parent == ab.child && ab.parent == bc.child ==> ExactIdentity(ab, bc)
    ensures cd.parent == cd.child && bc.parent == cd.child ==> ExactIdentity(bc, cd)
  {
    hide Unit;
    hide Mul;
    hide Rotate;
    hide Add;
    hide Closes;
    hide Compose;
    MulOne(ONE);
    RotateOne(ZERO);
    AddLaws(ZERO, ZERO, ZERO);
    if ab.parent == ab.child {
      IdentityComposes(bc, ab);
      if Compose(bc, cd).Success? {
        ComposeResult(bc, cd);
        IdentityComposes(Compose(bc, cd).value, ab);
      }
    } else {
      IdentityComposes(bc, cd);
      if Compose(ab, bc).Success? {
        ComposeResult(ab, bc);
        IdentityComposes(Compose(ab, bc).value, cd);
      }
    }
  }

  /** A translation along x between two frames. */
  function Shift(parent: string, child: string, x: real): RigidTransform
    requires ValidFrameId(parent) && ValidFrameId(child) && parent != child
  {
    OneIsUnit();
    hide Unit;
    hide ValidFrameId;
    Transform(parent, child, Vec3(x, 0.0, 0.0), ONE)
  }

  lemma ShiftsChain(left: RigidTransform, right: RigidTransform, x: real, y: real)
    requires left.translation == Vec3(x, 0.0, 0.0) && right.translation == Vec3(y, 0.0, 0.0)
    requires left.rotation == ONE && right.rotation == ONE
    ensures ChainTranslation(left, right) == Vec3(x + y, 0.0, 0.0) && ChainRotation(left, right) == ONE
  {
    hide Mul;
    hide Rotate;
    hide ValidFrameId;
    hide Unit;
    RotateOne(right.translation);
    MulOne(ONE);
  }

  /**
   Two triples of well-formed transforms that do not associate: one inner pair closes a tenth of a nanometre off, or
   both close but the outer transforms differ by as much.
   */
  lemma AssociativityFails(f: string, g: string, h: string)
    requires ValidFrameId(f) && ValidFrameId(g) && ValidFrameId(h) && f != g && f != h && g != h
    ensures var there, off, back := Shift(f, g, 0.0), Shift(f, g, 0.0000000001), Shift(g, f, 0.0);
            && !Associates(off, back, Shift(f, h, 0.0)) && !Associates(there, back, off)
            && ThenCompose(Compose(off, back), Shift(f, h, 0.0)) != ComposeThen(off, Compose(back, Shift(f, h, 0.0)))
            && ThenCompose(Compose(there, back), off) != ComposeThen(there, Compose(back, off))
  {
    hide ValidFrameId;
    hide Unit;
    hide Compose;
    hide ChainTranslation;
    hide ChainRotation;
    var tiny := 0.0000000001;
    var there, off, back := Shift(f, g, 0.0), Shift(f, g, tiny), Shift(g, f, 0.0);
    ShiftsChain(there, back, 0.0, 0.0);
    ShiftsChain(off, back, tiny, 0.0);
    ShiftsChain(back, off, 0.0, tiny);
    assert !Associates(off, back, Shift(f, h, 0.0));
    assert !Associates(there, back, off);
    hide Associates;
    ComposeAssociativeExactly(off, back, Shift(f, h, 0.0));
    ComposeAssociativeExactly(there, back, off);
  }

  /** One transform after the other is the raw product. */
  lemma ChainApplies(left: RigidTransform, right: RigidTransform, point: Vec3)
    ensures ApplyPoint(left, ApplyPoint(right, point)) ==
            Add(ChainTranslation(left, right), Rotate(ChainRotation(left, right), point))
  {
    hide Unit;
    hide Mul;
    hide Rotate;
    hide Add;
    RotateMul(left.rotation, right.rotation, point);
    RotateAdd(left.rotation, right.translation, Rotate(right.rotation, point));
    AddLaws(left.translation, Rotate(left.rotation, right.translation),
            Rotate(left.rotation, Rotate(right.rotation, point)));
  }

  /** The raw product moves nothing: it is the identity up to the sign of its quaternion. */
  predicate ActsAsIdentity(left: RigidTransform, right: RigidTransform) {
    ChainTranslation(left, right) == ZERO &&
    (ChainRotation(left, right) == ONE || ChainRotation(left, right) == QuatNeg(ONE))
  }

  lemma MovesNothing(translation: Vec3, rotation: Quat)
    requires Unit(rotation)
    ensures (forall point :: Add(translation, Rotate(rotation, point)) == point) <==>
            translation == ZERO && (rotation == ONE || rotation == QuatNeg(ONE))
  {
    hide Unit;
    hide Rotate;
    hide QuatNeg;
    FixesAll(rotation);
    RotateZero(rotation);
    AddLaws(translation, ZERO, ZERO);
    if translation == ZERO {
      forall point ensures Add(ZERO, Rotate(rotation, point)) == Rotate(rotation, point) {
        AddLaws(Rotate(rotation, point), ZERO, ZERO);
      }
      hide Add;
      assert (forall point :: Add(translation, Rotate(rotation, point)) == point) <==>
             (forall point :: Rotate(rotation, point) == point);
    } else {
      assert Add(translation, Rotate(rotation, ZERO)) != ZERO;
    }
  }

  /**
   A composed transform acts on all points as its two factors one after the other, except that a chain that closes
   does so only if its raw product moves nothing.
   */
  lemma ComposeApplies(left: RigidTransform, right: RigidTransform)
    requires Compose(left, right).Success?
    ensures (forall point ::
               ApplyPoint(Compose(left, right).value, point) == ApplyPoint(left, ApplyPoint(right, point)))
            <==> left.parent != right.child || ActsAsIdentity(left, right)
  {
    hide Mul;
    hide Rotate;
    hide Closes;
    hide Compose;
    ComposeResult(left, right);
    UnitMul(left.rotation, right.rotation);
    hide Unit;
    forall point
      ensures ApplyPoint(left, ApplyPoint(right, point)) ==
              Add(ChainTranslation(left, right), Rotate(ChainRotation(left, right), point))
      ensures Add(ZERO, Rotate(ONE, point)) == point
    {
      ChainApplies(left, right, point);
      RotateOne(point);
      AddLaws(point, ZERO, ZERO);
    }
    MovesNothing(ChainTranslation(left, right), ChainRotation(left, right));
    hide ChainTranslation;
    hide ChainRotation;
    hide Add;
    hide QuatNeg;
    hide ValidFrameId;
  }

  /** The inverse is two-sided, exact, and accepted by the closed-chain check. */
  lemma InverseComposes(t: RigidTransform)
    ensures Compose(t, Inverse(t)) == Identity(t.parent)
    ensures Compose(Inverse(t), t) == Identity(t.child)
    ensures Identity(t.parent).Success? && Identity(t.child).Success?
    ensures Inverse(Inverse(t)) == t
  {
    hide Unit;
    hide Mul;
    hide Rotate;
    hide Add;
    hide Closes;
    hide Neg;
    hide Conj;
    ExactlyClosed();
    if t.parent == t.child {
      IdentityComposes(t, t);
    } else {
      var c := Conj(t.rotation);
      var i := Inverse(t);
      UnitInverse(t.rotation);
      ComposeResult(t, i);
      ComposeResult(i, t);
      RotateNeg(t.rotation, Rotate(c, t.translation));
      RotateInverse(t.rotation, t.translation);
      RotateNeg(t.rotation, Rotate(c, t.translation));
      AddLaws(t.translation, ZERO, ZERO);
      AddLaws(Rotate(c, t.translation), ZERO, ZERO);
      RotateNeg(Conj(c), Rotate(c, t.translation));
    }
  }

  /** Points survive a round trip through a transform and its inverse. */
  lemma InverseApplies(t: RigidTransform, point: Vec3)
    ensures ApplyPoint(Inverse(t), ApplyPoint(t, point)) == point
    ensures ApplyPoint(t, ApplyPoint(Inverse(t), point)) == point
  {
    hide Unit;
    hide Mul;
    hide Rotate;
    hide Add;
    hide Neg;
    hide Conj;
    if t.parent == t.child {
      RotateOne(point);
      AddLaws(point, ZERO, ZERO);
      RotateOne(Add(ZERO, point));
    } else {
      var c := Conj(t.rotation);
      UnitInverse(t.rotation);
      RotateAdd(c, t.translation, Rotate(t.rotation, point));
      RotateInverse(t.rotation, point);
      AddLaws(Neg(Rotate(c, t.translation)), Rotate(c, t.translation), point);
      AddLaws(Rotate(c, t.translation), ZERO, ZERO);
      AddLaws(point, ZERO, ZERO);
      RotateAdd(t.rotation, Neg(Rotate(c, t.translation)), Rotate(c, point));
      RotateNeg(t.rotation, Rotate(c, t.translation));
      RotateInverse(t.rotation, t.translation);
      AddLaws(t.translation, Neg(t.translation), point);
      AddLaws(t.translation, ZERO, ZERO);
    }
  }

  // ----- camera pose to base pose -----

  const ODOM := "odom"
  const CAMERA := "camera_link"
  const BASE := "base_link"

  predicate IsCameraPose(t: RigidTransform) {
    t.parent == ODOM && t.child == CAMERA
  }

  predicate IsCameraExtrinsic(t: RigidTransform) {
    t.parent == BASE && t.child == CAMERA
  }

  function CameraPoseToBasePose(camera: RigidTransform, extrinsic: RigidTransform): Result<RigidTransform> {
    if camera.parent != ODOM || camera.child != CAMERA then Failure(FrameContractViolation)
    else if extrinsic.parent != BASE || extrinsic.child != CAMERA then Failure(FrameContractViolation)
    else Compose(camera, Inverse(extrinsic))
  }

  lemma FramesDiffer()
    ensures ODOM != BASE && BASE != CAMERA && ODOM != CAMERA
    ensures ValidFrameId(ODOM) && ValidFrameId(CAMERA)
  {
    assert |ODOM| == 4 && |BASE| == 9 && |CAMERA| == 11;
    assert ODOM[0] == 'o' && CAMERA[0] == 'c';
  }

  /** The conversion fails only on wrong frame roles; its result is then T[odom,base_link]. */
  lemma BasePoseExists(camera: RigidTransform, extrinsic: RigidTransform)
    ensures CameraPoseToBasePose(camera, extrinsic).Success? <==> IsCameraPose(camera) && IsCameraExtrinsic(extrinsic)
    ensures CameraPoseToBasePose(camera, extrinsic).Success? ==>
            var base := CameraPoseToBasePose(camera, extrinsic).value;
            && base.parent == ODOM && base.child == BASE
            && base.translation == Add(camera.translation, Neg(Rotate(base.rotation, extrinsic.translation)))
            && base.rotation == Mul(camera.rotation, Conj(extrinsic.rotation))
  {
    hide Unit;
    hide Mul;
    hide Rotate;
    hide Add;
    hide Closes;
    hide Neg;
    hide Conj;
    FramesDiffer();
    if IsCameraPose(camera) && IsCameraExtrinsic(extrinsic) {
      var c := Conj(extrinsic.rotation);
      ComposeResult(camera, Inverse(extrinsic));
      RotateNeg(camera.rotation, Rotate(c, extrinsic.translation));
      RotateMul(camera.rotation, c, extrinsic.translation);
    }
  }

  /** Converting T[odom,base] . T[base,camera] gives back T[odom,base] exactly. */
  lemma BasePoseRoundTrip(base: RigidTransform, extrinsic: RigidTransform)
    requires base.parent == ODOM && base.child == BASE && IsCameraExtrinsic(extrinsic)
    ensures Compose(base, extrinsic).Success?
    ensures CameraPoseToBasePose(Compose(base, extrinsic).value, extrinsic) == Success(base)
  {
    hide Unit;
    hide Mul;
    hide Rotate;
    hide Add;
    hide Closes;
    hide Neg;
    hide Conj;
    FramesDiffer();
    var i := Inverse(extrinsic);
    ComposeResult(base, extrinsic);
    var camera := Compose(base, extrinsic).value;
    ComposeResult(camera, i);
    ChainAssociative(base, extrinsic, i);
    InverseComposes(extrinsic);
    ExtrinsicCancels(extrinsic);
    MulOne(base.rotation);
    RotateZero(base.rotation);
    AddLaws(base.translation, ZERO, ZERO);
  }

  /** Conversely the base pose, composed with the extrinsic, is the camera pose that was measured. */
  lemma CameraPoseRoundTrip(camera: RigidTransform, extrinsic: RigidTransform)
    requires IsCameraPose(camera) && IsCameraExtrinsic(extrinsic)
    ensures CameraPoseToBasePose(camera, extrinsic).Success?
    ensures Compose(CameraPoseToBasePose(camera, extrinsic).value, extrinsic) == Success(camera)
  {
    hide Unit;
    hide Mul;
    hide Rotate;
    hide Add;
    hide Closes;
    hide Neg;
    hide Conj;
    FramesDiffer();
    var i := Inverse(extrinsic);
    ComposeResult(camera, i);
    var base := Compose(camera, i).value;
    ComposeResult(base, extrinsic);
    ChainAssociative(camera, i, extrinsic);
    ExtrinsicCancels(extrinsic);
    MulOne(camera.rotation);
    RotateZero(camera.rotation);
    AddLaws(camera.translation, ZERO, ZERO);
  }

  lemma ExtrinsicCancels(t: RigidTransform)
    requires t.parent != t.child
    ensures ChainTranslation(t, Inverse(t)) == ZERO == ChainTranslation(Inverse(t), t)
    ensures ChainRotation(t, Inverse(t)) == ONE == ChainRotation(Inverse(t), t)
  {
    hide Unit;
    hide Mul;
    hide Rotate;
    hide Add;
    hide Neg;
    hide Conj;
    var c := Conj(t.rotation);
    UnitInverse(t.rotation);
    RotateNeg(t.rotation, Rotate(c, t.translation));
    RotateInverse(t.rotation, t.translation);
    AddLaws(t.translation, ZERO, ZERO);
    AddLaws(Rotate(c, t.translation), ZERO, ZERO);
  }

  // ----- pose steps -----

  /** The length of a step is kept squared and its angle x as cos(x/2), which is what the code computes x from. */
  datatype PoseStep = PoseStep(translationSquared: real, halfAngleCosine: real)

  function MeasurePoseStep(previous: RigidTransform, current: RigidTransform): Result<PoseStep> {
    if previous.parent != current.parent || previous.child != current.child then Failure(FrameContractViolation)
    else Success(PoseStep(NormSquared(Sub(current.translation, previous.translation)),
                          Abs(QuatDot(previous.rotation, current.rotation))))
  }

  /** A step is measured as a squared distance, and as a cosine: below c exactly when the rotations turn further. */
  lemma StepMeasures(previous: RigidTransform, current: RigidTransform, c: real)
    requires c >= 0.0
    ensures MeasurePoseStep(previous, current).Success? <==>
            previous.parent == current.parent && previous.child == current.child
    ensures MeasurePoseStep(previous, current).Success? ==>
              var step := MeasurePoseStep(previous, current).value;
              && step.translationSquared == NormSquared(Sub(current.translation, previous.translation))
              && (step.halfAngleCosine < c <==> TurnsFurther(previous.rotation, current.rotation, c))
  {
    hide QuatDot;
    hide Abs;
    hide NormSquared;
    hide Sub;
    hide TurnsFurther;
    hide ValidFrameId;
    TurnExceeds(previous.rotation, current.rotation, c);
    hide Unit;
  }

  /** Two camera poses and the base poses made from them turn by the same angle. */
  lemma BaseTurnsWithCamera(first: RigidTransform, second: RigidTransform, extrinsic: RigidTransform)
    requires IsCameraPose(first) && IsCameraPose(second) && IsCameraExtrinsic(extrinsic)
    ensures CameraPoseToBasePose(first, extrinsic).Success? && CameraPoseToBasePose(second, extrinsic).Success?
    ensures MeasurePoseStep(first, second).Success?
    ensures var step := MeasurePoseStep(CameraPoseToBasePose(first, extrinsic).value,
                                        CameraPoseToBasePose(second, extrinsic).value);
            && step.Success?
            && step.value.halfAngleCosine == MeasurePoseStep(first, second).value.halfAngleCosine
    ensures forall c | c >= 0.0 ::
              TurnsFurther(CameraPoseToBasePose(first, extrinsic).value.rotation,
                           CameraPoseToBasePose(second, extrinsic).value.rotation, c) <==>
              TurnsFurther(first.rotation, second.rotation, c)
  {
    BaseTurnsByCosine(first, second, extrinsic);
    hide CameraPoseToBasePose;
    hide MeasurePoseStep;
    hide TurnsFurther;
    hide Unit;
    hide NormSquared;
    var base0, base1 := CameraPoseToBasePose(first, extrinsic).value, CameraPoseToBasePose(second, extrinsic).value;
    forall c | c >= 0.0
      ensures TurnsFurther(base0.rotation, base1.rotation, c) <==> TurnsFurther(first.rotation, second.rotation, c)
    {
      StepMeasures(first, second, c);
      StepMeasures(base0, base1, c);
    }
  }

  lemma BaseTurnsByCosine(first: RigidTransform, second: RigidTransform, extrinsic: RigidTransform)
    requires IsCameraPose(first) && IsCameraPose(second) && IsCameraExtrinsic(extrinsic)
    ensures CameraPoseToBasePose(first, extrinsic).Success? && CameraPoseToBasePose(second, extrinsic).Success?
    ensures MeasurePoseStep(first, second).Success?
    ensures var step := MeasurePoseStep(CameraPoseToBasePose(first, extrinsic).value,
                                        CameraPoseToBasePose(second, extrinsic).value);
            && step.Success?
            && step.value.halfAngleCosine == MeasurePoseStep(first, second).value.halfAngleCosine
  {
    hide Unit;
    hide Mul;
    hide Rotate;
    hide Add;
    hide Neg;
    hide Sub;
    hide NormSquared;
    hide QuatDot;
    hide Conj;
    hide Closes;
    BasePoseExists(first, extrinsic);
    BasePoseExists(second, extrinsic);
    UnitInverse(extrinsic.rotation);
    DotRightInvariant(first.rotation, second.rotation, Conj(extrinsic.rotation));
  }

  /** The base origin is one lever arm away from the camera origin. */
  lemma LeverArm(camera: RigidTransform, extrinsic: RigidTransform)
    requires IsCameraPose(camera) && IsCameraExtrinsic(extrinsic)
    ensures CameraPoseToBasePose(camera, extrinsic).Success?
    ensures NormSquared(Sub(CameraPoseToBasePose(camera, extrinsic).value.translation, camera.translation)) ==
            NormSquared(extrinsic.translation)
  {
    hide Unit;
    hide Mul;
    hide Rotate;
    hide NormSquared;
    hide Conj;
    hide Closes;
    BasePoseExists(camera, extrinsic);
    var base := CameraPoseToBasePose(camera, extrinsic).value;
    RotateNorm(base.rotation, extrinsic.translation);
    NormNeg(Rotate(base.rotation, extrinsic.translation));
    assert Sub(base.translation, camera.translation) == Neg(Rotate(base.rotation, extrinsic.translation));
  }
}
