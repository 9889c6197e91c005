/**
 Vectors and quaternions over the exact reals: the part of Eigen's geometry that the repository uses, with the laws
 of the rotation group that the transform and twist theorems rest on.

 Every law below is a polynomial identity. The solver is only ever shown linear ones: the lemmas work with the hidden
 products Times and Times3 as atoms, and the few genuine multiplications are isolated in lemmas over plain reals.
 */
module Geometry {

  datatype Vec3 = Vec3(x: real, y: real, z: real)

  /** A quaternion; w is the scalar part. */
  datatype Quat = Quat(w: real, x: real, y: real, z: real)

  const ZERO := Vec3(0.0, 0.0, 0.0)
  const ONE := Quat(1.0, 0.0, 0.0, 0.0)

  function Add(a: Vec3, b: Vec3): Vec3 {
    Vec3(a.x + b.x, a.y + b.y, a.z + b.z)
  }

  function Sub(a: Vec3, b: Vec3): Vec3 {
    Vec3(a.x - b.x, a.y - b.y, a.z - b.z)
  }

  function Neg(a: Vec3): Vec3 {
    Vec3(-a.x, -a.y, -a.z)
  }

  function Dot(a: Vec3, b: Vec3): real {
    a.x * b.x + a.y * b.y + a.z * b.z
  }

  function NormSquared(a: Vec3): real {
    Dot(a, a)
  }

  function Cross(a: Vec3, b: Vec3): Vec3 {
    Vec3(a.y * b.z - a.z * b.y, a.z * b.x - a.x * b.z, a.x * b.y - a.y * b.x)
  }

  /** The Hamilton product. */
  function Mul(p: Quat, q: Quat): Quat {
    Quat(p.w * q.w - p.x * q.x - p.y * q.y - p.z * q.z,
         p.w * q.x + p.x * q.w + p.y * q.z - p.z * q.y,
         p.w * q.y + p.y * q.w + p.z * q.x - p.x * q.z,
         p.w * q.z + p.z * q.w + p.x * q.y - p.y * q.x)
  }

  function Conj(q: Quat): Quat {
    Quat(q.w, -q.x, -q.y, -q.z)
  }

  function QuatAdd(p: Quat, q: Quat): Quat {
    Quat(p.w + q.w, p.x + q.x, p.y + q.y, p.z + q.z)
  }

  function QuatDot(p: Quat, q: Quat): real {
    p.w * q.w + p.x * q.x + p.y * q.y + p.z * q.z
  }

  predicate Unit(q: Quat) {
    QuatDot(q, q) == 1.0
  }

  function FromParts(s: real, v: Vec3): Quat {
    Quat(s, v.x, v.y, v.z)
  }

  function VectorPart(q: Quat): Vec3 {
    Vec3(q.x, q.y, q.z)
  }

  /** A rotation applied to a vector: the vector part of q v q*. */
  function Rotate(q: Quat, v: Vec3): Vec3 {
    VectorPart(Mul(Mul(q, FromParts(0.0, v)), Conj(q)))
  }

  function Abs(r: real): real {
    if r < 0.0 then -r else r
  }

  // ----- products as atoms -----

  ghost function Times(a: real, b: real): real { a * b }

  ghost function Times3(a: real, b: real, c: real): real { a * b * c }

  lemma Distribute(m: real, a: real, b: real, c: real, d: real, k: real)
    requires m == a + b + c + d
    ensures m * k == a * k + b * k + c * k + d * k
  {
  }

  lemma SumTimes(m: real, a: real, b: real, c: real, d: real, e: real, f: real, g: real, h: real, k: real)
    requires m == Times(a, e) + Times(b, f) + Times(c, g) - Times(d, h)
    ensures Times(m, k) == Times3(a, e, k) + Times3(b, f, k) + Times3(c, g, k) - Times3(d, h, k)
    ensures Times(k, m) == Times3(k, a, e) + Times3(k, b, f) + Times3(k, c, g) - Times3(k, d, h)
  {
    Distribute(m, a * e, b * f, c * g, -(d * h), k);
  }

  lemma DifferenceTimes(m: real, a: real, b: real, c: real, d: real, e: real, f: real, g: real, h: real, k: real)
    requires m == Times(a, e) - Times(b, f) - Times(c, g) - Times(d, h)
    ensures Times(m, k) == Times3(a, e, k) - Times3(b, f, k) - Times3(c, g, k) - Times3(d, h, k)
    ensures Times(k, m) == Times3(k, a, e) - Times3(k, b, f) - Times3(k, c, g) - Times3(k, d, h)
  {
    Distribute(m, a * e, -(b * f), -(c * g), -(d * h), k);
  }

  lemma TimesAdd(a: real, b: real, c: real, s: real)
    requires s == b + c
    ensures Times(a, s) == Times(a, b) + Times(a, c)
    ensures Times(s, a) == Times(b, a) + Times(c, a)
  {
  }

  lemma TimesNeg(a: real, b: real, n: real)
    requires n == -b
    ensures Times(a, n) == -Times(a, b)
    ensures Times(n, a) == -Times(a, b)
    ensures Times(b, a) == Times(a, b)
  {
  }

  lemma TimesConj(a: real, q: Quat)
    ensures Times(a, Conj(q).w) == Times(a, q.w) == Times(q.w, a) == Times(Conj(q).w, a)
    ensures Times(a, Conj(q).x) == -Times(a, q.x) == -Times(q.x, a) == Times(Conj(q).x, a)
    ensures Times(a, Conj(q).y) == -Times(a, q.y) == -Times(q.y, a) == Times(Conj(q).y, a)
    ensures Times(a, Conj(q).z) == -Times(a, q.z) == -Times(q.z, a) == Times(Conj(q).z, a)
  {
    hide Times;
    TimesNeg(a, q.w, -q.w);
    TimesNeg(a, q.x, -q.x);
    TimesNeg(a, q.y, -q.y);
    TimesNeg(a, q.z, -q.z);
  }

  lemma TimesQuatAdd(a: real, q: Quat, r: Quat)
    ensures Times(a, QuatAdd(q, r).w) == Times(a, q.w) + Times(a, r.w)
    ensures Times(a, QuatAdd(q, r).x) == Times(a, q.x) + Times(a, r.x)
    ensures Times(a, QuatAdd(q, r).y) == Times(a, q.y) + Times(a, r.y)
    ensures Times(a, QuatAdd(q, r).z) == Times(a, q.z) + Times(a, r.z)
    ensures Times(QuatAdd(q, r).w, a) == Times(q.w, a) + Times(r.w, a)
    ensures Times(QuatAdd(q, r).x, a) == Times(q.x, a) + Times(r.x, a)
    ensures Times(QuatAdd(q, r).y, a) == Times(q.y, a) + Times(r.y, a)
    ensures Times(QuatAdd(q, r).z, a) == Times(q.z, a) + Times(r.z, a)
  {
    hide Times;
    TimesAdd(a, q.w, r.w, q.w + r.w);
    TimesAdd(a, q.x, r.x, q.x + r.x);
    TimesAdd(a, q.y, r.y, q.y + r.y);
    TimesAdd(a, q.z, r.z, q.z + r.z);
  }

  // ----- the quaternion algebra -----

  lemma MulParts(p: Quat, q: Quat)
    ensures Mul(p, q).w == Times(p.w, q.w) - Times(p.x, q.x) - Times(p.y, q.y) - Times(p.z, q.z)
    ensures Mul(p, q).x == Times(p.w, q.x) + Times(p.x, q.w) + Times(p.y, q.z) - Times(p.z, q.y)
    ensures Mul(p, q).y == Times(p.w, q.y) + Times(p.y, q.w) + Times(p.z, q.x) - Times(p.x, q.z)
    ensures Mul(p, q).z == Times(p.w, q.z) + Times(p.z, q.w) + Times(p.x, q.y) - Times(p.y, q.x)
  {
  }

  lemma MulScaled(p: Quat, q: Quat, k: real)
    ensures var m := Mul(p, q);
            && Times(m.w, k) == Times3(p.w, q.w, k) - Times3(p.x, q.x, k) - Times3(p.y, q.y, k) - Times3(p.z, q.z, k)
            && Times(m.x, k) == Times3(p.w, q.x, k) + Times3(p.x, q.w, k) + Times3(p.y, q.z, k) - Times3(p.z, q.y, k)
            && Times(m.y, k) == Times3(p.w, q.y, k) + Times3(p.y, q.w, k) + Times3(p.z, q.x, k) - Times3(p.x, q.z, k)
            && Times(m.z, k) == Times3(p.w, q.z, k) + Times3(p.z, q.w, k) + Times3(p.x, q.y, k) - Times3(p.y, q.x, k)
            && Times(k, m.w) == Times3(k, p.w, q.w) - Times3(k, p.x, q.x) - Times3(k, p.y, q.y) - Times3(k, p.z, q.z)
            && Times(k, m.x) == Times3(k, p.w, q.x) + Times3(k, p.x, q.w) + Times3(k, p.y, q.z) - Times3(k, p.z, q.y)
            && Times(k, m.y) == Times3(k, p.w, q.y) + Times3(k, p.y, q.w) + Times3(k, p.z, q.x) - Times3(k, p.x, q.z)
            && Times(k, m.z) == Times3(k, p.w, q.z) + Times3(k, p.z, q.w) + Times3(k, p.x, q.y) - Times3(k, p.y, q.x)
  {
    hide *;
    var m := Mul(p, q);
    MulParts(p, q);
    DifferenceTimes(m.w, p.w, p.x, p.y, p.z, q.w, q.x, q.y, q.z, k);
    SumTimes(m.x, p.w, p.x, p.y, p.z, q.x, q.w, q.z, q.y, k);
    SumTimes(m.y, p.w, p.y, p.z, p.x, q.y, q.w, q.x, q.z, k);
    SumTimes(m.z, p.w, p.z, p.x, p.y, q.z, q.w, q.y, q.x, k);
  }

  lemma MulAssoc(p: Quat, q: Quat, r: Quat)
    ensures Mul(Mul(p, q), r) == Mul(p, Mul(q, r))
  {
    hide *;
    MulParts(Mul(p, q), r);
    MulParts(p, Mul(q, r));
    MulScaled(p, q, r.w); MulScaled(p, q, r.x); MulScaled(p, q, r.y); MulScaled(p, q, r.z);
    MulScaled(q, r, p.w); MulScaled(q, r, p.x); MulScaled(q, r, p.y); MulScaled(q, r, p.z);
  }

  lemma MulQuatAdd(p: Quat, q: Quat, r: Quat)
    ensures Mul(p, QuatAdd(q, r)) == QuatAdd(Mul(p, q), Mul(p, r))
    ensures Mul(QuatAdd(q, r), p) == QuatAdd(Mul(q, p), Mul(r, p))
  {
    hide Mul;
    hide Times;
    var s := QuatAdd(q, r);
    MulParts(p, s); MulParts(p, q); MulParts(p, r);
    MulParts(s, p); MulParts(q, p); MulParts(r, p);
    TimesQuatAdd(p.w, q, r); TimesQuatAdd(p.x, q, r); TimesQuatAdd(p.y, q, r); TimesQuatAdd(p.z, q, r);
  }

  lemma ConjMul(p: Quat, q: Quat)
    ensures Conj(Mul(p, q)) == Mul(Conj(q), Conj(p))
  {
    hide Mul;
    hide Times;
    var c, d := Conj(q), Conj(p);
    MulParts(p, q);
    MulParts(c, d);
    TimesConj(p.w, q); TimesConj(p.x, q); TimesConj(p.y, q); TimesConj(p.z, q);
    TimesConj(c.w, p); TimesConj(c.x, p); TimesConj(c.y, p); TimesConj(c.z, p);
  }

  lemma MulOne(q: Quat)
    ensures Mul(ONE, q) == q == Mul(q, ONE)
  {
  }

  /** A scalar commutes with every quaternion. */
  lemma ScalarCommutes(s: real, q: Quat)
    ensures Mul(FromParts(s, ZERO), q) == Mul(q, FromParts(s, ZERO))
  {
  }

  lemma DotParts(p: Quat, q: Quat)
    ensures QuatDot(p, q) == Times(p.w, q.w) + Times(p.x, q.x) + Times(p.y, q.y) + Times(p.z, q.z)
  {
  }

  /** The quaternion dot product is the scalar part of p q*. */
  lemma DotIsProduct(p: Quat, q: Quat)
    ensures QuatDot(p, q) == Mul(p, Conj(q)).w
  {
    hide *;
    DotParts(p, q);
    MulParts(p, Conj(q));
    TimesConj(p.w, q); TimesConj(p.x, q); TimesConj(p.y, q); TimesConj(p.z, q);
  }

  lemma UnitInverse(q: Quat)
    requires Unit(q)
    ensures Mul(q, Conj(q)) == ONE == Mul(Conj(q), q)
    ensures Unit(Conj(q)) && Conj(Conj(q)) == q
  {
    DotIsProduct(q, q);
    var c := Conj(q);
    hide Mul;
    hide QuatDot;
    assert Unit(c) by {
      DotIsProduct(c, c);
      MulParts(q, c);
      MulParts(c, q);
      TimesSwap(q, c);
    }
    hide Times;
    MulParts(q, c);
    MulParts(c, q);
    TimesConj(q.w, q); TimesConj(q.x, q); TimesConj(q.y, q); TimesConj(q.z, q);
    TimesCommute(q.x, q.y); TimesCommute(q.x, q.z); TimesCommute(q.y, q.z);
    TimesCommute(q.w, q.x); TimesCommute(q.w, q.y); TimesCommute(q.w, q.z);
  }

  lemma TimesSwap(p: Quat, q: Quat)
    ensures Times(p.w, q.w) == Times(q.w, p.w) && Times(p.x, q.x) == Times(q.x, p.x)
    ensures Times(p.y, q.y) == Times(q.y, p.y) && Times(p.z, q.z) == Times(q.z, p.z)
  {
  }

  lemma TimesCommute(a: real, b: real)
    ensures Times(a, b) == Times(b, a)
  {
  }

  lemma UnitMul(p: Quat, q: Quat)
    requires Unit(p) && Unit(q)
    ensures Unit(Mul(p, q))
  {
    hide *;
    DotRightInvariant(p, p, q);
    UnitIff(p); UnitIff(Mul(p, q));
  }

  lemma UnitIff(q: Quat)
    ensures Unit(q) <==> QuatDot(q, q) == 1.0
  {
  }

  /** Multiplying both quaternions on the right by one unit quaternion keeps their dot product. */
  lemma DotRightInvariant(p: Quat, q: Quat, r: Quat)
    requires Unit(r)
    ensures QuatDot(Mul(p, r), Mul(q, r)) == QuatDot(p, q)
  {
    hide *;
    DotIsProduct(Mul(p, r), Mul(q, r));
    DotIsProduct(p, q);
    ConjMul(q, r);
    calc {
      Mul(Mul(p, r), Mul(Conj(r), Conj(q)));
      { MulAssoc(p, r, Mul(Conj(r), Conj(q))); }
      Mul(p, Mul(r, Mul(Conj(r), Conj(q))));
      { MulAssoc(r, Conj(r), Conj(q)); }
      Mul(p, Mul(Mul(r, Conj(r)), Conj(q)));
      { UnitInverse(r); MulOne(Conj(q)); }
      Mul(p, Conj(q));
    }
  }

  // ----- rotations -----

  lemma PureInjective(a: Vec3, b: Vec3)
    requires FromParts(0.0, a) == FromParts(0.0, b)
    ensures a == b
  {
  }

  /** q v q* is a pure quaternion, whatever the norm of q. */
  lemma RotatePure(q: Quat, v: Vec3)
    ensures Mul(Mul(q, FromParts(0.0, v)), Conj(q)) == FromParts(0.0, Rotate(q, v))
  {
    hide Mul;
    hide Times;
    var p := FromParts(0.0, v);
    var s := Mul(Mul(q, p), Conj(q));
    calc {
      Conj(s);
      { ConjMul(Mul(q, p), Conj(q)); ConjMul(q, p); }
      Mul(q, Mul(Conj(p), Conj(q)));
      { MulAssoc(q, Conj(p), Conj(q)); }
      Mul(Mul(q, Conj(p)), Conj(q));
    }
    var z := QuatAdd(p, Conj(p));
    calc {
      QuatAdd(s, Conj(s));
      { MulQuatAdd(Conj(q), Mul(q, p), Mul(q, Conj(p))); MulQuatAdd(q, p, Conj(p)); }
      Mul(Mul(q, z), Conj(q));
      { MulZero(q, z); MulZero(Conj(q), z); }
      z;
    }
  }

  lemma MulZero(q: Quat, z: Quat)
    requires z == FromParts(0.0, ZERO)
    ensures Mul(q, z) == z == Mul(z, q)
  {
  }

  lemma RotateMul(p: Quat, q: Quat, v: Vec3)
    ensures Rotate(Mul(p, q), v) == Rotate(p, Rotate(q, v))
  {
    hide *;
    var V, c, d := FromParts(0.0, v), Conj(p), Conj(q);
    calc {
      FromParts(0.0, Rotate(Mul(p, q), v));
      { RotatePure(Mul(p, q), v); ConjMul(p, q); }
      Mul(Mul(Mul(p, q), V), Mul(d, c));
      { MulAssoc(p, q, V); MulAssoc(Mul(p, Mul(q, V)), d, c); }
      Mul(Mul(Mul(p, Mul(q, V)), d), c);
      { MulAssoc(p, Mul(q, V), d); RotatePure(q, v); }
      Mul(Mul(p, FromParts(0.0, Rotate(q, v))), c);
      { RotatePure(p, Rotate(q, v)); }
      FromParts(0.0, Rotate(p, Rotate(q, v)));
    }
    PureInjective(Rotate(Mul(p, q), v), Rotate(p, Rotate(q, v)));
  }

  lemma RotateOne(v: Vec3)
    ensures Rotate(ONE, v) == v
  {
    ConjOne();
    hide *;
    RotatePure(ONE, v);
    MulOne(FromParts(0.0, v));
    PureInjective(Rotate(ONE, v), v);
  }

  lemma ConjOne()
    ensures Conj(ONE) == ONE
  {
  }

  lemma RotateInverse(q: Quat, v: Vec3)
    requires Unit(q)
    ensures Rotate(Conj(q), Rotate(q, v)) == v == Rotate(q, Rotate(Conj(q), v))
  {
    hide *;
    UnitInverse(q);
    RotateMul(Conj(q), q, v);
    RotateMul(q, Conj(q), v);
    RotateOne(v);
  }

  lemma PureAdd(a: Vec3, b: Vec3)
    ensures FromParts(0.0, Add(a, b)) == QuatAdd(FromParts(0.0, a), FromParts(0.0, b))
  {
  }

  lemma RotateAdd(q: Quat, a: Vec3, b: Vec3)
    ensures Rotate(q, Add(a, b)) == Add(Rotate(q, a), Rotate(q, b))
  {
    hide *;
    var A, B := FromParts(0.0, a), FromParts(0.0, b);
    calc {
      FromParts(0.0, Rotate(q, Add(a, b)));
      { RotatePure(q, Add(a, b)); PureAdd(a, b); }
      Mul(Mul(q, QuatAdd(A, B)), Conj(q));
      { MulQuatAdd(q, A, B); MulQuatAdd(Conj(q), Mul(q, A), Mul(q, B)); }
      QuatAdd(Mul(Mul(q, A), Conj(q)), Mul(Mul(q, B), Conj(q)));
      { RotatePure(q, a); RotatePure(q, b); PureAdd(Rotate(q, a), Rotate(q, b)); }
      FromParts(0.0, Add(Rotate(q, a), Rotate(q, b)));
    }
    PureInjective(Rotate(q, Add(a, b)), Add(Rotate(q, a), Rotate(q, b)));
  }

  lemma RotateZero(q: Quat)
    ensures Rotate(q, ZERO) == ZERO
  {
    hide Mul;
    var z := FromParts(0.0, ZERO);
    MulZero(q, z);
    MulZero(Conj(q), z);
  }

  lemma RotateNeg(q: Quat, v: Vec3)
    ensures Rotate(q, Neg(v)) == Neg(Rotate(q, v))
  {
    RotateAdd(q, v, Neg(v));
    RotateZero(q);
    hide Rotate;
    assert Add(v, Neg(v)) == ZERO;
  }

  /** The product of two pure quaternions carries both the dot and the cross product. */
  lemma PureProduct(a: Vec3, b: Vec3)
    ensures Mul(FromParts(0.0, a), FromParts(0.0, b)) == FromParts(-Dot(a, b), Cross(a, b))
  {
  }

  lemma SplitParts(s: real, v: Vec3)
    ensures FromParts(s, v) == QuatAdd(FromParts(s, ZERO), FromParts(0.0, v))
  {
  }

  /** A unit quaternion leaves the scalar part alone and rotates the vector part. */
  lemma RotateParts(q: Quat, s: real, v: Vec3)
    requires Unit(q)
    ensures Mul(Mul(q, FromParts(s, v)), Conj(q)) == FromParts(s, Rotate(q, v))
  {
    hide *;
    var S, V, c := FromParts(s, ZERO), FromParts(0.0, v), Conj(q);
    calc {
      Mul(Mul(q, FromParts(s, v)), c);
      { SplitParts(s, v); MulQuatAdd(q, S, V); MulQuatAdd(c, Mul(q, S), Mul(q, V)); }
      QuatAdd(Mul(Mul(q, S), c), Mul(Mul(q, V), c));
      { ScalarCommutes(s, q); MulAssoc(S, q, c); UnitInverse(q); MulOne(S); }
      QuatAdd(S, Mul(Mul(q, V), c));
      { RotatePure(q, v); SplitParts(s, Rotate(q, v)); }
      FromParts(s, Rotate(q, v));
    }
  }

  /** Rotations preserve dot and cross products. */
  lemma RotateProducts(q: Quat, a: Vec3, b: Vec3)
    requires Unit(q)
    ensures Dot(Rotate(q, a), Rotate(q, b)) == Dot(a, b)
    ensures Cross(Rotate(q, a), Rotate(q, b)) == Rotate(q, Cross(a, b))
  {
    hide *;
    var A, B, c := FromParts(0.0, a), FromParts(0.0, b), Conj(q);
    calc {
      FromParts(-Dot(Rotate(q, a), Rotate(q, b)), Cross(Rotate(q, a), Rotate(q, b)));
      { PureProduct(Rotate(q, a), Rotate(q, b)); }
      Mul(FromParts(0.0, Rotate(q, a)), FromParts(0.0, Rotate(q, b)));
      { RotatePure(q, a); RotatePure(q, b); }
      Mul(Mul(Mul(q, A), c), Mul(Mul(q, B), c));
      { MulAssoc(Mul(Mul(q, A), c), Mul(q, B), c); }
      Mul(Mul(Mul(Mul(q, A), c), Mul(q, B)), c);
      { MulAssoc(Mul(q, A), c, Mul(q, B)); MulAssoc(c, q, B); UnitInverse(q); MulOne(B); }
      Mul(Mul(Mul(q, A), B), c);
      { MulAssoc(q, A, B); PureProduct(a, b); }
      Mul(Mul(q, FromParts(-Dot(a, b), Cross(a, b))), c);
      { RotateParts(q, -Dot(a, b), Cross(a, b)); }
      FromParts(-Dot(a, b), Rotate(q, Cross(a, b)));
    }
    PartsInjective(-Dot(Rotate(q, a), Rotate(q, b)), Cross(Rotate(q, a), Rotate(q, b)),
                   -Dot(a, b), Rotate(q, Cross(a, b)));
  }

  lemma PartsInjective(s: real, a: Vec3, t: real, b: Vec3)
    requires FromParts(s, a) == FromParts(t, b)
    ensures s == t && a == b
  {
  }

  lemma CrossAdd(a: Vec3, b: Vec3, c: Vec3)
    ensures Cross(a, Add(b, c)) == Add(Cross(a, b), Cross(a, c))
  {
    TimesVecAdd(a.x, b, c); TimesVecAdd(a.y, b, c); TimesVecAdd(a.z, b, c);
    CrossParts(a, b); CrossParts(a, c); CrossParts(a, Add(b, c));
    hide Times;
    hide Cross;
  }

  lemma CrossParts(a: Vec3, b: Vec3)
    ensures Cross(a, b).x == Times(a.y, b.z) - Times(a.z, b.y)
    ensures Cross(a, b).y == Times(a.z, b.x) - Times(a.x, b.z)
    ensures Cross(a, b).z == Times(a.x, b.y) - Times(a.y, b.x)
  {
  }

  lemma TimesVecAdd(k: real, b: Vec3, c: Vec3)
    ensures Times(k, Add(b, c).x) == Times(k, b.x) + Times(k, c.x)
    ensures Times(k, Add(b, c).y) == Times(k, b.y) + Times(k, c.y)
    ensures Times(k, Add(b, c).z) == Times(k, b.z) + Times(k, c.z)
  {
    hide Times;
    TimesAdd(k, b.x, c.x, b.x + c.x);
    TimesAdd(k, b.y, c.y, b.y + c.y);
    TimesAdd(k, b.z, c.z, b.z + c.z);
  }

  // ----- lengths, compared without square roots -----

  lemma SquareNonnegative(r: real)
    ensures r * r >= 0.0
  {
  }

  /** If |a|^2 <= r^2 and |b|^2 <= s^2 then a . b <= r s: the bound behind the triangle inequality. */
  lemma DotBound(a: Vec3, b: Vec3, r: real, s: real)
    requires r >= 0.0 && s >= 0.0
    requires NormSquared(a) <= r * r && NormSquared(b) <= s * s
    ensures Dot(a, b) <= r * s
  {
    if r == 0.0 {
      ZeroNorm(a);
    } else if s == 0.0 {
      ZeroNorm(b);
    } else {
      DotBoundPositive(a, b, r, s);
    }
  }

  lemma ZeroNorm(a: Vec3)
    requires NormSquared(a) <= 0.0
    ensures a == ZERO
  {
    hide NormSquared;
    hide Dot;
    hide Times;
    SquareZero(a.x); SquareZero(a.y); SquareZero(a.z);
    VecDotParts(a, a);
  }

  lemma SquareZero(r: real)
    ensures Times(r, r) >= 0.0
    ensures Times(r, r) <= 0.0 ==> r == 0.0
  {
    if r != 0.0 {
      TimesPositive(r, r);
    }
  }

  lemma TimesPositive(a: real, b: real)
    requires (a > 0.0 && b > 0.0) || (a < 0.0 && b < 0.0)
    ensures Times(a, b) > 0.0
  {
  }

  /** |s a - r b|^2 >= 0, expanded, from its three components; k, l and m stand for s^2, 2 r s and r^2. */
  lemma DifferenceNorm(a: Vec3, b: Vec3, k: real, l: real, m: real)
    requires Times(k, Times(a.x, a.x)) - Times(l, Times(a.x, b.x)) + Times(m, Times(b.x, b.x)) >= 0.0
    requires Times(k, Times(a.y, a.y)) - Times(l, Times(a.y, b.y)) + Times(m, Times(b.y, b.y)) >= 0.0
    requires Times(k, Times(a.z, a.z)) - Times(l, Times(a.z, b.z)) + Times(m, Times(b.z, b.z)) >= 0.0
    ensures Times(k, NormSquared(a)) - Times(l, Dot(a, b)) + Times(m, NormSquared(b)) >= 0.0
  {
    hide *;
    VecDotParts(a, a); VecDotParts(a, b); VecDotParts(b, b);
    TimesSum(k, Times(a.x, a.x), Times(a.y, a.y), Times(a.z, a.z), NormSquared(a));
    TimesSum(l, Times(a.x, b.x), Times(a.y, b.y), Times(a.z, b.z), Dot(a, b));
    TimesSum(m, Times(b.x, b.x), Times(b.y, b.y), Times(b.z, b.z), NormSquared(b));
  }

  lemma VecDotParts(a: Vec3, b: Vec3)
    ensures Dot(a, b) == Times(a.x, b.x) + Times(a.y, b.y) + Times(a.z, b.z)
    ensures NormSquared(a) == Dot(a, a)
  {
  }

  lemma TimesSum(k: real, x: real, y: real, z: real, s: real)
    requires s == x + y + z
    ensures Times(k, s) == Times(k, x) + Times(k, y) + Times(k, z)
  {
  }

  lemma ScalarDifference(a: real, b: real, k: real, l: real, m: real, r: real, s: real)
    requires k == s * s && l == 2.0 * r * s && m == r * r
    ensures Times(k, Times(a, a)) - Times(l, Times(a, b)) + Times(m, Times(b, b)) >= 0.0
  {
    SquareNonnegative(s * a - r * b);
    assert (s * a - r * b) * (s * a - r * b) == s * s * (a * a) - 2.0 * r * s * (a * b) + r * r * (b * b);
  }

  lemma DotBoundPositive(a: Vec3, b: Vec3, r: real, s: real)
    requires r > 0.0 && s > 0.0
    requires NormSquared(a) <= r * r && NormSquared(b) <= s * s
    ensures Dot(a, b) <= r * s
  {
    hide *;
    var k, l, m := s * s, 2.0 * r * s, r * r;
    ScalarDifference(a.x, b.x, k, l, m, r, s);
    ScalarDifference(a.y, b.y, k, l, m, r, s);
    ScalarDifference(a.z, b.z, k, l, m, r, s);
    DifferenceNorm(a, b, k, l, m);
    ScalarDotBound(NormSquared(a), NormSquared(b), Dot(a, b), k, l, m, r, s);
  }

  lemma ScalarDotBound(A: real, B: real, D: real, k: real, l: real, m: real, r: real, s: real)
    requires r > 0.0 && s > 0.0
    requires k == s * s && l == 2.0 * r * s && m == r * r
    requires A <= m && B <= k
    requires Times(k, A) - Times(l, D) + Times(m, B) >= 0.0
    ensures D <= r * s
  {
    var p := r * s;
    PositiveProduct(r, s);
    SquareNonnegative(s); SquareNonnegative(r);
    TimesMonotone(k, A, m); TimesMonotone(m, B, k);
    assert Times(k, m) == p * p && Times(m, k) == p * p by {
      assert (s * s) * (r * r) == (r * s) * (r * s);
    }
    assert Times(l, D) == 2.0 * (p * D);
    if D > p {
      TimesStrict(p, D, p);
    }
  }

  lemma PositiveProduct(r: real, s: real)
    requires r > 0.0 && s > 0.0
    ensures r * s > 0.0
  {
  }

  lemma TimesMonotone(k: real, x: real, y: real)
    requires k >= 0.0 && x <= y
    ensures Times(k, x) <= Times(k, y)
  {
  }

  lemma TimesStrict(k: real, x: real, y: real)
    requires k > 0.0 && x > y
    ensures k * x > k * y
  {
  }

  /** The triangle inequality on squared lengths. */
  lemma TriangleInequality(a: Vec3, b: Vec3, r: real, s: real)
    requires r >= 0.0 && s >= 0.0
    requires NormSquared(a) <= r * r && NormSquared(b) <= s * s
    ensures NormSquared(Add(a, b)) <= (r + s) * (r + s)
  {
    hide NormSquared;
    hide Dot;
    DotBound(a, b, r, s);
    NormOfSum(a, b);
    assert (r + s) * (r + s) == r * r + 2.0 * (r * s) + s * s;
  }

  lemma NormOfSum(a: Vec3, b: Vec3)
    ensures NormSquared(Add(a, b)) == NormSquared(a) + 2.0 * Dot(a, b) + NormSquared(b)
  {
    SquareOfSum(a.x, b.x, a.x + b.x); SquareOfSum(a.y, b.y, a.y + b.y); SquareOfSum(a.z, b.z, a.z + b.z);
  }

  lemma SquareOfSum(a: real, b: real, c: real)
    requires c == a + b
    ensures c * c == a * a + 2.0 * (a * b) + b * b
  {
  }

  lemma NormNeg(a: Vec3)
    ensures NormSquared(Neg(a)) == NormSquared(a)
  {
    SquareNeg(a.x, -a.x); SquareNeg(a.y, -a.y); SquareNeg(a.z, -a.z);
  }

  lemma SquareNeg(a: real, n: real)
    requires n == -a
    ensures n * n == a * a
  {
  }

  lemma RotateNorm(q: Quat, v: Vec3)
    requires Unit(q)
    ensures NormSquared(Rotate(q, v)) == NormSquared(v)
  {
    RotateProducts(q, v, v);
    hide Rotate;
    hide Dot;
  }

  // ----- a rotation and its two quaternions -----

  function QuatNeg(q: Quat): Quat {
    Quat(-q.w, -q.x, -q.y, -q.z)
  }

  lemma SquareOfDifference(a: real, b: real, d: real)
    requires d == a - b
    ensures Times(d, d) == Times(a, a) - 2.0 * Times(a, b) + Times(b, b)
  {
  }

  /** Unit quaternions whose product as vectors reaches one are the same. */
  lemma UnitDotReachesOne(p: Quat, q: Quat)
    requires Unit(p) && Unit(q) && QuatDot(p, q) >= 1.0
    ensures p == q
  {
    DotParts(p, p);
    DotParts(p, q);
    DotParts(q, q);
    UnitIff(p);
    UnitIff(q);
    hide *;
    SquareOfDifference(p.w, q.w, p.w - q.w); SquareOfDifference(p.x, q.x, p.x - q.x);
    SquareOfDifference(p.y, q.y, p.y - q.y); SquareOfDifference(p.z, q.z, p.z - q.z);
    SquareZero(p.w - q.w); SquareZero(p.x - q.x); SquareZero(p.y - q.y); SquareZero(p.z - q.z);
  }

  lemma QuatNegDot(p: Quat, q: Quat)
    ensures QuatDot(p, QuatNeg(q)) == -QuatDot(p, q)
    ensures QuatDot(QuatNeg(q), QuatNeg(q)) == QuatDot(q, q)
  {
    hide Times;
    DotParts(p, q);
    DotParts(q, q);
    DotParts(p, QuatNeg(q));
    DotParts(QuatNeg(q), QuatNeg(q));
    TimesNeg(p.w, q.w, -q.w); TimesNeg(p.x, q.x, -q.x); TimesNeg(p.y, q.y, -q.y); TimesNeg(p.z, q.z, -q.z);
    TimesNeg(q.w, q.w, -q.w); TimesNeg(q.x, q.x, -q.x); TimesNeg(q.y, q.y, -q.y); TimesNeg(q.z, q.z, -q.z);
    TimesNeg(-q.w, q.w, -q.w); TimesNeg(-q.x, q.x, -q.x); TimesNeg(-q.y, q.y, -q.y); TimesNeg(-q.z, q.z, -q.z);
    hide QuatDot;
  }

  lemma TimesQuatNeg(a: real, q: Quat)
    ensures Times(a, QuatNeg(q).w) == -Times(a, q.w) && Times(QuatNeg(q).w, a) == -Times(q.w, a)
    ensures Times(a, QuatNeg(q).x) == -Times(a, q.x) && Times(QuatNeg(q).x, a) == -Times(q.x, a)
    ensures Times(a, QuatNeg(q).y) == -Times(a, q.y) && Times(QuatNeg(q).y, a) == -Times(q.y, a)
    ensures Times(a, QuatNeg(q).z) == -Times(a, q.z) && Times(QuatNeg(q).z, a) == -Times(q.z, a)
  {
    hide Times;
    TimesNeg(a, q.w, -q.w);
    TimesNeg(a, q.x, -q.x);
    TimesNeg(a, q.y, -q.y);
    TimesNeg(a, q.z, -q.z);
  }

  lemma MulQuatNeg(p: Quat, q: Quat)
    ensures Mul(QuatNeg(p), q) == QuatNeg(Mul(p, q)) == Mul(p, QuatNeg(q))
  {
    hide Times;
    MulParts(p, q);
    MulParts(QuatNeg(p), q);
    MulParts(p, QuatNeg(q));
    TimesQuatNeg(q.w, p); TimesQuatNeg(q.x, p); TimesQuatNeg(q.y, p); TimesQuatNeg(q.z, p);
    TimesQuatNeg(p.w, q); TimesQuatNeg(p.x, q); TimesQuatNeg(p.y, q); TimesQuatNeg(p.z, q);
    hide Mul;
  }

  /** A quaternion and its negative rotate alike. */
  lemma RotateQuatNeg(q: Quat, v: Vec3)
    ensures Rotate(QuatNeg(q), v) == Rotate(q, v)
  {
    var u := Mul(q, FromParts(0.0, v));
    assert Conj(QuatNeg(q)) == QuatNeg(Conj(q));
    assert QuatNeg(QuatNeg(Mul(u, Conj(q)))) == Mul(u, Conj(q));
    hide Mul;
    MulQuatNeg(q, FromParts(0.0, v));
    MulQuatNeg(u, QuatNeg(Conj(q)));
    MulQuatNeg(u, Conj(q));
  }

  // ----- which rotations fix every vector -----

  lemma ConjFlips(p: Quat, q: Quat)
    ensures QuatDot(Conj(p), Conj(q)) == QuatDot(p, q)
  {
  }

  lemma DotLeftInvariant(r: Quat, p: Quat, q: Quat)
    requires Unit(r)
    ensures QuatDot(Mul(r, p), Mul(r, q)) == QuatDot(p, q)
  {
    UnitInverse(r);
    hide *;
    ConjFlips(Mul(r, p), Mul(r, q));
    ConjMul(r, p);
    ConjMul(r, q);
    DotRightInvariant(Conj(p), Conj(q), Conj(r));
    ConjFlips(p, q);
  }

  lemma DotCommutes(p: Quat, q: Quat)
    ensures QuatDot(p, q) == QuatDot(q, p)
  {
  }

  /** A rotation that fixes a vector commutes with it. */
  lemma FixedCommutes(q: Quat, v: Vec3)
    requires Unit(q) && Rotate(q, v) == v
    ensures Mul(q, FromParts(0.0, v)) == Mul(FromParts(0.0, v), q)
  {
    hide *;
    var V := FromParts(0.0, v);
    RotatePure(q, v);
    MulAssoc(Mul(q, V), Conj(q), q);
    UnitInverse(q);
    MulOne(Mul(q, V));
  }

  lemma CommutesWithAxes(q: Quat)
    requires Mul(q, Quat(0.0, 1.0, 0.0, 0.0)) == Mul(Quat(0.0, 1.0, 0.0, 0.0), q)
    requires Mul(q, Quat(0.0, 0.0, 1.0, 0.0)) == Mul(Quat(0.0, 0.0, 1.0, 0.0), q)
    ensures q.x == 0.0 && q.y == 0.0 && q.z == 0.0
  {
  }

  lemma SquareOne(r: real)
    requires r * r == 1.0
    ensures r == 1.0 || r == -1.0
  {
    assert (r - 1.0) * (r + 1.0) == 0.0;
  }

  lemma UnitScalar(q: Quat)
    requires Unit(q) && q.x == 0.0 && q.y == 0.0 && q.z == 0.0
    ensures q == ONE || q == QuatNeg(ONE)
  {
    assert q.w * q.w == 1.0;
    hide Unit;
    SquareOne(q.w);
  }

  lemma FixesAxes(q: Quat)
    requires Unit(q) && Rotate(q, Vec3(1.0, 0.0, 0.0)) == Vec3(1.0, 0.0, 0.0)
    requires Rotate(q, Vec3(0.0, 1.0, 0.0)) == Vec3(0.0, 1.0, 0.0)
    ensures q == ONE || q == QuatNeg(ONE)
  {
    hide Rotate;
    hide Mul;
    hide Unit;
    FixedCommutes(q, Vec3(1.0, 0.0, 0.0));
    FixedCommutes(q, Vec3(0.0, 1.0, 0.0));
    CommutesWithAxes(q);
    UnitScalar(q);
  }

  /** Exactly one and minus one fix every vector. */
  lemma FixesAll(q: Quat)
    requires Unit(q)
    ensures (forall v :: Rotate(q, v) == v) <==> q == ONE || q == QuatNeg(ONE)
  {
    hide Rotate;
    hide Unit;
    hide QuatNeg;
    if q == ONE || q == QuatNeg(ONE) {
      forall v ensures Rotate(q, v) == v {
        RotateOne(v);
        RotateQuatNeg(ONE, v);
      }
    } else if Rotate(q, Vec3(1.0, 0.0, 0.0)) == Vec3(1.0, 0.0, 0.0)
              && Rotate(q, Vec3(0.0, 1.0, 0.0)) == Vec3(0.0, 1.0, 0.0) {
      FixesAxes(q);
    }
  }

  lemma SubNorms(a: Vec3, b: Vec3)
    ensures NormSquared(Sub(a, b)) == NormSquared(Sub(b, a))
  {
    NormNeg(Sub(a, b));
    assert Neg(Sub(a, b)) == Sub(b, a);
    hide NormSquared;
  }

  // ----- how far apart two rotations carry a vector -----

  /** The squared distance between the images of a vector under two rotations. */
  function Apart(p: Quat, q: Quat, v: Vec3): real {
    NormSquared(Sub(Rotate(p, v), Rotate(q, v)))
  }

  lemma SelfProduct(q: Quat)
    ensures Mul(q, Conj(q)) == FromParts(QuatDot(q, q), ZERO)
  {
    DotIsProduct(q, q);
    hide QuatDot;
    hide Times;
    MulParts(q, Conj(q));
    hide Mul;
    TimesConj(q.w, q); TimesConj(q.x, q); TimesConj(q.y, q); TimesConj(q.z, q);
    TimesCommute(q.x, q.y); TimesCommute(q.x, q.z); TimesCommute(q.y, q.z);
    TimesCommute(q.w, q.x); TimesCommute(q.w, q.y); TimesCommute(q.w, q.z);
  }

  lemma ScalarProduct(a: real, b: real)
    ensures Mul(FromParts(a, ZERO), FromParts(b, ZERO)).w == Times(a, b)
  {
  }

  /** The squared length of a product is the product of the squared lengths. */
  lemma NormMul(p: Quat, q: Quat)
    ensures QuatDot(Mul(p, q), Mul(p, q)) == Times(QuatDot(q, q), QuatDot(p, p))
  {
    hide *;
    var N := FromParts(QuatDot(q, q), ZERO);
    DotIsProduct(Mul(p, q), Mul(p, q));
    ConjMul(p, q);
    MulAssoc(p, q, Mul(Conj(q), Conj(p)));
    MulAssoc(q, Conj(q), Conj(p));
    SelfProduct(q);
    MulAssoc(p, N, Conj(p));
    ScalarCommutes(QuatDot(q, q), p);
    MulAssoc(N, p, Conj(p));
    SelfProduct(p);
    ScalarProduct(QuatDot(q, q), QuatDot(p, p));
  }

  lemma QuatNorm(s: real, v: Vec3)
    ensures QuatDot(FromParts(s, v), FromParts(s, v)) == Times(s, s) + NormSquared(v)
  {
  }

  lemma ZeroTimes(a: real)
    ensures Times(0.0, a) == 0.0 && Times(-a, -a) == Times(a, a)
  {
  }

  /** |a x b|^2 + (a . b)^2 = |a|^2 |b|^2. */
  lemma Lagrange(a: Vec3, b: Vec3)
    ensures NormSquared(Cross(a, b)) + Times(Dot(a, b), Dot(a, b)) == Times(NormSquared(b), NormSquared(a))
  {
    hide *;
    NormMul(FromParts(0.0, a), FromParts(0.0, b));
    PureProduct(a, b);
    QuatNorm(-Dot(a, b), Cross(a, b));
    QuatNorm(0.0, a);
    QuatNorm(0.0, b);
    ZeroTimes(0.0);
    ZeroTimes(Dot(a, b));
  }

  function Twice(v: Vec3): Vec3 {
    Vec3(2.0 * v.x, 2.0 * v.y, 2.0 * v.z)
  }

  lemma TwiceNorm(v: Vec3)
    ensures NormSquared(Twice(v)) == 4.0 * NormSquared(v)
  {
  }

  lemma CrossAndProduct(a: Vec3, r: Quat)
    ensures Mul(FromParts(0.0, a), r).w == Mul(r, FromParts(0.0, a)).w
    ensures var c, left, right := Cross(a, VectorPart(r)), Mul(FromParts(0.0, a), r), Mul(r, FromParts(0.0, a));
            && left.x == Times(a.x, r.w) + c.x && right.x == Times(a.x, r.w) - c.x
            && left.y == Times(a.y, r.w) + c.y && right.y == Times(a.y, r.w) - c.y
            && left.z == Times(a.z, r.w) + c.z && right.z == Times(a.z, r.w) - c.z
  {
    var A := FromParts(0.0, a);
    MulParts(A, r);
    MulParts(r, A);
    CrossParts(a, VectorPart(r));
    ZeroTimes(r.w); ZeroTimes(r.x); ZeroTimes(r.y); ZeroTimes(r.z);
    hide Mul;
    hide Times;
    hide Cross;
    TimesCommute(0.0, r.w); TimesCommute(0.0, r.x); TimesCommute(0.0, r.y); TimesCommute(0.0, r.z);
    TimesCommute(a.x, r.w); TimesCommute(a.x, r.x); TimesCommute(a.x, r.y); TimesCommute(a.x, r.z);
    TimesCommute(a.y, r.w); TimesCommute(a.y, r.x); TimesCommute(a.y, r.y); TimesCommute(a.y, r.z);
    TimesCommute(a.z, r.w); TimesCommute(a.z, r.x); TimesCommute(a.z, r.y); TimesCommute(a.z, r.z);
  }

  /** v r - r v is twice the cross product of v with the vector part of r. */
  lemma Commutator(r: Quat, v: Vec3)
    ensures QuatAdd(Mul(FromParts(0.0, v), r), QuatNeg(Mul(r, FromParts(0.0, v)))) ==
            FromParts(0.0, Twice(Cross(v, VectorPart(r))))
  {
    CrossAndProduct(v, r);
    hide Mul;
    hide Times;
    hide Cross;
  }

  lemma PureDifference(a: Vec3, b: Vec3)
    ensures QuatAdd(FromParts(0.0, a), QuatNeg(FromParts(0.0, b))) == FromParts(0.0, Sub(a, b))
  {
  }

  /** A unit quaternion moves a vector by twice its cross product with the quaternion's vector part. */
  lemma MovedBy(r: Quat, v: Vec3)
    requires Unit(r)
    ensures NormSquared(Sub(v, Rotate(r, v))) == 4.0 * NormSquared(Cross(v, VectorPart(r)))
  {
    hide *;
    var V, W := FromParts(0.0, v), FromParts(0.0, Rotate(r, v));
    var D := QuatAdd(V, QuatNeg(W));
    PureDifference(v, Rotate(r, v));
    QuatNorm(0.0, Sub(v, Rotate(r, v)));
    ZeroTimes(0.0);
    DotRightInvariant(D, D, r);
    MulQuatAdd(r, V, QuatNeg(W));
    MulQuatNeg(W, r);
    RotatePure(r, v);
    MulAssoc(Mul(r, V), Conj(r), r);
    UnitInverse(r);
    MulOne(Mul(r, V));
    Commutator(r, v);
    QuatNorm(0.0, Twice(Cross(v, VectorPart(r))));
    TwiceNorm(Cross(v, VectorPart(r)));
  }

  /** The rotation from p to q, seen from p. */
  function Between(p: Quat, q: Quat): Quat {
    Mul(Conj(p), q)
  }

  lemma BetweenMeans(p: Quat, q: Quat)
    requires Unit(p) && Unit(q)
    ensures Unit(Between(p, q)) && Mul(p, Between(p, q)) == q
    ensures Between(p, q).w == QuatDot(p, q)
  {
    UnitInverse(p);
    UnitInverse(q);
    UnitMul(Conj(p), q);
    hide Unit;
    hide Mul;
    hide QuatDot;
    hide Conj;
    MulAssoc(p, Conj(p), q);
    MulOne(q);
    DotIsProduct(Conj(p), Conj(q));
    ConjFlips(p, q);
  }

  lemma RotatedDifference(p: Quat, a: Vec3, b: Vec3)
    requires Unit(p)
    ensures NormSquared(Sub(Rotate(p, a), Rotate(p, b))) == NormSquared(Sub(a, b))
  {
    hide Rotate;
    hide Unit;
    RotateAdd(p, a, Neg(b));
    RotateNeg(p, b);
    RotateNorm(p, Sub(a, b));
    hide NormSquared;
    assert Add(a, Neg(b)) == Sub(a, b);
    assert Add(Rotate(p, a), Neg(Rotate(p, b))) == Sub(Rotate(p, a), Rotate(p, b));
  }

  /** How far apart, exactly. */
  lemma ApartExactly(p: Quat, q: Quat, v: Vec3)
    requires Unit(p) && Unit(q)
    ensures Apart(p, q, v) == 4.0 * NormSquared(Cross(v, VectorPart(Between(p, q))))
  {
    BetweenMeans(p, q);
    var r := Between(p, q);
    hide Unit;
    hide Rotate;
    hide Mul;
    hide Between;
    hide NormSquared;
    hide Sub;
    hide Cross;
    hide VectorPart;
    RotateMul(p, r, v);
    RotatedDifference(p, v, Rotate(r, v));
    MovedBy(r, v);
  }

  /** The squared sine of half the angle between two rotations. */
  function HalfTurnSquared(p: Quat, q: Quat): real {
    1.0 - QuatDot(p, q) * QuatDot(p, q)
  }

  lemma VectorPartNorm(r: Quat)
    requires Unit(r)
    ensures NormSquared(VectorPart(r)) == 1.0 - r.w * r.w
  {
    QuatNorm(r.w, VectorPart(r));
    assert FromParts(r.w, VectorPart(r)) == r;
    hide NormSquared;
    hide QuatDot;
  }

  lemma BetweenNorm(p: Quat, q: Quat)
    requires Unit(p) && Unit(q)
    ensures NormSquared(VectorPart(Between(p, q))) == HalfTurnSquared(p, q)
  {
    hide Unit;
    hide NormSquared;
    hide QuatDot;
    hide Between;
    BetweenMeans(p, q);
    VectorPartNorm(Between(p, q));
  }

  /** Some vector is orthogonal to any given one. */
  function Orthogonal(u: Vec3): Vec3 {
    if u.x == 0.0 && u.y == 0.0 then Vec3(1.0, 0.0, 0.0) else Vec3(-u.y, u.x, 0.0)
  }

  lemma OrthogonalMeans(u: Vec3)
    ensures Dot(Orthogonal(u), u) == 0.0 && NormSquared(Orthogonal(u)) > 0.0
  {
    var v := Orthogonal(u);
    if u.x != 0.0 || u.y != 0.0 {
      SquareZero(u.x);
      SquareZero(u.y);
      assert v.x * v.x == Times(u.y, u.y) && v.y * v.y == Times(u.x, u.x);
    }
  }

  /**
   With d the dot product of two unit quaternions, no vector v is carried further apart than 2 sqrt(1 - d^2) |v|, and
   some are carried as far: sqrt(1 - d^2) is the sine of half the angle between the two rotations.
   */
  lemma TurnMeasured(p: Quat, q: Quat)
    requires Unit(p) && Unit(q)
    ensures forall v :: Apart(p, q, v) <= 4.0 * Times(HalfTurnSquared(p, q), NormSquared(v))
    ensures exists v :: NormSquared(v) > 0.0 && Apart(p, q, v) == 4.0 * Times(HalfTurnSquared(p, q), NormSquared(v))
  {
    hide *;
    var u := VectorPart(Between(p, q));
    BetweenNorm(p, q);
    forall v
      ensures Apart(p, q, v) <= 4.0 * Times(HalfTurnSquared(p, q), NormSquared(v))
    {
      ApartExactly(p, q, v);
      Lagrange(v, u);
      SquareZero(Dot(v, u));
    }
    var v := Orthogonal(u);
    OrthogonalMeans(u);
    ApartExactly(p, q, v);
    Lagrange(v, u);
    ZeroTimes(0.0);
  }

  function SineSquared(cosine: real): real {
    1.0 - cosine * cosine
  }

  /** Some vector is carried further apart than a half angle with the given cosine would allow. */
  ghost predicate TurnsFurther(p: Quat, q: Quat, halfAngleCosine: real) {
    exists v :: Apart(p, q, v) > 4.0 * Times(SineSquared(halfAngleCosine), NormSquared(v))
  }

  lemma SquaresOrdered(a: real, b: real)
    requires a >= 0.0 && b >= 0.0
    ensures a < b <==> a * a < b * b
  {
    assert a * a == Times(a, a) && b * b == Times(b, b);
    hide Times;
    TimesCommute(a, b);
    TimesOrdered(a, a, b);
    TimesOrdered(b, a, b);
    TimesOrdered(a, b, a);
    TimesOrdered(b, b, a);
  }

  lemma AbsSquare(d: real)
    ensures Abs(d) * Abs(d) == d * d && Abs(d) >= 0.0
  {
  }

  lemma SmallerCosine(p: Quat, q: Quat, c: real)
    requires c >= 0.0
    ensures Abs(QuatDot(p, q)) < c <==> SineSquared(c) < HalfTurnSquared(p, q)
  {
    AbsSquare(QuatDot(p, q));
    SquaresOrdered(Abs(QuatDot(p, q)), c);
    hide QuatDot;
    hide Abs;
  }

  lemma NormNonnegative(v: Vec3)
    ensures NormSquared(v) >= 0.0
  {
    SquareNonnegative(v.x); SquareNonnegative(v.y); SquareNonnegative(v.z);
  }

  lemma TimesOrdered(k: real, x: real, y: real)
    ensures k >= 0.0 && x <= y ==> Times(x, k) <= Times(y, k)
    ensures k > 0.0 && x < y ==> Times(x, k) < Times(y, k)
  {
  }

  /** The absolute dot product is the cosine of half the angle: below c exactly when the rotations turn further. */
  lemma TurnExceeds(p: Quat, q: Quat, c: real)
    requires Unit(p) && Unit(q) && c >= 0.0
    ensures Abs(QuatDot(p, q)) < c <==> TurnsFurther(p, q, c)
  {
    hide Apart;
    hide Times;
    hide NormSquared;
    hide QuatDot;
    hide Abs;
    hide SineSquared;
    hide HalfTurnSquared;
    hide Unit;
    var far, limit := HalfTurnSquared(p, q), SineSquared(c);
    SmallerCosine(p, q, c);
    TurnMeasured(p, q);
    if limit < far {
      var v :| NormSquared(v) > 0.0 && Apart(p, q, v) == 4.0 * Times(far, NormSquared(v));
      TimesOrdered(NormSquared(v), limit, far);
    } else {
      forall v
        ensures Apart(p, q, v) <= 4.0 * Times(limit, NormSquared(v))
      {
        NormNonnegative(v);
        TimesOrdered(NormSquared(v), far, limit);
      }
    }
  }
}
