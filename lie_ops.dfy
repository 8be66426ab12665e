/**
 * The polynomial part of pypose's Lie-group operations (pypose/lietensor/operation.py), for a
 * single group element without batch dimensions.
 *
 * Layouts follow the library: a unit quaternion is [x, y, z, w] (vector part first, real part
 * last); an SE(3) pose is [t(3), q(4)]; an RxSO(3) element is [q(4), s]; a Sim(3) element is
 * [t(3), q(4), s]. Algebra elements (tangent vectors) are se(3) = [tau(3), phi(3)],
 * rxso(3) = [phi(3), sigma] and sim(3) = [tau(3), phi(3), sigma].
 */
module LieOps {
  import opened Results
  import opened Tensors
  import opened Dense

  type Quat = q: seq<real> | |q| == 4 witness [0.0, 0.0, 0.0, 1.0]
  type SE3 = x: seq<real> | |x| == 7 witness [0.0, 0.0, 0.0, 0.0, 0.0, 0.0, 1.0]
  type RxSO3 = x: seq<real> | |x| == 5 witness [0.0, 0.0, 0.0, 1.0, 1.0]
  type Sim3 = x: seq<real> | |x| == 8 witness [0.0, 0.0, 0.0, 0.0, 0.0, 0.0, 1.0, 1.0]
  type Se3Alg = x: seq<real> | |x| == 6 witness [0.0, 0.0, 0.0, 0.0, 0.0, 0.0]
  type Rxso3Alg = x: seq<real> | |x| == 4 witness [0.0, 0.0, 0.0, 0.0]
  type Sim3Alg = x: seq<real> | |x| == 7 witness [0.0, 0.0, 0.0, 0.0, 0.0, 0.0, 0.0]

  const QuatIdentity: Quat := [0.0, 0.0, 0.0, 1.0]
  const SE3Identity: SE3 := [0.0, 0.0, 0.0, 0.0, 0.0, 0.0, 1.0]
  const RxSO3Identity: RxSO3 := [0.0, 0.0, 0.0, 1.0, 1.0]
  const Sim3Identity: Sim3 := [0.0, 0.0, 0.0, 0.0, 0.0, 0.0, 1.0, 1.0]

  /** X[..., :3] of a quaternion. */
  function Im(q: Quat): Vec3 { q[..3] }

  /** Concatenation of a vector part and a real part, torch.cat([v, w], -1). */
  function MakeQuat(v: Vec3, w: real): (q: Quat)
    ensures Im(q) == v && q[3] == w
  {
    v + [w]
  }

  lemma QuatExt(a: Quat, b: Quat)
    requires a[0] == b[0] && a[1] == b[1] && a[2] == b[2] && a[3] == b[3]
    ensures a == b
  {
  }

  // ---------------------------------------------------------------- SO(3)

  /** SO3_Inv.forward: the conjugate quaternion. */
  function SO3Inv(x: Quat): (y: Quat)
  {
    MakeQuat(Neg3(Im(x)), x[3])
  }

  /** SO3_Mul.forward: the Hamilton product in [x, y, z, w] layout. */
  function SO3Mul(x: Quat, y: Quat): (z: Quat)
  {
    var xv, xw, yv, yw := Im(x), x[3], Im(y), y[3];
    MakeQuat(Add3(Add3(Scale3(xw, yv), Scale3(yw, xv)), Cross(xv, yv)), xw * yw - Dot3(xv, yv))
  }

  /** SO3_Act.forward: rotating p by q as p + w uv + v x uv with uv = 2 (v x p). */
  function SO3Act(x: Quat, p: Vec3): (r: Vec3)
  {
    var xv, xw := Im(x), x[3];
    var uv := Scale3(2.0, Cross(xv, p));
    Add3(Add3(p, Scale3(xw, uv)), Cross(xv, uv))
  }

  /** The squared norm x^2 + y^2 + z^2 + w^2 of a quaternion. */
  function QuatNorm2(q: Quat): real { q[0] * q[0] + q[1] * q[1] + q[2] * q[2] + q[3] * q[3] }

  /** SO3_Adj: 2w (w I + [v]x) - I + 2 v v^T, the rotation matrix of a unit quaternion. */
  function SO3Adj(x: Quat): (m: Matrix)
    ensures IsMatrix(m, 3, 3)
  {
    var xv, xw := Im(x), x[3];
    var i3 := Eye(3);
    var xw3 := MatScale(xw, i3, 3, 3);
    MatAdd(MatSub(MatScale(2.0 * xw, MatAdd(xw3, Skew(xv), 3, 3), 3, 3), i3, 3, 3),
           MatScale(2.0, Outer(xv, xv), 3, 3), 3, 3)
  }

  /** SO3_Matrix is SO3_Adj. */
  function SO3Matrix(x: Quat): (m: Matrix)
    ensures IsMatrix(m, 3, 3) && m == SO3Adj(x)
  {
    SO3Adj(x)
  }

  /** Conjugation is an involution and negates exactly the vector part. */
  lemma SO3InvInvolution(x: Quat)
    ensures SO3Inv(SO3Inv(x)) == x
    ensures SO3Inv(x) == [-x[0], -x[1], -x[2], x[3]]
  {
  }

  /** (0, 0, 0, 1) is a two-sided identity of the Hamilton product. */
  lemma SO3MulIdentity(x: Quat)
    ensures SO3Mul(QuatIdentity, x) == x
    ensures SO3Mul(x, QuatIdentity) == x
  {
    var l, r := SO3Mul(QuatIdentity, x), SO3Mul(x, QuatIdentity);
    QuatExt(l, x);
    QuatExt(r, x);
  }

  /** A quaternion times its conjugate is real, holding the squared norm. */
  lemma SO3MulInv(x: Quat)
    ensures SO3Mul(x, SO3Inv(x)) == [0.0, 0.0, 0.0, QuatNorm2(x)]
    ensures SO3Mul(SO3Inv(x), x) == [0.0, 0.0, 0.0, QuatNorm2(x)]
  {
    var v, c := Im(x), Neg3(Im(x));
    assert Im(SO3Inv(x)) == c;
    var k1, k2 := Cross(v, c), Cross(c, v);
    assert k1[0] == 0.0 && k1[1] == 0.0 && k1[2] == 0.0;
    assert k2[0] == 0.0 && k2[1] == 0.0 && k2[2] == 0.0;
    assert x[3] * x[3] - Dot3(v, c) == QuatNorm2(x);
    assert x[3] * x[3] - Dot3(c, v) == QuatNorm2(x);
    var l, r := SO3Mul(x, SO3Inv(x)), SO3Mul(SO3Inv(x), x);
    QuatExt(l, [0.0, 0.0, 0.0, QuatNorm2(x)]);
    QuatExt(r, [0.0, 0.0, 0.0, QuatNorm2(x)]);
  }

  /** Conjugation reverses products: (x y)* = y* x*. */
  lemma SO3InvMul(x: Quat, y: Quat)
    ensures SO3Inv(SO3Mul(x, y)) == SO3Mul(SO3Inv(y), SO3Inv(x))
  {
    var l, r := SO3Inv(SO3Mul(x, y)), SO3Mul(SO3Inv(y), SO3Inv(x));
    assert l[0] == r[0] && l[1] == r[1] && l[2] == r[2] && l[3] == r[3];
    QuatExt(l, r);
  }

  /** The identity rotation leaves every point where it is. */
  lemma SO3ActIdentity(p: Vec3)
    ensures SO3Act(QuatIdentity, p) == p
  {
  }

  /** The action preserves sums of points. */
  lemma SO3ActAdditive(x: Quat, p: Vec3, q: Vec3)
    ensures SO3Act(x, Add3(p, q)) == Add3(SO3Act(x, p), SO3Act(x, q))
  {
    var xv, xw := Im(x), x[3];
    var up, uq := Scale3(2.0, Cross(xv, p)), Scale3(2.0, Cross(xv, q));
    CrossAddRight(xv, p, q);
    AddScale(2.0, Cross(xv, p), Cross(xv, q));
    AddScale(xw, up, uq);
    CrossAddRight(xv, up, uq);
    AddInterchange(p, q, Scale3(xw, up), Scale3(xw, uq), Cross(xv, up), Cross(xv, uq));
  }

  /** The action commutes with scaling the point. */
  lemma SO3ActHomogeneous(x: Quat, p: Vec3, k: real)
    ensures SO3Act(x, Scale3(k, p)) == Scale3(k, SO3Act(x, p))
  {
    var xv, xw := Im(x), x[3];
    var uv := Scale3(2.0, Cross(xv, p));
    CrossScaleRight(xv, p, k);
    ScaleScale(2.0, k, Cross(xv, p));
    assert Scale3(2.0, Cross(xv, Scale3(k, p))) == Scale3(k, uv);
    ScaleScale(xw, k, uv);
    CrossScaleRight(xv, uv, k);
    AddScale(k, p, Scale3(xw, uv));
    AddScale(k, Add3(p, Scale3(xw, uv)), Cross(xv, uv));
  }

  /** SO3_Adj applied to p, read through the matrix operations that build it:
      2w (w p + v x p) - p + 2 (v . p) v. */
  lemma SO3AdjApply(x: Quat, p: Vec3)
    ensures var v, w := Im(x), x[3];
      MatVec3(SO3Adj(x), p) ==
      Add3(Sub3(Scale3(2.0 * w, Add3(Scale3(w, p), Cross(v, p))), p), Scale3(2.0, Scale3(Dot3(v, p), v)))
  {
    var xv, xw, i3 := Im(x), x[3], Eye(3);
    var w3 := MatScale(xw, i3, 3, 3);
    var t := MatAdd(w3, Skew(xv), 3, 3);
    var u := MatScale(2.0 * xw, t, 3, 3);
    var o := Outer(xv, xv);
    MatVec3EyeOuter(xv, xv, p);
    SkewIsCross(xv, p);
    MatVec3Scale(xw, i3, p);
    MatVec3Add(w3, Skew(xv), p);
    MatVec3Scale(2.0 * xw, t, p);
    MatVec3Sub(u, i3, p);
    MatVec3Scale(2.0, o, p);
    MatVec3Add(MatSub(u, i3, 3, 3), MatScale(2.0, o, 3, 3), p);
  }

  /** One coordinate of the identity below, with n standing for |v|^2 and s for 2w. */
  lemma UnitRotationCoordinate(pk: real, ck: real, vk: real, d: real, n: real, w: real, s: real)
    requires n + w * w == 1.0 && s == 2.0 * w
    ensures pk + w * (2.0 * ck) + 2.0 * (d * vk - n * pk) == s * (w * pk + ck) - pk + 2.0 * (d * vk)
  {
    assert n * pk == (1.0 - w * w) * pk;
  }

  /** Coordinates of p + w (2 c) + 2 ((d v) - (n p)). */
  lemma ActFormCoordinates(p: Vec3, c: Vec3, v: Vec3, d: real, n: real, w: real)
    ensures var l := Add3(Add3(p, Scale3(w, Scale3(2.0, c))), Scale3(2.0, Sub3(Scale3(d, v), Scale3(n, p))));
      && l[0] == p[0] + w * (2.0 * c[0]) + 2.0 * (d * v[0] - n * p[0])
      && l[1] == p[1] + w * (2.0 * c[1]) + 2.0 * (d * v[1] - n * p[1])
      && l[2] == p[2] + w * (2.0 * c[2]) + 2.0 * (d * v[2] - n * p[2])
  {
  }

  /** Coordinates of s (w p + c) - p + 2 (d v), with s standing for 2w. */
  lemma MatrixFormCoordinates(p: Vec3, c: Vec3, v: Vec3, d: real, w: real, s: real)
    ensures var r := Add3(Sub3(Scale3(s, Add3(Scale3(w, p), c)), p), Scale3(2.0, Scale3(d, v)));
      && r[0] == s * (w * p[0] + c[0]) - p[0] + 2.0 * (d * v[0])
      && r[1] == s * (w * p[1] + c[1]) - p[1] + 2.0 * (d * v[1])
      && r[2] == s * (w * p[2] + c[2]) - p[2] + 2.0 * (d * v[2])
  {
  }

  /** The vector identity behind SO3_Act = SO3_Matrix p, for n + w^2 = 1. */
  lemma UnitRotationIdentity(p: Vec3, c: Vec3, v: Vec3, d: real, n: real, w: real)
    requires n + w * w == 1.0
    ensures Add3(Add3(p, Scale3(w, Scale3(2.0, c))), Scale3(2.0, Sub3(Scale3(d, v), Scale3(n, p)))) ==
            Add3(Sub3(Scale3(2.0 * w, Add3(Scale3(w, p), c)), p), Scale3(2.0, Scale3(d, v)))
  {
    var l := Add3(Add3(p, Scale3(w, Scale3(2.0, c))), Scale3(2.0, Sub3(Scale3(d, v), Scale3(n, p))));
    var r := Add3(Sub3(Scale3(2.0 * w, Add3(Scale3(w, p), c)), p), Scale3(2.0, Scale3(d, v)));
    UnitRotationCoordinate(p[0], c[0], v[0], d, n, w, 2.0 * w);
    UnitRotationCoordinate(p[1], c[1], v[1], d, n, w, 2.0 * w);
    UnitRotationCoordinate(p[2], c[2], v[2], d, n, w, 2.0 * w);
    ActFormCoordinates(p, c, v, d, n, w);
    MatrixFormCoordinates(p, c, v, d, w, 2.0 * w);
    Vec3Ext(l, r);
  }

  /** For a unit quaternion, SO3_Act is multiplication by SO3_Matrix. */
  lemma SO3ActIsMatrix(x: Quat, p: Vec3)
    requires QuatNorm2(x) == 1.0
    ensures SO3Act(x, p) == MatVec3(SO3Matrix(x), p)
    ensures SO3Act(x, p) == MatVec(SO3Matrix(x), p)
  {
    var v, w := Im(x), x[3];
    var c := Cross(v, p);
    assert Dot3(v, v) + x[3] * x[3] == 1.0;
    CrossScaleRight(v, c, 2.0);
    CrossCross(v, p);
    SO3AdjApply(x, p);
    UnitRotationIdentity(p, c, v, Dot3(v, p), Dot3(v, v), x[3]);
    MatVec3IsMatVec(SO3Matrix(x), p);
  }

  /** Row i of 2w (w I + [v]x). */
  lemma SO3AdjInnerRow(v: Vec3, w: real, i: nat)
    requires i < 3
    ensures MatScale(2.0 * w, MatAdd(MatScale(w, Eye(3), 3, 3), Skew(v), 3, 3), 3, 3)[i] ==
      Scale3(2.0 * w, Add3(Scale3(w, Eye(3)[i]), Skew(v)[i]))
  {
    var w3 := MatScale(w, Eye(3), 3, 3);
    RowScale(w, Eye(3), i);
    RowAdd(w3, Skew(v), i);
    RowScale(2.0 * w, MatAdd(w3, Skew(v), 3, 3), i);
  }

  /** Row i of SO3_Adj, read through the matrix operations that build it. */
  lemma SO3AdjRow(x: Quat, i: nat)
    requires i < 3
    ensures var v, w, e := Im(x), x[3], Eye(3)[i];
      SO3Adj(x)[i] == Add3(Sub3(Scale3(2.0 * w, Add3(Scale3(w, e), Skew(v)[i])), e), Scale3(2.0, Scale3(v[i], v)))
  {
    var xv, xw, i3 := Im(x), x[3], Eye(3);
    var u := MatScale(2.0 * xw, MatAdd(MatScale(xw, i3, 3, 3), Skew(xv), 3, 3), 3, 3);
    var o := Outer(xv, xv);
    var d := MatSub(u, i3, 3, 3);
    var so := MatScale(2.0, o, 3, 3);
    assert SO3Adj(x) == MatAdd(d, so, 3, 3);
    RowAdd(d, so, i);
    RowSub(u, i3, i);
    SO3AdjInnerRow(xv, xw, i);
    RowScale(2.0, o, i);
    OuterRow(xv, xv, i);
  }

  /** A quaternion with zero vector part and unit real part has the identity as SO3_Adj. */
  lemma SO3AdjOfIdentityParts(q: Quat)
    requires Im(q) == Zero3 && q[3] == 1.0
    ensures SO3Adj(q) == Eye(3)
  {
    var m, e := SO3Adj(q), Eye(3);
    forall i | 0 <= i < 3
      ensures m[i] == e[i]
    {
      SO3AdjRow(q, i);
      Vec3Ext(m[i], e[i]);
    }
  }

  /** SO3_Adj of the identity quaternion is the 3 x 3 identity. */
  lemma SO3AdjIdentity()
    ensures SO3Adj(QuatIdentity) == Eye(3)
  {
    assert Im(QuatIdentity) == Zero3;
    SO3AdjOfIdentityParts(QuatIdentity);
  }

  /** Every rotation fixes the origin. */
  lemma SO3ActZero(x: Quat)
    ensures SO3Act(x, Zero3) == Zero3
  {
    SO3ActHomogeneous(x, Zero3, 0.0);
    Vec3Ext(Scale3(0.0, Zero3), Zero3);
    Vec3Ext(Scale3(0.0, SO3Act(x, Zero3)), Zero3);
  }

  /** One coordinate of ActComb. */
  lemma ActCombCoordinate(pk: real, ck: real, vk: real, d: real, n: real, w: real)
    ensures pk + w * (2.0 * ck) + 2.0 * (d * vk - n * pk) == Lin(1.0 - 2.0 * n, 2.0 * d, 2.0 * w, pk, vk, ck)
  {
  }

  /** p + w (2 c) + 2 ((d v) - (n p)) as a combination of p, v and c. */
  lemma ActComb(p: Vec3, c: Vec3, v: Vec3, d: real, n: real, w: real)
    ensures Add3(Add3(p, Scale3(w, Scale3(2.0, c))), Scale3(2.0, Sub3(Scale3(d, v), Scale3(n, p)))) ==
            Comb3(1.0 - 2.0 * n, 2.0 * d, 2.0 * w, p, v, c)
  {
    ActFormCoordinates(p, c, v, d, n, w);
    ActCombCoordinate(p[0], c[0], v[0], d, n, w);
    ActCombCoordinate(p[1], c[1], v[1], d, n, w);
    ActCombCoordinate(p[2], c[2], v[2], d, n, w);
    Vec3Ext(Add3(Add3(p, Scale3(w, Scale3(2.0, c))), Scale3(2.0, Sub3(Scale3(d, v), Scale3(n, p)))),
            Comb3(1.0 - 2.0 * n, 2.0 * d, 2.0 * w, p, v, c));
  }

  /**
    * Rodrigues' form of SO3_Act: with v, w the parts of x, the rotated point is
    * (1 - 2|v|^2) p + 2 (v . p) v + 2w (v x p).
    */
  lemma SO3ActComb(x: Quat, p: Vec3)
    ensures SO3Act(x, p) ==
      Comb3(1.0 - 2.0 * Dot3(Im(x), Im(x)), 2.0 * Dot3(Im(x), p), 2.0 * x[3], p, Im(x), Cross(Im(x), p))
  {
    var v := Im(x);
    var c := Cross(v, p);
    CrossScaleRight(v, c, 2.0);
    CrossCross(v, p);
    ActComb(p, c, v, Dot3(v, p), Dot3(v, v), x[3]);
  }

  /** The conjugate rotates by the same formula with the sign of w flipped. */
  lemma SO3ActConj(x: Quat, p: Vec3)
    ensures SO3Act(SO3Inv(x), p) ==
      Comb3(1.0 - 2.0 * Dot3(Im(x), Im(x)), 2.0 * Dot3(Im(x), p), -(2.0 * x[3]), p, Im(x), Cross(Im(x), p))
  {
    var v, nv := Im(x), Neg3(Im(x));
    assert Im(SO3Inv(x)) == nv && SO3Inv(x)[3] == x[3];
    assert Dot3(nv, nv) == Dot3(v, v) && Dot3(nv, p) == -Dot3(v, p);
    Vec3Ext(Cross(nv, p), Neg3(Cross(v, p)));
    SO3ActComb(SO3Inv(x), p);
    CombNeg(1.0 - 2.0 * Dot3(v, v), 2.0 * Dot3(nv, p), 2.0 * x[3], p, v, Cross(v, p));
  }

  /** One coordinate of RegroupComb. */
  lemma CrossCombCoordinate(a: real, b: real, c: real, d: real, n: real, pk: real, vk: real, uk: real, zk: real, sk: real)
    requires zk == 0.0 && sk == d * vk - n * pk
    ensures Lin(a, b, c, uk, zk, sk) == Lin(-(c * n), c * d, a, pk, vk, uk)
  {
  }

  /** a u + c ((d v) - (n p)) regrouped as a combination of p, v and u. */
  lemma RegroupComb(a: real, b: real, c: real, d: real, n: real, p: Vec3, v: Vec3, u: Vec3)
    ensures Comb3(a, b, c, u, Zero3, Sub3(Scale3(d, v), Scale3(n, p))) == Comb3(-(c * n), c * d, a, p, v, u)
  {
    var s := Sub3(Scale3(d, v), Scale3(n, p));
    CrossCombCoordinate(a, b, c, d, n, p[0], v[0], u[0], Zero3[0], s[0]);
    CrossCombCoordinate(a, b, c, d, n, p[1], v[1], u[1], Zero3[1], s[1]);
    CrossCombCoordinate(a, b, c, d, n, p[2], v[2], u[2], Zero3[2], s[2]);
    Vec3Ext(Comb3(a, b, c, u, Zero3, s), Comb3(-(c * n), c * d, a, p, v, u));
  }

  /** The cross product of v with a combination of p, v and v x p, with a2 = -(c |v|^2) and b2 = c (v . p). */
  lemma CrossOfComb(v: Vec3, p: Vec3, a: real, b: real, c: real, a2: real, b2: real)
    requires a2 == -(c * Dot3(v, v)) && b2 == c * Dot3(v, p)
    ensures Cross(v, Comb3(a, b, c, p, v, Cross(v, p))) == Comb3(a2, b2, a, p, v, Cross(v, p))
  {
    var u := Cross(v, p);
    CrossComb(v, a, b, c, p, v, u);
    CrossOrthogonal(v, p);
    CrossCross(v, p);
    RegroupComb(a, b, c, Dot3(v, p), Dot3(v, v), p, v, u);
  }

  /** The coefficients of x (x* p) collapse to 1, 0, 0 when n + w^2 = 1. */
  lemma InverseCoefficients(n: real, w: real, d: real, e: real, dd: real)
    requires n + w * w == 1.0 && e == 0.0
    requires dd == (1.0 - 2.0 * n) * d + (2.0 * d) * n + (-(2.0 * w)) * e
    ensures (1.0 - 2.0 * n) * (1.0 - 2.0 * n) + (2.0 * w) * (-(-(2.0 * w) * n)) == 1.0
    ensures (1.0 - 2.0 * n) * (2.0 * d) + 2.0 * dd + (2.0 * w) * (-(2.0 * w) * d) == 0.0
    ensures (1.0 - 2.0 * n) * (-(2.0 * w)) + (2.0 * w) * (1.0 - 2.0 * n) == 0.0
  {
    assert w * w == 1.0 - n;
    assert (2.0 * w) * (2.0 * w) == 4.0 * (1.0 - n);
  }

  /** Rotating the conjugate-rotated point, written as combinations of p, v and u, gives p back. */
  lemma ComposeInverse(p: Vec3, v: Vec3, u: Vec3, q: Vec3, r: Vec3,
                       n: real, w: real, d: real, e: real, dd: real, a: real, b: real, c: real, a2: real, b2: real)
    requires n + w * w == 1.0 && e == 0.0
    requires a == 1.0 - 2.0 * n && b == 2.0 * d && c == -(2.0 * w) && a2 == -(c * n) && b2 == c * d
    requires dd == a * d + b * n + c * e
    requires q == Comb3(a, b, c, p, v, u) && r == Comb3(a2, b2, a, p, v, u)
    ensures Comb3(a, 2.0 * dd, 2.0 * w, q, v, r) == p
  {
    InverseCoefficients(n, w, d, e, dd);
    CombCompose(a, 2.0 * dd, 2.0 * w, a, b, c, a2, b2, a, 1.0, 0.0, 0.0, p, v, u);
    CombFirst(p, v, u);
  }

  /** The second rotation of x (x* p), with q = x* p written as a combination of p, v and v x p. */
  lemma SO3InverseStep(v: Vec3, w: real, p: Vec3, q: Vec3)
    requires Dot3(v, v) + w * w == 1.0
    requires q == Comb3(1.0 - 2.0 * Dot3(v, v), 2.0 * Dot3(v, p), -(2.0 * w), p, v, Cross(v, p))
    ensures Comb3(1.0 - 2.0 * Dot3(v, v), 2.0 * Dot3(v, q), 2.0 * w, q, v, Cross(v, q)) == p
  {
    var u, d, n := Cross(v, p), Dot3(v, p), Dot3(v, v);
    var a, b, c := 1.0 - 2.0 * n, 2.0 * d, -(2.0 * w);
    var a2, b2 := -(c * n), c * d;
    DotComb(v, a, b, c, p, v, u);
    CrossOrthogonal(v, p);
    CrossOfComb(v, p, a, b, c, a2, b2);
    ComposeInverse(p, v, u, q, Cross(v, q), n, w, d, Dot3(v, u), Dot3(v, q), a, b, c, a2, b2);
  }

  /** A unit quaternion undoes its conjugate: x (x* p) = p. */
  lemma SO3ActInverseRight(x: Quat, p: Vec3)
    requires QuatNorm2(x) == 1.0
    ensures SO3Act(x, SO3Act(SO3Inv(x), p)) == p
  {
    var v := Im(x);
    assert Dot3(v, v) + x[3] * x[3] == 1.0;
    SO3ActConj(x, p);
    SO3InverseStep(v, x[3], p, SO3Act(SO3Inv(x), p));
    SO3ActComb(x, SO3Act(SO3Inv(x), p));
  }

  /** The conjugate unit quaternion is a unit quaternion. */
  lemma SO3InvNorm(x: Quat)
    ensures QuatNorm2(SO3Inv(x)) == QuatNorm2(x)
  {
    SO3InvInvolution(x);
  }

  /** x* (x p) = p for a unit quaternion as well. */
  lemma SO3ActInverseLeft(x: Quat, p: Vec3)
    requires QuatNorm2(x) == 1.0
    ensures SO3Act(SO3Inv(x), SO3Act(x, p)) == p
  {
    SO3InvInvolution(x);
    SO3InvNorm(x);
    SO3ActInverseRight(SO3Inv(x), p);
  }

  // ---------------------------------------------------------------- SE(3)

  /** X[..., :3] of an SE(3) or Sim(3) element: the translation. */
  function Trans(x: seq<real>): Vec3
    requires |x| >= 3
  {
    x[..3]
  }

  /** X[..., 3:] of an SE(3) element: the rotation quaternion. */
  function SE3Rot(x: SE3): Quat { x[3..] }

  /** torch.cat((t, q), -1). */
  function MakeSE3(t: Vec3, q: Quat): (x: SE3)
    ensures Trans(x) == t && SE3Rot(x) == q
  {
    t + q
  }

  lemma SE3Ext(a: SE3, b: SE3)
    requires Trans(a) == Trans(b) && SE3Rot(a) == SE3Rot(b)
    ensures a == b
  {
    assert a == Trans(a) + SE3Rot(a);
    assert b == Trans(b) + SE3Rot(b);
  }

  /** SE3_Mul.forward: t = X_t + X_q * Y_t, q = X_q Y_q. */
  function SE3Mul(x: SE3, y: SE3): (z: SE3)
  {
    MakeSE3(Add3(Trans(x), SO3Act(SE3Rot(x), Trans(y))), SO3Mul(SE3Rot(x), SE3Rot(y)))
  }

  /** SE3_Inv.forward: q* = conjugate of q, t = -(q* t). */
  function SE3Inv(x: SE3): (y: SE3)
  {
    var qi := SO3Inv(SE3Rot(x));
    MakeSE3(Neg3(SO3Act(qi, Trans(x))), qi)
  }

  /** SE3_Act.forward: X_t + X_q * p. */
  function SE3Act(x: SE3, p: Vec3): (r: Vec3)
  {
    Add3(Trans(x), SO3Act(SE3Rot(x), p))
  }

  /** The identity pose is a two-sided identity of SE3_Mul. */
  lemma SE3MulIdentity(x: SE3)
    ensures SE3Mul(SE3Identity, x) == x
    ensures SE3Mul(x, SE3Identity) == x
  {
    assert Trans(SE3Identity) == Zero3 && SE3Rot(SE3Identity) == QuatIdentity;
    SO3MulIdentity(SE3Rot(x));
    SO3ActIdentity(Trans(x));
    Vec3Ext(Add3(Zero3, Trans(x)), Trans(x));
    SE3Ext(SE3Mul(SE3Identity, x), x);
    SO3ActZero(SE3Rot(x));
    Vec3Ext(Add3(Trans(x), Zero3), Trans(x));
    SE3Ext(SE3Mul(x, SE3Identity), x);
  }

  /** Rotating a negated point negates the rotated point. */
  lemma SO3ActNeg(x: Quat, p: Vec3)
    ensures SO3Act(x, Neg3(p)) == Neg3(SO3Act(x, p))
  {
    Vec3Ext(Scale3(-1.0, p), Neg3(p));
    SO3ActHomogeneous(x, p, -1.0);
    Vec3Ext(Scale3(-1.0, SO3Act(x, p)), Neg3(SO3Act(x, p)));
  }

  /** For a pose whose rotation is a unit quaternion, SE3_Inv is a two-sided inverse of SE3_Mul. */
  lemma SE3MulInv(x: SE3)
    requires QuatNorm2(SE3Rot(x)) == 1.0
    ensures SE3Mul(x, SE3Inv(x)) == SE3Identity
    ensures SE3Mul(SE3Inv(x), x) == SE3Identity
  {
    var t, q := Trans(x), SE3Rot(x);
    var qi := SO3Inv(q);
    var y := SO3Act(qi, t);
    assert Trans(SE3Inv(x)) == Neg3(y) && SE3Rot(SE3Inv(x)) == qi;
    assert Trans(SE3Identity) == Zero3 && SE3Rot(SE3Identity) == QuatIdentity;
    SO3MulInv(q);
    SO3ActNeg(q, y);
    SO3ActInverseRight(q, t);
    AddNeg(t);
    AddNeg(y);
    SE3Ext(SE3Mul(x, SE3Inv(x)), SE3Identity);
    SE3Ext(SE3Mul(SE3Inv(x), x), SE3Identity);
  }

  /** The inverse pose undoes the action: SE3_Act(X^-1, SE3_Act(X, p)) = p. */
  lemma SE3ActInv(x: SE3, p: Vec3)
    requires QuatNorm2(SE3Rot(x)) == 1.0
    ensures SE3Act(SE3Inv(x), SE3Act(x, p)) == p
  {
    var t, q := Trans(x), SE3Rot(x);
    var qi := SO3Inv(q);
    assert Trans(SE3Inv(x)) == Neg3(SO3Act(qi, t)) && SE3Rot(SE3Inv(x)) == qi;
    SO3ActAdditive(qi, t, SO3Act(q, p));
    SO3ActInverseLeft(q, p);
    AddNeg(SO3Act(qi, t));
    assert Add3(Neg3(SO3Act(qi, t)), Add3(SO3Act(qi, t), p)) == p;
  }

  /** The identity pose moves no point. */
  lemma SE3ActIdentity(p: Vec3)
    ensures SE3Act(SE3Identity, p) == p
  {
    assert Trans(SE3Identity) == Zero3 && SE3Rot(SE3Identity) == QuatIdentity;
    SO3ActIdentity(p);
    Vec3Ext(Add3(Zero3, p), p);
  }

  // ---------------------------------------------------------------- RxSO(3)

  /** X[..., :4] of an RxSO(3) element: the rotation quaternion. */
  function RxRot(x: RxSO3): Quat { x[..4] }

  /** X[..., 4] of an RxSO(3) element: the scale. */
  function RxScale(x: RxSO3): real { x[4] }

  /** torch.cat((q, s), -1). */
  function MakeRxSO3(q: Quat, s: real): (x: RxSO3)
    ensures RxRot(x) == q && RxScale(x) == s
  {
    q + [s]
  }

  lemma RxSO3Ext(a: RxSO3, b: RxSO3)
    requires RxRot(a) == RxRot(b) && RxScale(a) == RxScale(b)
    ensures a == b
  {
    assert a == RxRot(a) + [RxScale(a)];
    assert b == RxRot(b) + [RxScale(b)];
  }

  /** RxSO3_Mul.forward: multiply the quaternions and the scales. */
  function RxSO3Mul(x: RxSO3, y: RxSO3): (z: RxSO3)
  {
    MakeRxSO3(SO3Mul(RxRot(x), RxRot(y)), RxScale(x) * RxScale(y))
  }

  /** RxSO3_Inv.forward: conjugate the quaternion and take the reciprocal scale. */
  function RxSO3Inv(x: RxSO3): (y: RxSO3)
    requires RxScale(x) != 0.0
  {
    MakeRxSO3(SO3Inv(RxRot(x)), 1.0 / RxScale(x))
  }

  /** RxSO3_Act.forward: the scale times the rotated point. */
  function RxSO3Act(x: RxSO3, p: Vec3): (r: Vec3)
  {
    Scale3(RxScale(x), SO3Act(RxRot(x), p))
  }

  /** (0, 0, 0, 1, 1) is a two-sided identity of RxSO3_Mul. */
  lemma RxSO3MulIdentity(x: RxSO3)
    ensures RxSO3Mul(RxSO3Identity, x) == x
    ensures RxSO3Mul(x, RxSO3Identity) == x
  {
    assert RxRot(RxSO3Identity) == QuatIdentity && RxScale(RxSO3Identity) == 1.0;
    SO3MulIdentity(RxRot(x));
    RxSO3Ext(RxSO3Mul(RxSO3Identity, x), x);
    RxSO3Ext(RxSO3Mul(x, RxSO3Identity), x);
  }

  /** x times its inverse has scale 1 and the real quaternion (0, 0, 0, |q|^2). */
  lemma RxSO3MulInv(x: RxSO3)
    requires RxScale(x) != 0.0
    ensures RxSO3Mul(x, RxSO3Inv(x)) == [0.0, 0.0, 0.0, QuatNorm2(RxRot(x)), 1.0]
    ensures RxSO3Mul(RxSO3Inv(x), x) == [0.0, 0.0, 0.0, QuatNorm2(RxRot(x)), 1.0]
  {
    var n := QuatNorm2(RxRot(x));
    SO3MulInv(RxRot(x));
    var e: RxSO3 := [0.0, 0.0, 0.0, n, 1.0];
    assert RxRot(e) == [0.0, 0.0, 0.0, n] && RxScale(e) == 1.0;
    RxSO3Ext(RxSO3Mul(x, RxSO3Inv(x)), e);
    RxSO3Ext(RxSO3Mul(RxSO3Inv(x), x), e);
  }

  /** Inverting twice returns the input. */
  lemma RxSO3InvInvolution(x: RxSO3)
    requires RxScale(x) != 0.0
    ensures RxScale(RxSO3Inv(x)) != 0.0 && RxSO3Inv(RxSO3Inv(x)) == x
  {
    SO3InvInvolution(RxRot(x));
    RxSO3Ext(RxSO3Inv(RxSO3Inv(x)), x);
  }

  // ---------------------------------------------------------------- Sim(3)

  /** X[..., 3:] of a Sim(3) element: its RxSO(3) part. */
  function SimRxSO3(x: Sim3): RxSO3 { x[3..] }

  /** torch.cat((t, qs), -1). */
  function MakeSim3(t: Vec3, qs: RxSO3): (x: Sim3)
    ensures Trans(x) == t && SimRxSO3(x) == qs
  {
    t + qs
  }

  lemma Sim3Ext(a: Sim3, b: Sim3)
    requires Trans(a) == Trans(b) && SimRxSO3(a) == SimRxSO3(b)
    ensures a == b
  {
    assert a == Trans(a) + SimRxSO3(a);
    assert b == Trans(b) + SimRxSO3(b);
  }

  /** Sim3_Mul.forward: t = X_t + RxSO3_Act(X_qs, Y_t), qs = RxSO3_Mul(X_qs, Y_qs). */
  function Sim3Mul(x: Sim3, y: Sim3): (z: Sim3)
  {
    MakeSim3(Add3(Trans(x), RxSO3Act(SimRxSO3(x), Trans(y))), RxSO3Mul(SimRxSO3(x), SimRxSO3(y)))
  }

  /** Sim3_Inv.forward: qs' = RxSO3_Inv(X_qs), t = -RxSO3_Act(qs', X_t). */
  function Sim3Inv(x: Sim3): (y: Sim3)
    requires RxScale(SimRxSO3(x)) != 0.0
  {
    var qsi := RxSO3Inv(SimRxSO3(x));
    MakeSim3(Neg3(RxSO3Act(qsi, Trans(x))), qsi)
  }

  /** Sim3_Act.forward: X_t + RxSO3_Act(X_qs, p). */
  function Sim3Act(x: Sim3, p: Vec3): (r: Vec3)
  {
    Add3(Trans(x), RxSO3Act(SimRxSO3(x), p))
  }

  /** The identity Sim(3) element is a two-sided identity of Sim3_Mul. */
  lemma Sim3MulIdentity(x: Sim3)
    ensures Sim3Mul(Sim3Identity, x) == x
    ensures Sim3Mul(x, Sim3Identity) == x
  {
    var id := Sim3Identity;
    assert Trans(id) == Zero3 && SimRxSO3(id) == RxSO3Identity;
    assert RxRot(RxSO3Identity) == QuatIdentity && RxScale(RxSO3Identity) == 1.0;
    var qs := SimRxSO3(x);
    RxSO3MulIdentity(qs);
    SO3ActIdentity(Trans(x));
    Vec3Ext(Scale3(1.0, Trans(x)), Trans(x));
    Vec3Ext(Add3(Zero3, Trans(x)), Trans(x));
    Sim3Ext(Sim3Mul(id, x), x);
    SO3ActZero(RxRot(qs));
    Vec3Ext(Scale3(RxScale(qs), Zero3), Zero3);
    Vec3Ext(Add3(Trans(x), Zero3), Trans(x));
    Sim3Ext(Sim3Mul(x, id), x);
  }

  /**
    * For a Sim(3) element with non-zero scale and a unit rotation, Sim3_Inv is a two-sided
    * inverse of Sim3_Mul.
    */
  lemma Sim3MulInv(x: Sim3)
    requires RxScale(SimRxSO3(x)) != 0.0 && QuatNorm2(RxRot(SimRxSO3(x))) == 1.0
    ensures Sim3Mul(x, Sim3Inv(x)) == Sim3Identity
    ensures Sim3Mul(Sim3Inv(x), x) == Sim3Identity
  {
    var t, qs := Trans(x), SimRxSO3(x);
    var q, s := RxRot(qs), RxScale(qs);
    var qsi := RxSO3Inv(qs);
    var y := SO3Act(SO3Inv(q), t);
    assert RxRot(qsi) == SO3Inv(q) && RxScale(qsi) == 1.0 / s;
    assert RxSO3Act(qsi, t) == Scale3(1.0 / s, y);
    var ti := Neg3(Scale3(1.0 / s, y));
    assert Trans(Sim3Inv(x)) == ti && SimRxSO3(Sim3Inv(x)) == qsi;
    NegScale(1.0 / s, y);
    SO3ActHomogeneous(q, y, -(1.0 / s));
    SO3ActInverseRight(q, t);
    ScaleReciprocal(s, t);
    assert RxSO3Act(qs, ti) == Neg3(t);
    AddNeg(t);
    AddNeg(Scale3(1.0 / s, y));
    RxSO3MulInv(qs);
    assert Trans(Sim3Identity) == Zero3 && SimRxSO3(Sim3Identity) == RxSO3Identity;
    Sim3Ext(Sim3Mul(x, Sim3Inv(x)), Sim3Identity);
    Sim3Ext(Sim3Mul(Sim3Inv(x), x), Sim3Identity);
  }

  // ---------------------------------------------------------------- matrix builders

  /** SE3_Matrix: the 4 x 4 homogeneous matrix, SO3_Matrix(q) at [:3, :3], t at [:3, 3], last row (0, 0, 0, 1). */
  function SE3Matrix(x: SE3): (m: Matrix)
    ensures IsMatrix(m, 4, 4)
    ensures forall i, k :: 0 <= i < 3 && 0 <= k < 3 ==> m[i][k] == SO3Matrix(SE3Rot(x))[i][k]
    ensures forall i :: 0 <= i < 3 ==> m[i][3] == x[i]
    ensures m[3] == [0.0, 0.0, 0.0, 1.0]
  {
    var r := SetBlock(Eye(4), 4, 4, 0, 0, SO3Matrix(SE3Rot(x)), 3, 3);
    var m := SetBlock(r, 4, 4, 0, 3, ColumnMatrix(Trans(x)), 3, 1);
    assert m[3][0] == 0.0 && m[3][1] == 0.0 && m[3][2] == 0.0 && m[3][3] == 1.0;
    m
  }

  /** For a unit rotation, SE3_Matrix maps the homogeneous point (p, 1) to (SE3_Act(x, p), 1). */
  lemma SE3MatrixActs(x: SE3, p: Vec3)
    requires QuatNorm2(SE3Rot(x)) == 1.0
    ensures MatVec(SE3Matrix(x), p + [1.0]) == SE3Act(x, p) + [1.0]
  {
    var m, q := SE3Matrix(x), SE3Rot(x);
    var l, r := MatVec(m, p + [1.0]), SE3Act(x, p) + [1.0];
    SO3ActIsMatrix(q, p);
    forall i | 0 <= i < 4
      ensures l[i] == r[i]
    {
      DotHomogeneous(m[i], p);
      if i < 3 {
        assert m[i][..3] == SO3Matrix(q)[i];
      } else {
        assert m[i][..3] == Zero3;
      }
    }
  }

  /**
    * SE3_Adj: R = SO3_Adj(q) on both diagonal blocks, (R^T [t]x^T)^T = [t]x R in the
    * upper-right block and zeros in the lower-left block.
    */
  function SE3Adj(x: SE3): (m: Matrix)
    ensures IsMatrix(m, 6, 6)
    ensures var r := SO3Adj(SE3Rot(x));
      && (forall i, k :: 0 <= i < 3 && 0 <= k < 3 ==> m[i][k] == r[i][k])
      && (forall i, k :: 3 <= i < 6 && 3 <= k < 6 ==> m[i][k] == r[i - 3][k - 3])
    ensures var tr := MatMul(Skew(Trans(x)), SO3Adj(SE3Rot(x)), 3, 3, 3);
      forall i, k :: 0 <= i < 3 && 3 <= k < 6 ==> m[i][k] == tr[i][k - 3]
    ensures forall i, k :: 3 <= i < 6 && 0 <= k < 3 ==> m[i][k] == 0.0
  {
    var r := SO3Adj(SE3Rot(x));
    var tx := Skew(Trans(x));
    var rt := Transpose(MatMul(Transpose(r, 3, 3), Transpose(tx, 3, 3), 3, 3, 3), 3, 3);
    TransposeProduct(r, tx, 3, 3, 3);
    var a0 := SetBlock(Zeros(6, 6), 6, 6, 0, 0, r, 3, 3);
    var a1 := SetBlock(a0, 6, 6, 0, 3, rt, 3, 3);
    SetBlock(a1, 6, 6, 3, 3, r, 3, 3)
  }

  /** Row i of SE3_Adj for a pose with zero translation and identity rotation matrix. */
  lemma SE3AdjRowOfIdentityParts(x: SE3, i: nat)
    requires Trans(x) == Zero3 && SO3Adj(SE3Rot(x)) == Eye(3) && i < 6
    ensures forall k :: 0 <= k < 6 ==> SE3Adj(x)[i][k] == if i == k then 1.0 else 0.0
  {
    var m, r := SE3Adj(x), SO3Adj(SE3Rot(x));
    if i < 3 {
      SkewZeroProduct(r);
      var tr := MatMul(Skew(Trans(x)), r, 3, 3, 3);
      assert forall k :: 3 <= k < 6 ==> m[i][k] == tr[i][k - 3];
    }
  }

  /** A pose with zero translation and identity rotation matrix has the identity adjoint. */
  lemma SE3AdjOfIdentityParts(x: SE3)
    requires Trans(x) == Zero3 && SO3Adj(SE3Rot(x)) == Eye(3)
    ensures SE3Adj(x) == Eye(6)
  {
    forall i | 0 <= i < 6
      ensures SE3Adj(x)[i] == Eye(6)[i]
    {
      SE3AdjRowOfIdentityParts(x, i);
    }
  }

  /** The identity pose has the identity adjoint. */
  lemma SE3AdjIdentity()
    ensures SE3Adj(SE3Identity) == Eye(6)
  {
    assert Trans(SE3Identity) == Zero3 && SE3Rot(SE3Identity) == QuatIdentity;
    SO3AdjIdentity();
    SE3AdjOfIdentityParts(SE3Identity);
  }

  /** se3_adj of [tau, phi]: [phi]x on both diagonal blocks, [tau]x above, zeros below. */
  function Se3Adj(x: Se3Alg): (m: Matrix)
    ensures IsMatrix(m, 6, 6)
    ensures var phi := Skew(x[3..]);
      && (forall i, k :: 0 <= i < 3 && 0 <= k < 3 ==> m[i][k] == phi[i][k])
      && (forall i, k :: 3 <= i < 6 && 3 <= k < 6 ==> m[i][k] == phi[i - 3][k - 3])
    ensures forall i, k :: 0 <= i < 3 && 3 <= k < 6 ==> m[i][k] == Skew(x[..3])[i][k - 3]
    ensures forall i, k :: 3 <= i < 6 && 0 <= k < 3 ==> m[i][k] == 0.0
  {
    var phi := Skew(x[3..]);
    var a0 := SetBlock(Zeros(6, 6), 6, 6, 0, 0, phi, 3, 3);
    var a1 := SetBlock(a0, 6, 6, 0, 3, Skew(x[..3]), 3, 3);
    SetBlock(a1, 6, 6, 3, 3, phi, 3, 3)
  }

  /** rxso3_adj of [phi, sigma]: [phi]x in the top-left 3 x 3 block, zero in row and column 3. */
  function Rxso3Adj(x: Rxso3Alg): (m: Matrix)
    ensures IsMatrix(m, 4, 4)
    ensures forall i, k :: 0 <= i < 3 && 0 <= k < 3 ==> m[i][k] == Skew(x[..3])[i][k]
    ensures forall i, k :: 0 <= i < 4 && 0 <= k < 4 && (i == 3 || k == 3) ==> m[i][k] == 0.0
  {
    SetBlock(Zeros(4, 4), 4, 4, 0, 0, Skew(x[..3]), 3, 3)
  }

  /**
    * sim3_adj of [tau, phi, sigma]: [phi]x + sigma I and [tau]x in the top block row,
    * -tau in column 6, [phi]x on the middle diagonal block, zeros elsewhere.
    */
  function Sim3Adj(x: Sim3Alg): (m: Matrix)
    ensures IsMatrix(m, 7, 7)
    ensures forall i, k :: 0 <= i < 3 && 0 <= k < 3 ==>
      m[i][k] == Skew(x[3..6])[i][k] + (if i == k then x[6] else 0.0)
    ensures forall i, k :: 0 <= i < 3 && 3 <= k < 6 ==> m[i][k] == Skew(x[..3])[i][k - 3]
    ensures forall i, k :: 3 <= i < 6 && 3 <= k < 6 ==> m[i][k] == Skew(x[3..6])[i - 3][k - 3]
    ensures forall i, k :: 3 <= i < 6 && 0 <= k < 3 ==> m[i][k] == 0.0
    ensures forall i :: 0 <= i < 3 ==> m[i][6] == -x[i]
    ensures forall i :: 3 <= i < 6 ==> m[i][6] == 0.0
    ensures forall k :: 0 <= k < 7 ==> m[6][k] == 0.0
  {
    var tau, phi, sigma := x[..3], x[3..6], x[6];
    var tx, px := Skew(tau), Skew(phi);
    var a0 := SetBlock(Zeros(7, 7), 7, 7, 0, 0, MatAdd(px, MatScale(sigma, Eye(3), 3, 3), 3, 3), 3, 3);
    var a1 := SetBlock(a0, 7, 7, 0, 3, tx, 3, 3);
    var a2 := SetBlock(a1, 7, 7, 0, 6, ColumnMatrix(Neg3(tau)), 3, 1);
    SetBlock(a2, 7, 7, 3, 3, px, 3, 3)
  }

  // ---------------------------------------------------------------- broadcast_inputs

  /** The flattened inputs of a group operation and the batch shape to restore afterwards. */
  datatype Flattened = Flattened(inputs: seq<Tensor>, batch: Shape)

  /** t.reshape(-1, t.shape[-1]); a last dimension of 0 leaves the -1 undetermined. */
  function Rows(t: Tensor): (r: Result<Tensor>)
    requires t.Valid() && |t.shape| > 0
    ensures r.Err? <==> t.shape[|t.shape| - 1] == 0
    ensures r.Ok? ==> r.value.Valid() && r.value.data == t.data
    ensures r.Ok? ==> r.value.shape == [Prod(Batch(t.shape)), t.shape[|t.shape| - 1]]
  {
    var d, p := t.shape[|t.shape| - 1], Prod(Batch(t.shape));
    ProdAppend(Batch(t.shape), d);
    assert Prod([p, d]) == p * d by {
      assert [p, d][1..] == [d] && [d][1..] == [];
      assert Prod([d]) == d;
    }
    if d == 0 then Err(AmbiguousReshape) else Ok(Tensor([Prod(Batch(t.shape)), d], t.data))
  }

  /** x.expand(shape + (x.shape[-1],)) followed by Rows. */
  function ExpandRows(t: Tensor, shape: Shape): (r: Result<Tensor>)
    requires t.Valid() && |t.shape| > 0 && ExpandableTo(Batch(t.shape), shape)
    ensures r.Err? <==> t.shape[|t.shape| - 1] == 0
    ensures r.Ok? ==> r.value.Valid() && r.value.shape == [Prod(shape), t.shape[|t.shape| - 1]]
  {
    var d := t.shape[|t.shape| - 1];
    ExpandableAppend(Batch(t.shape), shape, d);
    ProdAppend(shape, d);
    Rows(Tensor(shape + [d], Expand(t.shape, shape + [d], t.data)))
  }

  /**
    * broadcast_inputs: without y, x flattened to rows; with y, both batch shapes broadcast,
    * each input expanded to the common batch shape (at least one row) and flattened.
    */
  function BroadcastInputs(x: Tensor, y: Option<Tensor>): (r: Result<Flattened>)
    requires x.Valid() && (y.Some? ==> y.value.Valid())
    ensures y.None? ==> (r.Ok? <==> |x.shape| > 0 && x.shape[|x.shape| - 1] != 0)
    ensures y.None? && r.Ok? ==>
      r.value.batch == Batch(x.shape) && |r.value.inputs| == 1 && r.value.inputs[0].data == x.data
  {
    match y
    case None =>
      if |x.shape| == 0 then Err(IndexOutOfRange)
      else
        (match Rows(x)
         case Err(e) => Err(e)
         case Ok(xs) => Ok(Flattened([xs], Batch(x.shape))))
    case Some(y) =>
      match BroadcastShapes(Batch(x.shape), Batch(y.shape))
      case None => Err(ShapeMismatch)
      case Some(out) =>
        BroadcastExpandable(Batch(x.shape), Batch(y.shape));
        var shape := if out == [] then [1] else out;
        assert ExpandableTo(Batch(x.shape), shape) && ExpandableTo(Batch(y.shape), shape);
        if |x.shape| == 0 then Err(IndexOutOfRange)
        else
          match ExpandRows(x, shape)
          case Err(e) => Err(e)
          case Ok(xs) =>
            if |y.shape| == 0 then Err(IndexOutOfRange)
            else
              (match ExpandRows(y, shape)
               case Err(e) => Err(e)
               case Ok(ys) => Ok(Flattened([xs, ys], out)))
  }

  /**
    * With two inputs broadcast_inputs fails exactly when the batch shapes clash, an input is
    * 0-dimensional or has a last dimension of 0.
    */
  lemma BroadcastInputsPair(x: Tensor, y: Tensor)
    requires x.Valid() && y.Valid()
    ensures var r := BroadcastInputs(x, Some(y));
      r.Ok? <==>
        (Compatible(Batch(x.shape), Batch(y.shape)) && |x.shape| > 0 && |y.shape| > 0
         && x.shape[|x.shape| - 1] != 0 && y.shape[|y.shape| - 1] != 0)
  {
    var xb, yb := Batch(x.shape), Batch(y.shape);
    BroadcastShapesCorrect(xb, yb);
    match BroadcastShapes(xb, yb)
    case None =>
    case Some(out) =>
      var shape := if out == [] then [1] else out;
      BroadcastExpandable(xb, yb);
  }

  /**
    * When broadcast_inputs succeeds on two inputs, both flattened inputs have Prod(out) rows
    * (one row for an empty batch shape) and keep their last dimension.
    */
  lemma BroadcastInputsPairShapes(x: Tensor, y: Tensor)
    requires x.Valid() && y.Valid()
    ensures var r := BroadcastInputs(x, Some(y));
      r.Ok? ==>
        && r.value.batch == BroadcastShapes(Batch(x.shape), Batch(y.shape)).value
        && |r.value.batch| == Max(|x.shape|, |y.shape|) - 1
        && |r.value.inputs| == 2
        && r.value.inputs[0].shape == [Prod(r.value.batch), x.shape[|x.shape| - 1]]
        && r.value.inputs[1].shape == [Prod(r.value.batch), y.shape[|y.shape| - 1]]
        && r.value.inputs[0].Valid() && r.value.inputs[1].Valid()
  {
    var xb, yb := Batch(x.shape), Batch(y.shape);
    var r := BroadcastInputs(x, Some(y));
    if r.Ok? {
      BroadcastInputsPair(x, y);
      BroadcastShapesCorrect(xb, yb);
      var out := BroadcastShapes(xb, yb).value;
      assert |out| == Max(|x.shape|, |y.shape|) - 1;
      var shape := if out == [] then [1] else out;
      ProdPadded(out);
      BroadcastExpandable(xb, yb);
      var ex, ey := ExpandRows(x, shape), ExpandRows(y, shape);
      assert r.value == Flattened([ex.value, ey.value], out);
    }
  }

  /**
    * Expanding a tensor to its own batch shape (or to (1,) when it has none) and flattening
    * it keeps its elements.
    */
  lemma ExpandRowsPadded(t: Tensor, shape: Shape)
    requires t.Valid() && |t.shape| > 0 && t.shape[|t.shape| - 1] != 0
    requires shape == (if Batch(t.shape) == [] then [1] else Batch(t.shape))
    ensures ExpandableTo(Batch(t.shape), shape)
    ensures ExpandRows(t, shape).Ok? && ExpandRows(t, shape).value.data == t.data
  {
    BatchExpandableToPadded(t, shape);
    ExpandToPaddedBatch(t, shape);
    ExpandRowsOfUnchanged(t, shape);
  }

  /** A batch shape can be expanded to itself, or to (1,) when it is empty. */
  lemma BatchExpandableToPadded(t: Tensor, shape: Shape)
    requires |t.shape| > 0
    requires shape == (if Batch(t.shape) == [] then [1] else Batch(t.shape))
    ensures ExpandableTo(Batch(t.shape), shape)
  {
    var b := Batch(t.shape);
    if b != [] {
      assert forall i :: 0 <= i < |b| ==> DimR(b, i) == DimR(shape, i);
    }
  }

  /** Expanding to the padded batch shape followed by the last dimension copies nothing. */
  lemma ExpandToPaddedBatch(t: Tensor, shape: Shape)
    requires t.Valid() && |t.shape| > 0
    requires shape == (if Batch(t.shape) == [] then [1] else Batch(t.shape))
    ensures var full := shape + [t.shape[|t.shape| - 1]];
      ExpandableTo(t.shape, full) && Expand(t.shape, full, t.data) == t.data
  {
    var full := shape + [t.shape[|t.shape| - 1]];
    if Batch(t.shape) == [] {
      assert Tensors.Ones(1) == [1];
      assert full == Tensors.Ones(1) + t.shape;
    } else {
      assert full == Tensors.Ones(0) + t.shape;
    }
    ExpandPadded(t.shape, full, t.data);
  }

  /** When the expansion copies nothing, ExpandRows only reshapes. */
  lemma ExpandRowsOfUnchanged(t: Tensor, shape: Shape)
    requires t.Valid() && |t.shape| > 0 && t.shape[|t.shape| - 1] != 0
    requires ExpandableTo(Batch(t.shape), shape)
    requires ExpandableTo(t.shape, shape + [t.shape[|t.shape| - 1]])
    requires Expand(t.shape, shape + [t.shape[|t.shape| - 1]], t.data) == t.data
    ensures ExpandRows(t, shape).Ok? && ExpandRows(t, shape).value.data == t.data
  {
  }

  /** Inputs with the same batch shape are only flattened: broadcasting copies nothing. */
  lemma BroadcastInputsSameBatch(x: Tensor, y: Tensor)
    requires x.Valid() && y.Valid() && |x.shape| > 0 && |y.shape| > 0
    requires Batch(x.shape) == Batch(y.shape)
    requires x.shape[|x.shape| - 1] != 0 && y.shape[|y.shape| - 1] != 0
    ensures var r := BroadcastInputs(x, Some(y));
      r.Ok? && r.value.batch == Batch(x.shape) && r.value.inputs[0].data == x.data && r.value.inputs[1].data == y.data
  {
    var b := Batch(x.shape);
    BroadcastShapesSame(b);
    var shape := if b == [] then [1] else b;
    var ex, ey := ExpandRows(x, shape), ExpandRows(y, shape);
    ExpandRowsPadded(x, shape);
    ExpandRowsPadded(y, shape);
    assert BroadcastInputs(x, Some(y)) == Ok(Flattened([ex.value, ey.value], b));
  }
}
