/**
 * Dense real vectors and matrices (a matrix is a sequence of rows), the 3-vector algebra
 * the Lie-group formulas use, and the skew-symmetric matrix of a 3-vector. vec2skew comes
 * from pypose/lietensor/basics.py, which is not part of this model; Skew is its standard
 * definition.
 */
module Dense {

  type Vector = seq<real>
  type Matrix = seq<seq<real>>

  ghost predicate IsMatrix(m: Matrix, r: nat, c: nat)
  {
    |m| == r && forall i :: 0 <= i < r ==> |m[i]| == c
  }

  // ---------------------------------------------------------------- vectors

  function Dot(u: Vector, v: Vector): real
    requires |u| == |v|
  {
    if |u| == 0 then 0.0 else u[0] * v[0] + Dot(u[1..], v[1..])
  }

  lemma {:induction false} DotSymmetric(u: Vector, v: Vector)
    requires |u| == |v|
    ensures Dot(u, v) == Dot(v, u)
  {
    if |u| > 0 { DotSymmetric(u[1..], v[1..]); }
  }

  /** The first term of a dot product whose leading entries share a strict sign is positive. */
  lemma DotHeadPositive(u: Vector, v: Vector)
    requires |u| == |v| > 0 && Dot(u[1..], v[1..]) >= 0.0
    requires (u[0] > 0.0 && v[0] > 0.0) || (u[0] < 0.0 && v[0] < 0.0)
    ensures Dot(u, v) > 0.0
  {
    if u[0] < 0.0 {
      assert (-u[0]) * (-v[0]) > 0.0;
    }
  }

  lemma {:induction false} DotSelfNonNegative(u: Vector)
    ensures Dot(u, u) >= 0.0
  {
    if |u| > 0 {
      DotSelfNonNegative(u[1..]);
      if u[0] != 0.0 {
        DotHeadPositive(u, u);
      }
    }
  }

  lemma {:induction false} DotSelfPositive(u: Vector, i: nat)
    requires i < |u| && u[i] != 0.0
    ensures Dot(u, u) > 0.0
  {
    DotSelfNonNegative(u[1..]);
    if u[0] != 0.0 {
      DotHeadPositive(u, u);
    } else {
      assert u[1..][i - 1] == u[i];
      DotSelfPositive(u[1..], i - 1);
    }
  }

  lemma {:induction false} DotSelfZero(u: Vector)
    requires forall i :: 0 <= i < |u| ==> u[i] == 0.0
    ensures Dot(u, u) == 0.0
  {
    if |u| > 0 {
      assert forall i :: 0 <= i < |u[1..]| ==> u[1..][i] == u[i + 1];
      DotSelfZero(u[1..]);
    }
  }

  /** A vector's square norm is non-negative and vanishes exactly on the zero vector. */
  lemma DotSelf(u: Vector)
    ensures Dot(u, u) >= 0.0
    ensures Dot(u, u) == 0.0 <==> forall i :: 0 <= i < |u| ==> u[i] == 0.0
  {
    DotSelfNonNegative(u);
    if forall i :: 0 <= i < |u| ==> u[i] == 0.0 {
      DotSelfZero(u);
    } else {
      var i :| 0 <= i < |u| && u[i] != 0.0;
      DotSelfPositive(u, i);
    }
  }

  /** Elementwise product (torch's `*` on equal shapes). */
  function Hadamard(u: Vector, v: Vector): (r: Vector)
    requires |u| == |v|
    ensures |r| == |u| && forall i :: 0 <= i < |u| ==> r[i] == u[i] * v[i]
  {
    seq(|u|, i requires 0 <= i < |u| => u[i] * v[i])
  }

  /** The tail of an elementwise product is the product of the tails. */
  lemma HadamardTail(k: Vector, c: Vector)
    requires |k| == |c| > 0
    ensures Hadamard(k, c)[1..] == Hadamard(k[1..], c[1..])
  {
    var h, t := Hadamard(k, c), Hadamard(k[1..], c[1..]);
    forall i | 0 <= i < |k| - 1
      ensures h[1..][i] == t[i]
    {
      assert h[1..][i] == h[i + 1] == k[i + 1] * c[i + 1];
    }
    assert h[1..] == t;
  }

  /** Moving a weight vector from one factor of a dot product to the other. */
  lemma {:induction false} DotHadamardShift(k: Vector, c: Vector, e: Vector)
    requires |k| == |c| == |e|
    ensures Dot(Hadamard(k, c), e) == Dot(c, Hadamard(k, e))
  {
    if |k| > 0 {
      DotHadamardShift(k[1..], c[1..], e[1..]);
      HadamardTail(k, c);
      HadamardTail(k, e);
      var h1, h2 := Hadamard(k, c), Hadamard(k, e);
      assert h1[0] * e[0] == c[0] * h2[0] by {
        assert h1[0] == k[0] * c[0] && h2[0] == k[0] * e[0];
      }
    }
  }

  /** Multiplying u entrywise by a constant vector of s's scales its dot product t with e by s. */
  lemma {:induction false} DotHadamardConst(s: real, u: Vector, b: Vector, e: Vector, t: real)
    requires |u| == |b| == |e| && t == Dot(u, e)
    requires forall i :: 0 <= i < |b| ==> b[i] == s
    ensures Dot(Hadamard(u, b), e) == s * t
  {
    if |u| > 0 {
      var h := Hadamard(u, b);
      DotHadamardConst(s, u[1..], b[1..], e[1..], Dot(u[1..], e[1..]));
      HadamardTail(u, b);
      assert h[0] * e[0] == s * (u[0] * e[0]) by {
        assert h[0] == u[0] * s;
      }
    }
  }

  /** The vector of n copies of a. */
  function Fill(n: nat, a: real): (r: Vector)
    ensures |r| == n && forall i :: 0 <= i < n ==> r[i] == a
  {
    seq(n, _ => a)
  }

  /** Multiplying u entrywise by copies of any a scales its dot product t with e by a. */
  lemma DotHadamardFill(u: Vector, e: Vector, t: real)
    requires |u| == |e| && t == Dot(u, e)
    ensures forall a :: Dot(Hadamard(u, Fill(|u|, a)), e) == a * t
  {
    forall a
      ensures Dot(Hadamard(u, Fill(|u|, a)), e) == a * t
    {
      DotHadamardConst(a, u, Fill(|u|, a), e, t);
    }
  }

  function Ones(n: nat): (r: Vector)
    ensures |r| == n && forall i :: 0 <= i < n ==> r[i] == 1.0
  {
    seq(n, i => 1.0)
  }

  lemma HadamardOnes(u: Vector)
    ensures Hadamard(Ones(|u|), u) == u
  {
  }

  function AddVec(u: Vector, v: Vector): (r: Vector)
    requires |u| == |v|
    ensures |r| == |u| && forall i :: 0 <= i < |u| ==> r[i] == u[i] + v[i]
  {
    seq(|u|, i requires 0 <= i < |u| => u[i] + v[i])
  }

  // ---------------------------------------------------------------- matrices

  /** Column j of a matrix whose rows all have more than j entries. */
  function Column(m: Matrix, j: nat): (c: Vector)
    requires forall i :: 0 <= i < |m| ==> j < |m[i]|
    ensures |c| == |m| && forall i :: 0 <= i < |m| ==> c[i] == m[i][j]
  {
    seq(|m|, i requires 0 <= i < |m| => m[i][j])
  }

  /** Matrix times vector. */
  function MatVec(m: Matrix, x: Vector): (r: Vector)
    requires forall i :: 0 <= i < |m| ==> |m[i]| == |x|
    ensures |r| == |m| && forall i :: 0 <= i < |m| ==> r[i] == Dot(m[i], x)
  {
    seq(|m|, i requires 0 <= i < |m| => Dot(m[i], x))
  }

  /** J^T e for a matrix J with n columns. */
  function TransposeTimes(j: Matrix, n: nat, e: Vector): (r: Vector)
    requires IsMatrix(j, |e|, n)
    ensures |r| == n && forall c :: 0 <= c < n ==> r[c] == Dot(Column(j, c), e)
  {
    seq(n, c requires 0 <= c < n => Dot(Column(j, c), e))
  }

  /** J^T J for a matrix J with n columns: entry (a, b) is the dot product of columns a and b. */
  function Gram(j: Matrix, n: nat): (g: Matrix)
    requires forall i :: 0 <= i < |j| ==> |j[i]| == n
    ensures IsMatrix(g, n, n)
    ensures forall a, b :: 0 <= a < n && 0 <= b < n ==> g[a][b] == Dot(Column(j, a), Column(j, b))
  {
    seq(n, a requires 0 <= a < n => seq(n, b requires 0 <= b < n => Dot(Column(j, a), Column(j, b))))
  }

  /** J^T J is symmetric with a non-negative diagonal. */
  lemma GramProperties(j: Matrix, n: nat)
    requires forall i :: 0 <= i < |j| ==> |j[i]| == n
    ensures forall a, b :: 0 <= a < n && 0 <= b < n ==> Gram(j, n)[a][b] == Gram(j, n)[b][a]
    ensures forall a :: 0 <= a < n ==> Gram(j, n)[a][a] >= 0.0
  {
    var g := Gram(j, n);
    forall a, b | 0 <= a < n && 0 <= b < n ensures g[a][b] == g[b][a] {
      DotSymmetric(Column(j, a), Column(j, b));
    }
    forall a | 0 <= a < n ensures g[a][a] >= 0.0 {
      DotSelf(Column(j, a));
    }
  }

  function Zeros(r: nat, c: nat): (m: Matrix)
    ensures IsMatrix(m, r, c) && forall i, k :: 0 <= i < r && 0 <= k < c ==> m[i][k] == 0.0
  {
    seq(r, i => seq(c, k => 0.0))
  }

  function Eye(n: nat): (m: Matrix)
    ensures IsMatrix(m, n, n)
    ensures forall i, k :: 0 <= i < n && 0 <= k < n ==> m[i][k] == if i == k then 1.0 else 0.0
  {
    seq(n, i => seq(n, k => if i == k then 1.0 else 0.0))
  }

  /**
   * In-place slice assignment m[r0:r0+|b|, c0:c0+cols] = b, as a value: entries inside the
   * block come from b and every other entry is kept.
   */
  function SetBlock(m: Matrix, rows: nat, cols: nat, r0: nat, c0: nat, b: Matrix, br: nat, bc: nat): (r: Matrix)
    requires IsMatrix(m, rows, cols) && IsMatrix(b, br, bc)
    requires r0 + br <= rows && c0 + bc <= cols
    ensures IsMatrix(r, rows, cols)
    ensures forall i, k :: 0 <= i < rows && 0 <= k < cols ==>
      r[i][k] == if r0 <= i < r0 + br && c0 <= k < c0 + bc then b[i - r0][k - c0] else m[i][k]
  {
    seq(rows, i requires 0 <= i < rows => seq(cols, k requires 0 <= k < cols =>
      if r0 <= i < r0 + br && c0 <= k < c0 + bc then b[i - r0][k - c0] else m[i][k]))
  }

  /** A vector as a one-column matrix, the right-hand side of m[..., r0:r0+n, c] = v. */
  function ColumnMatrix(v: Vector): (m: Matrix)
    ensures IsMatrix(m, |v|, 1) && forall i :: 0 <= i < |v| ==> m[i][0] == v[i]
  {
    seq(|v|, i requires 0 <= i < |v| => [v[i]])
  }

  function MatAdd(a: Matrix, b: Matrix, r: nat, c: nat): (m: Matrix)
    requires IsMatrix(a, r, c) && IsMatrix(b, r, c)
    ensures IsMatrix(m, r, c) && forall i, k :: 0 <= i < r && 0 <= k < c ==> m[i][k] == a[i][k] + b[i][k]
  {
    seq(r, i requires 0 <= i < r => seq(c, k requires 0 <= k < c => a[i][k] + b[i][k]))
  }

  function MatSub(a: Matrix, b: Matrix, r: nat, c: nat): (m: Matrix)
    requires IsMatrix(a, r, c) && IsMatrix(b, r, c)
    ensures IsMatrix(m, r, c) && forall i, k :: 0 <= i < r && 0 <= k < c ==> m[i][k] == a[i][k] - b[i][k]
  {
    seq(r, i requires 0 <= i < r => seq(c, k requires 0 <= k < c => a[i][k] - b[i][k]))
  }

  function MatScale(s: real, a: Matrix, r: nat, c: nat): (m: Matrix)
    requires IsMatrix(a, r, c)
    ensures IsMatrix(m, r, c) && forall i, k :: 0 <= i < r && 0 <= k < c ==> m[i][k] == s * a[i][k]
  {
    seq(r, i requires 0 <= i < r => seq(c, k requires 0 <= k < c => s * a[i][k]))
  }

  /** u v^T (torch: u.unsqueeze(-1) * v.unsqueeze(-2)). */
  function Outer(u: Vector, v: Vector): (m: Matrix)
    ensures IsMatrix(m, |u|, |v|) && forall i, k :: 0 <= i < |u| && 0 <= k < |v| ==> m[i][k] == u[i] * v[k]
  {
    seq(|u|, i requires 0 <= i < |u| => seq(|v|, k requires 0 <= k < |v| => u[i] * v[k]))
  }

  function Transpose(a: Matrix, r: nat, c: nat): (m: Matrix)
    requires IsMatrix(a, r, c)
    ensures IsMatrix(m, c, r) && forall i, k :: 0 <= i < c && 0 <= k < r ==> m[i][k] == a[k][i]
  {
    seq(c, i requires 0 <= i < c => seq(r, k requires 0 <= k < r => a[k][i]))
  }

  /** The product of an r x n and an n x c matrix. */
  function MatMul(a: Matrix, b: Matrix, r: nat, n: nat, c: nat): (m: Matrix)
    requires IsMatrix(a, r, n) && IsMatrix(b, n, c)
    ensures IsMatrix(m, r, c) && forall i, k :: 0 <= i < r && 0 <= k < c ==> m[i][k] == Dot(a[i], Column(b, k))
  {
    seq(r, i requires 0 <= i < r => seq(c, k requires 0 <= k < c => Dot(a[i], Column(b, k))))
  }

  /** (A^T B^T)^T = B A. */
  lemma TransposeProduct(a: Matrix, b: Matrix, r: nat, n: nat, c: nat)
    requires IsMatrix(a, n, r) && IsMatrix(b, c, n)
    ensures Transpose(MatMul(Transpose(a, n, r), Transpose(b, c, n), r, n, c), r, c) == MatMul(b, a, c, n, r)
  {
    var at, bt := Transpose(a, n, r), Transpose(b, c, n);
    var lhs := Transpose(MatMul(at, bt, r, n, c), r, c);
    var rhs := MatMul(b, a, c, n, r);
    forall i | 0 <= i < c ensures lhs[i] == rhs[i] {
      forall k | 0 <= k < r ensures lhs[i][k] == rhs[i][k] {
        assert at[k] == Column(a, k);
        assert Column(bt, i) == b[i];
        DotSymmetric(Column(a, k), b[i]);
      }
    }
  }

  // ---------------------------------------------------------------- 3-vectors

  type Vec3 = v: seq<real> | |v| == 3 witness [0.0, 0.0, 0.0]

  const Zero3: Vec3 := [0.0, 0.0, 0.0]

  function Add3(a: Vec3, b: Vec3): Vec3 { [a[0] + b[0], a[1] + b[1], a[2] + b[2]] }

  function Scale3(s: real, a: Vec3): Vec3 { [s * a[0], s * a[1], s * a[2]] }

  function Neg3(a: Vec3): Vec3 { [-a[0], -a[1], -a[2]] }

  function Sub3(a: Vec3, b: Vec3): Vec3 { [a[0] - b[0], a[1] - b[1], a[2] - b[2]] }

  function Dot3(a: Vec3, b: Vec3): real { a[0] * b[0] + a[1] * b[1] + a[2] * b[2] }

  /** torch.cross of two 3-vectors. */
  function Cross(a: Vec3, b: Vec3): Vec3
  {
    [a[1] * b[2] - a[2] * b[1], a[2] * b[0] - a[0] * b[2], a[0] * b[1] - a[1] * b[0]]
  }

  lemma Dot3IsDot(a: Vec3, b: Vec3)
    ensures Dot3(a, b) == Dot(a, b)
  {
    assert a[1..][1..][1..] == [];
    assert Dot(a[1..][1..], b[1..][1..]) == a[2] * b[2];
  }

  /** Dot on a 4-vector whose last entry is 1: the first three products plus the last entry of a. */
  lemma DotHomogeneous(a: Vector, p: Vec3)
    requires |a| == 4
    ensures Dot(a, p + [1.0]) == Dot3(a[..3], p) + a[3]
  {
    var h := p + [1.0];
    assert h[1..][1..][1..][1..] == [];
    assert Dot(a[1..][1..][1..], h[1..][1..][1..]) == a[3] * 1.0;
    assert Dot(a[1..][1..], h[1..][1..]) == a[2] * p[2] + a[3];
    assert Dot(a[1..], h[1..]) == a[1] * p[1] + a[2] * p[2] + a[3];
  }

  /** The skew matrix of the zero vector is zero, so every product with it is zero. */
  lemma SkewZeroProduct(b: Matrix)
    requires IsMatrix(b, 3, 3)
    ensures forall i, k :: 0 <= i < 3 && 0 <= k < 3 ==> MatMul(Skew(Zero3), b, 3, 3, 3)[i][k] == 0.0
  {
    var z := Skew(Zero3);
    forall i, k | 0 <= i < 3 && 0 <= k < 3
      ensures MatMul(z, b, 3, 3, 3)[i][k] == 0.0
    {
      var c := Column(b, k);
      assert z[i] == Zero3;
      Dot3IsDot(z[i], c);
    }
  }

  /** The 3 x 3 matrix of v with Skew(v) p = v x p. */
  function Skew(v: Vec3): (m: Matrix)
    ensures IsMatrix(m, 3, 3)
  {
    [[0.0, -v[2], v[1]],
     [v[2], 0.0, -v[0]],
     [-v[1], v[0], 0.0]]
  }

  /** A 3 x 3 matrix times a 3-vector: the dot product of each row with p. */
  function MatVec3(m: Matrix, p: Vec3): Vec3
    requires IsMatrix(m, 3, 3)
  {
    [Dot3(m[0], p), Dot3(m[1], p), Dot3(m[2], p)]
  }

  lemma MatVec3IsMatVec(m: Matrix, p: Vec3)
    requires IsMatrix(m, 3, 3)
    ensures MatVec3(m, p) == MatVec(m, p)
  {
    Dot3IsDot(m[0], p);
    Dot3IsDot(m[1], p);
    Dot3IsDot(m[2], p);
  }

  /** The skew matrix represents the cross product, and is antisymmetric. */
  lemma SkewIsCross(v: Vec3, p: Vec3)
    ensures MatVec3(Skew(v), p) == Cross(v, p)
    ensures Transpose(Skew(v), 3, 3) == Skew(Neg3(v))
  {
    var m := Skew(v);
    assert m[0][0] == 0.0 && m[0][1] == -v[2] && m[0][2] == v[1];
    assert m[1][0] == v[2] && m[1][1] == 0.0 && m[1][2] == -v[0];
    assert m[2][0] == -v[1] && m[2][1] == v[0] && m[2][2] == 0.0;
    var q, x := MatVec3(m, p), Cross(v, p);
    assert q[0] == x[0] && q[1] == x[1] && q[2] == x[2];
    var t, s := Transpose(Skew(v), 3, 3), Skew(Neg3(v));
    assert t[0] == s[0] && t[1] == s[1] && t[2] == s[2];
  }

  // ---------------------------------------------------------------- 3-vector algebra

  /** Scaling the right factor of a cross product scales the product. */
  lemma CrossScaleRight(v: Vec3, p: Vec3, k: real)
    ensures Cross(v, Scale3(k, p)) == Scale3(k, Cross(v, p))
  {
    var l, r := Cross(v, Scale3(k, p)), Scale3(k, Cross(v, p));
    assert l[0] == r[0] && l[1] == r[1] && l[2] == r[2];
    Vec3Ext(l, r);
  }

  /** The cross product distributes over a sum in its right factor. */
  lemma CrossAddRight(v: Vec3, p: Vec3, q: Vec3)
    ensures Cross(v, Add3(p, q)) == Add3(Cross(v, p), Cross(v, q))
  {
    var l, r := Cross(v, Add3(p, q)), Add3(Cross(v, p), Cross(v, q));
    assert l[0] == r[0] && l[1] == r[1] && l[2] == r[2];
    Vec3Ext(l, r);
  }

  /** Regrouping a sum of six vectors. */
  lemma AddInterchange(p: Vec3, q: Vec3, a: Vec3, b: Vec3, c: Vec3, d: Vec3)
    ensures Add3(Add3(Add3(p, q), Add3(a, b)), Add3(c, d)) == Add3(Add3(Add3(p, a), c), Add3(Add3(q, b), d))
  {
    var l, r := Add3(Add3(Add3(p, q), Add3(a, b)), Add3(c, d)), Add3(Add3(Add3(p, a), c), Add3(Add3(q, b), d));
    assert l[0] == r[0] && l[1] == r[1] && l[2] == r[2];
    Vec3Ext(l, r);
  }

  /** Two scalings commute. */
  lemma ScaleScale(a: real, k: real, u: Vec3)
    ensures Scale3(a, Scale3(k, u)) == Scale3(k, Scale3(a, u))
  {
    var l, r := Scale3(a, Scale3(k, u)), Scale3(k, Scale3(a, u));
    assert l[0] == r[0] && l[1] == r[1] && l[2] == r[2];
    Vec3Ext(l, r);
  }

  /** Scaling distributes over a sum. */
  lemma AddScale(k: real, u: Vec3, v: Vec3)
    ensures Add3(Scale3(k, u), Scale3(k, v)) == Scale3(k, Add3(u, v))
  {
    var l, r := Add3(Scale3(k, u), Scale3(k, v)), Scale3(k, Add3(u, v));
    assert l[0] == r[0] && l[1] == r[1] && l[2] == r[2];
    Vec3Ext(l, r);
  }

  /** The vector triple product: v x (v x p) = (v . p) v - (v . v) p. */
  lemma CrossCross(v: Vec3, p: Vec3)
    ensures Cross(v, Cross(v, p)) == Sub3(Scale3(Dot3(v, p), v), Scale3(Dot3(v, v), p))
  {
    var l, r := Cross(v, Cross(v, p)), Sub3(Scale3(Dot3(v, p), v), Scale3(Dot3(v, v), p));
    CrossCrossX(v, p);
    CrossCrossY(v, p);
    CrossCrossZ(v, p);
    Vec3Ext(l, r);
  }

  /** The first coordinate of the triple product. */
  lemma CrossCrossX(v: Vec3, p: Vec3)
    ensures Cross(v, Cross(v, p))[0] == Dot3(v, p) * v[0] - Dot3(v, v) * p[0]
  {
    var c := Cross(v, p);
    CrossCrossCoordinate(v[0], v[1], v[2], p[0], p[1], p[2], c[2], c[1], Dot3(v, p), Dot3(v, v));
  }

  /** The second coordinate of the triple product. */
  lemma CrossCrossY(v: Vec3, p: Vec3)
    ensures Cross(v, Cross(v, p))[1] == Dot3(v, p) * v[1] - Dot3(v, v) * p[1]
  {
    var c := Cross(v, p);
    CrossCrossCoordinate(v[1], v[2], v[0], p[1], p[2], p[0], c[0], c[2], Dot3(v, p), Dot3(v, v));
  }

  /** The third coordinate of the triple product. */
  lemma CrossCrossZ(v: Vec3, p: Vec3)
    ensures Cross(v, Cross(v, p))[2] == Dot3(v, p) * v[2] - Dot3(v, v) * p[2]
  {
    var c := Cross(v, p);
    CrossCrossCoordinate(v[2], v[0], v[1], p[2], p[0], p[1], c[1], c[0], Dot3(v, p), Dot3(v, v));
  }

  /**
    * One coordinate of the identity above, for v = (a, b, c) and p = (x, y, z) read
    * cyclically: s and t are the entries of v x p it uses, d = v . p and n = v . v.
    */
  lemma CrossCrossCoordinate(a: real, b: real, c: real, x: real, y: real, z: real, s: real, t: real, d: real, n: real)
    requires s == a * y - b * x && t == c * x - a * z
    requires d == a * x + b * y + c * z && n == a * a + b * b + c * c
    ensures b * s - c * t == d * a - n * x
  {
    assert b * s == a * b * y - b * b * x;
    assert c * t == c * c * x - a * c * z;
    assert d * a == a * a * x + a * b * y + a * c * z;
    assert n * x == a * a * x + b * b * x + c * c * x;
  }

  /** The dot product is linear in its left factor. */
  lemma Dot3Linear(a: Vec3, b: Vec3, p: Vec3)
    ensures Dot3(Add3(a, b), p) == Dot3(a, p) + Dot3(b, p)
    ensures Dot3(Sub3(a, b), p) == Dot3(a, p) - Dot3(b, p)
  {
  }

  /** Scaling the left factor of a dot product scales the product. */
  lemma Dot3Scale(s: real, a: Vec3, p: Vec3)
    ensures Dot3(Scale3(s, a), p) == s * Dot3(a, p)
  {
    var t := Scale3(s, a);
    assert t[0] * p[0] == (s * a[0]) * p[0];
    assert t[1] * p[1] == (s * a[1]) * p[1];
    assert t[2] * p[2] == (s * a[2]) * p[2];
  }

  /** Row i of a sum of 3 x 3 matrices. */
  lemma RowAdd(a: Matrix, b: Matrix, i: nat)
    requires IsMatrix(a, 3, 3) && IsMatrix(b, 3, 3) && i < 3
    ensures MatAdd(a, b, 3, 3)[i] == Add3(a[i], b[i])
  {
    Vec3Ext(MatAdd(a, b, 3, 3)[i], Add3(a[i], b[i]));
  }

  /** Row i of a difference of 3 x 3 matrices. */
  lemma RowSub(a: Matrix, b: Matrix, i: nat)
    requires IsMatrix(a, 3, 3) && IsMatrix(b, 3, 3) && i < 3
    ensures MatSub(a, b, 3, 3)[i] == Sub3(a[i], b[i])
  {
    Vec3Ext(MatSub(a, b, 3, 3)[i], Sub3(a[i], b[i]));
  }

  /** Row i of a multiple of a 3 x 3 matrix. */
  lemma RowScale(s: real, a: Matrix, i: nat)
    requires IsMatrix(a, 3, 3) && i < 3
    ensures MatScale(s, a, 3, 3)[i] == Scale3(s, a[i])
  {
    Vec3Ext(MatScale(s, a, 3, 3)[i], Scale3(s, a[i]));
  }

  /** Row i of u v^T is u[i] v. */
  lemma OuterRow(u: Vec3, v: Vec3, i: nat)
    requires i < 3
    ensures Outer(u, v)[i] == Scale3(u[i], v)
  {
    Vec3Ext(Outer(u, v)[i], Scale3(u[i], v));
  }

  /** Applying a sum of 3 x 3 matrices is the sum of the applications. */
  lemma MatVec3Add(a: Matrix, b: Matrix, p: Vec3)
    requires IsMatrix(a, 3, 3) && IsMatrix(b, 3, 3)
    ensures MatVec3(MatAdd(a, b, 3, 3), p) == Add3(MatVec3(a, p), MatVec3(b, p))
  {
    RowAdd(a, b, 0);
    RowAdd(a, b, 1);
    RowAdd(a, b, 2);
    Dot3Linear(a[0], b[0], p);
    Dot3Linear(a[1], b[1], p);
    Dot3Linear(a[2], b[2], p);
    Vec3Ext(MatVec3(MatAdd(a, b, 3, 3), p), Add3(MatVec3(a, p), MatVec3(b, p)));
  }

  /** Applying a difference of 3 x 3 matrices is the difference of the applications. */
  lemma MatVec3Sub(a: Matrix, b: Matrix, p: Vec3)
    requires IsMatrix(a, 3, 3) && IsMatrix(b, 3, 3)
    ensures MatVec3(MatSub(a, b, 3, 3), p) == Sub3(MatVec3(a, p), MatVec3(b, p))
  {
    RowSub(a, b, 0);
    RowSub(a, b, 1);
    RowSub(a, b, 2);
    Dot3Linear(a[0], b[0], p);
    Dot3Linear(a[1], b[1], p);
    Dot3Linear(a[2], b[2], p);
    Vec3Ext(MatVec3(MatSub(a, b, 3, 3), p), Sub3(MatVec3(a, p), MatVec3(b, p)));
  }

  /** A row scaled entrywise by s, dotted with p. */
  lemma ScaledRowDot(s: real, a0: real, a1: real, a2: real, m0: real, m1: real, m2: real, p0: real, p1: real, p2: real)
    requires m0 == s * a0 && m1 == s * a1 && m2 == s * a2
    ensures m0 * p0 + m1 * p1 + m2 * p2 == s * (a0 * p0 + a1 * p1 + a2 * p2)
  {
  }

  /** Row k of a scaled 3 x 3 matrix applied to p. */
  lemma MatVec3ScaleAt(s: real, a: Matrix, p: Vec3, k: nat)
    requires IsMatrix(a, 3, 3) && k < 3
    ensures MatVec3(MatScale(s, a, 3, 3), p)[k] == s * Dot3(a[k], p)
  {
    var m := MatScale(s, a, 3, 3);
    ScaledRowDot(s, a[k][0], a[k][1], a[k][2], m[k][0], m[k][1], m[k][2], p[0], p[1], p[2]);
    assert MatVec3(m, p)[k] == Dot3(m[k], p);
  }

  /** Applying a multiple of a 3 x 3 matrix is the multiple of the application. */
  lemma MatVec3Scale(s: real, a: Matrix, p: Vec3)
    requires IsMatrix(a, 3, 3)
    ensures MatVec3(MatScale(s, a, 3, 3), p) == Scale3(s, MatVec3(a, p))
  {
    MatVec3ScaleAt(s, a, p, 0);
    MatVec3ScaleAt(s, a, p, 1);
    MatVec3ScaleAt(s, a, p, 2);
    Vec3Ext(MatVec3(MatScale(s, a, 3, 3), p), Scale3(s, MatVec3(a, p)));
  }

  /** The identity fixes every point, and u v^T maps p to (v . p) u. */
  lemma MatVec3EyeOuter(u: Vec3, v: Vec3, p: Vec3)
    ensures MatVec3(Eye(3), p) == p
    ensures MatVec3(Outer(u, v), p) == Scale3(Dot3(v, p), u)
  {
    Vec3Ext(MatVec3(Eye(3), p), p);
    OuterRow(u, v, 0);
    OuterRow(u, v, 1);
    OuterRow(u, v, 2);
    Dot3Scale(u[0], v, p);
    Dot3Scale(u[1], v, p);
    Dot3Scale(u[2], v, p);
    var l, r := MatVec3(Outer(u, v), p), Scale3(Dot3(v, p), u);
    assert l[0] == r[0] && l[1] == r[1] && l[2] == r[2];
    Vec3Ext(l, r);
  }

  // ---------------------------------------------------------------- linear combinations of 3-vectors

  /** The scalar a x + b y + c z. */
  function Lin(a: real, b: real, c: real, x: real, y: real, z: real): real
  {
    a * x + b * y + c * z
  }

  /** The vector a x + b y + c z. */
  function Comb3(a: real, b: real, c: real, x: Vec3, y: Vec3, z: Vec3): Vec3
  {
    [Lin(a, b, c, x[0], y[0], z[0]), Lin(a, b, c, x[1], y[1], z[1]), Lin(a, b, c, x[2], y[2], z[2])]
  }

  /** One coordinate of CombCompose. */
  lemma CombComposeAt(al: real, be: real, ga: real, a: real, b: real, c: real, a2: real, b2: real, c2: real,
                      ca: real, cb: real, cc: real, xk: real, yk: real, zk: real)
    requires ca == al * a + ga * a2 && cb == al * b + be + ga * b2 && cc == al * c + ga * c2
    ensures Lin(al, be, ga, Lin(a, b, c, xk, yk, zk), yk, Lin(a2, b2, c2, xk, yk, zk)) == Lin(ca, cb, cc, xk, yk, zk)
  {
  }

  /**
    * A combination of p, y and q, where p and q are themselves combinations of x, y and z,
    * is the combination of x, y and z with the coefficients ca, cb and cc.
    */
  lemma CombCompose(al: real, be: real, ga: real, a: real, b: real, c: real, a2: real, b2: real, c2: real,
                    ca: real, cb: real, cc: real, x: Vec3, y: Vec3, z: Vec3)
    requires ca == al * a + ga * a2 && cb == al * b + be + ga * b2 && cc == al * c + ga * c2
    ensures Comb3(al, be, ga, Comb3(a, b, c, x, y, z), y, Comb3(a2, b2, c2, x, y, z)) == Comb3(ca, cb, cc, x, y, z)
  {
    CombComposeAt(al, be, ga, a, b, c, a2, b2, c2, ca, cb, cc, x[0], y[0], z[0]);
    CombComposeAt(al, be, ga, a, b, c, a2, b2, c2, ca, cb, cc, x[1], y[1], z[1]);
    CombComposeAt(al, be, ga, a, b, c, a2, b2, c2, ca, cb, cc, x[2], y[2], z[2]);
    Vec3Ext(Comb3(al, be, ga, Comb3(a, b, c, x, y, z), y, Comb3(a2, b2, c2, x, y, z)), Comb3(ca, cb, cc, x, y, z));
  }

  /** Only the first vector of a combination with coefficients 1, 0, 0 survives. */
  lemma CombFirst(x: Vec3, y: Vec3, z: Vec3)
    ensures Comb3(1.0, 0.0, 0.0, x, y, z) == x
  {
    Vec3Ext(Comb3(1.0, 0.0, 0.0, x, y, z), x);
  }

  /** Negating the last two vectors of a combination negates their coefficients. */
  lemma CombNeg(a: real, b: real, c: real, x: Vec3, y: Vec3, z: Vec3)
    ensures Comb3(a, b, c, x, Neg3(y), Neg3(z)) == Comb3(a, -b, -c, x, y, z)
  {
    Vec3Ext(Comb3(a, b, c, x, Neg3(y), Neg3(z)), Comb3(a, -b, -c, x, y, z));
  }

  /** The dot product with a combination, written out on coordinates. */
  lemma DotCombAt(v0: real, v1: real, v2: real, a: real, b: real, c: real,
                  x0: real, x1: real, x2: real, y0: real, y1: real, y2: real, z0: real, z1: real, z2: real)
    ensures v0 * Lin(a, b, c, x0, y0, z0) + v1 * Lin(a, b, c, x1, y1, z1) + v2 * Lin(a, b, c, x2, y2, z2) ==
      a * (v0 * x0 + v1 * x1 + v2 * x2) + b * (v0 * y0 + v1 * y1 + v2 * y2) + c * (v0 * z0 + v1 * z1 + v2 * z2)
  {
  }

  /** The dot product is linear in its right factor. */
  lemma DotComb(v: Vec3, a: real, b: real, c: real, x: Vec3, y: Vec3, z: Vec3)
    ensures Dot3(v, Comb3(a, b, c, x, y, z)) == a * Dot3(v, x) + b * Dot3(v, y) + c * Dot3(v, z)
  {
    DotCombAt(v[0], v[1], v[2], a, b, c, x[0], x[1], x[2], y[0], y[1], y[2], z[0], z[1], z[2]);
  }

  /** One coordinate v_i w_j - v_j w_i of v x w for a combination w. */
  lemma CrossCombAt(vi: real, vj: real, a: real, b: real, c: real,
                    xi: real, xj: real, yi: real, yj: real, zi: real, zj: real)
    ensures vi * Lin(a, b, c, xj, yj, zj) - vj * Lin(a, b, c, xi, yi, zi)
         == Lin(a, b, c, vi * xj - vj * xi, vi * yj - vj * yi, vi * zj - vj * zi)
  {
  }

  /** The cross product is linear in its right factor. */
  lemma CrossComb(v: Vec3, a: real, b: real, c: real, x: Vec3, y: Vec3, z: Vec3)
    ensures Cross(v, Comb3(a, b, c, x, y, z)) == Comb3(a, b, c, Cross(v, x), Cross(v, y), Cross(v, z))
  {
    CrossCombAt(v[1], v[2], a, b, c, x[1], x[2], y[1], y[2], z[1], z[2]);
    CrossCombAt(v[2], v[0], a, b, c, x[2], x[0], y[2], y[0], z[2], z[0]);
    CrossCombAt(v[0], v[1], a, b, c, x[0], x[1], y[0], y[1], z[0], z[1]);
    Vec3Ext(Cross(v, Comb3(a, b, c, x, y, z)), Comb3(a, b, c, Cross(v, x), Cross(v, y), Cross(v, z)));
  }

  /** v x v = 0 and v . (v x p) = 0. */
  lemma CrossOrthogonal(v: Vec3, p: Vec3)
    ensures Cross(v, v) == Zero3
    ensures Dot3(v, Cross(v, p)) == 0.0
  {
    var c := Cross(v, p);
    assert v[0] * c[0] == v[0] * v[1] * p[2] - v[0] * v[2] * p[1];
    assert v[1] * c[1] == v[1] * v[2] * p[0] - v[1] * v[0] * p[2];
    assert v[2] * c[2] == v[2] * v[0] * p[1] - v[2] * v[1] * p[0];
    Vec3Ext(Cross(v, v), Zero3);
  }

  /** a + (-a) = (-a) + a = 0. */
  lemma AddNeg(a: Vec3)
    ensures Add3(a, Neg3(a)) == Zero3 && Add3(Neg3(a), a) == Zero3
  {
    Vec3Ext(Add3(a, Neg3(a)), Zero3);
    Vec3Ext(Add3(Neg3(a), a), Zero3);
  }

  /** Negating a multiple negates the factor. */
  lemma NegScale(k: real, a: Vec3)
    ensures Neg3(Scale3(k, a)) == Scale3(-k, a)
  {
    Vec3Ext(Neg3(Scale3(k, a)), Scale3(-k, a));
  }

  /** s (-(1/s) a) = -a for s != 0. */
  lemma ScaleReciprocal(s: real, a: Vec3)
    requires s != 0.0
    ensures Scale3(s, Scale3(-(1.0 / s), a)) == Neg3(a)
  {
    assert s * -(1.0 / s) == -1.0;
    Vec3Ext(Scale3(s, Scale3(-(1.0 / s), a)), Neg3(a));
  }

  lemma Vec3Ext(a: Vec3, b: Vec3)
    requires a[0] == b[0] && a[1] == b[1] && a[2] == b[2]
    ensures a == b
  {
  }
}
