/**
 * One step of the Gauss-Newton and Levenberg-Marquardt optimizers: residual assembly,
 * kernel-weighted gradient, normal matrix and its damping, cutting the solver's delta into
 * per-parameter slices and adding them in place, and the returned loss. The Jacobian, the
 * kernel's derivative and the linear solvers are parameters of the step.
 */
module Optim {
  import opened Results
  import opened Tensors
  import opened Dense

  // ---------------------------------------------------------------- residual

  /** What the model returns, and what targets may be: one tensor or a tuple of tensors. */
  datatype Value = Single(t: Tensor) | Tuple(ts: seq<Tensor>)

  predicate ValidValue(v: Value)
  {
    match v
    case Single(t) => t.Valid()
    case Tuple(ts) => forall k :: 0 <= k < |ts| ==> ts[k].Valid()
  }

  /** Iterating targets in `zip(targets, outputs)`: a tuple yields its items, a tensor its first-axis slices. */
  function Items(v: Value): (r: Result<seq<Tensor>>)
    requires ValidValue(v)
    ensures r.Ok? ==> forall k :: 0 <= k < |r.value| ==> r.value[k].Valid()
    ensures v.Tuple? ==> r == Ok(v.ts)
  {
    match v
    case Tuple(ts) => Ok(ts)
    case Single(t) => Unbind(t)
  }

  /** The columns (t - o).view(-1, 1) of the zipped pairs, in order; the first failing pair raises. */
  function Columns(ts: seq<Tensor>, os: seq<Tensor>): (r: Result<seq<Vector>>)
    requires forall k :: 0 <= k < |ts| ==> ts[k].Valid()
    requires forall k :: 0 <= k < |os| ==> os[k].Valid()
    ensures r.Ok? ==> |r.value| == Min(|ts|, |os|)
    decreases |os|
  {
    if |ts| == 0 || |os| == 0 then Ok([])
    else
      match Sub(ts[0], os[0])
      case Err(e) => Err(e)
      case Ok(d) =>
        match Columns(ts[1..], os[1..])
        case Err(e) => Err(e)
        case Ok(cs) => Ok([d.data] + cs)
  }

  /** The columns -o.view(-1, 1) of the outputs. */
  function NegColumns(os: seq<Tensor>): (r: seq<Vector>)
    requires forall k :: 0 <= k < |os| ==> os[k].Valid()
    ensures |r| == |os| && forall k :: 0 <= k < |os| ==> r[k] == Neg(os[k]).data
  {
    seq(|os|, k requires 0 <= k < |os| => Neg(os[k]).data)
  }

  /** GaussNewton._residual: the error column E of the outputs against the optional targets. */
  function Residual(out: Value, targets: Option<Value>): (r: Result<Vector>)
    requires ValidValue(out) && (targets.Some? ==> ValidValue(targets.value))
  {
    match targets
    case Some(tg) =>
      (match out
       case Tuple(os) =>
         (match Items(tg)
          case Err(e) => Err(e)
          case Ok(ts) =>
            (match Columns(ts, os)
             case Err(e) => Err(e)
             case Ok(cs) => Cat(cs)))
       case Single(o) =>
         (match tg
          case Tuple(_) => Err(TypeMismatch)
          case Single(t) =>
            (match Sub(t, o)
             case Err(e) => Err(e)
             case Ok(d) => Ok(d.data))))
    case None =>
      match out
      case Tuple(os) => Cat(NegColumns(os))
      case Single(o) => Ok(Neg(o).data)
  }

  lemma {:induction false} ColumnsTruncate(ts: seq<Tensor>, os: seq<Tensor>)
    requires forall k :: 0 <= k < |ts| ==> ts[k].Valid()
    requires forall k :: 0 <= k < |os| ==> os[k].Valid()
    ensures var m := Min(|ts|, |os|); Columns(ts, os) == Columns(ts[..m], os[..m])
    decreases |os|
  {
    var m := Min(|ts|, |os|);
    if m > 0 {
      var a, b := ts[..m], os[..m];
      ColumnsTruncate(ts[1..], os[1..]);
      assert a[0] == ts[0] && b[0] == os[0];
      assert a[1..] == ts[1..][..m - 1] && b[1..] == os[1..][..m - 1];
      assert Min(|ts[1..]|, |os[1..]|) == m - 1;
    }
  }

  /**
    * With tuple outputs and tuple targets only the first min(len(targets), len(outputs)) pairs
    * contribute: zip drops the rest without an error.
    */
  lemma ResidualZipTruncates(os: seq<Tensor>, ts: seq<Tensor>)
    requires ValidValue(Tuple(os)) && ValidValue(Tuple(ts))
    ensures var m := Min(|ts|, |os|);
      Residual(Tuple(os), Some(Tuple(ts))) == Residual(Tuple(os[..m]), Some(Tuple(ts[..m])))
  {
    ColumnsTruncate(ts, os);
    var m := Min(|ts|, |os|);
    assert ts[..m][..m] == ts[..m] && os[..m][..m] == os[..m];
  }

  /** The flattened differences t_k - o_k of the first m pairs of equally long tensors. */
  function Diffs(ts: seq<Tensor>, os: seq<Tensor>, m: nat): (r: seq<Vector>)
    requires m <= |ts| && m <= |os|
    requires forall k :: 0 <= k < m ==> |ts[k].data| == |os[k].data|
    ensures |r| == m && forall k :: 0 <= k < m ==> r[k] == Diff(ts[k].data, os[k].data)
  {
    seq(m, k requires 0 <= k < m => Diff(ts[k].data, os[k].data))
  }

  /** Diffs of m > 0 pairs is the first difference followed by Diffs of the rest. */
  lemma DiffsCons(ts: seq<Tensor>, os: seq<Tensor>, m: nat)
    requires 0 < m <= |ts| && m <= |os|
    requires forall k :: 0 <= k < m ==> |ts[k].data| == |os[k].data|
    ensures Diffs(ts, os, m) == [Diff(ts[0].data, os[0].data)] + Diffs(ts[1..], os[1..], m - 1)
  {
    var s, s' := Diffs(ts, os, m), Diffs(ts[1..], os[1..], m - 1);
    assert forall k :: 0 < k < m ==> s[k] == s'[k - 1];
  }

  lemma {:induction false} ColumnsSameShape(ts: seq<Tensor>, os: seq<Tensor>)
    requires forall k :: 0 <= k < |ts| ==> ts[k].Valid()
    requires forall k :: 0 <= k < |os| ==> os[k].Valid()
    requires forall k :: 0 <= k < |ts| && k < |os| ==> ts[k].shape == os[k].shape
    ensures var m := Min(|ts|, |os|);
      Columns(ts, os) == Ok(Diffs(ts, os, m))
    decreases |os|
  {
    var m := Min(|ts|, |os|);
    if m > 0 {
      SubSameShape(ts[0], os[0]);
      ColumnsSameShape(ts[1..], os[1..]);
      assert Min(|ts[1..]|, |os[1..]|) == m - 1;
      DiffsCons(ts, os, m);
    } else {
      assert Columns(ts, os) == Ok([]);
    }
  }

  /** Total element count of the first m tensors. */
  function ElementCount(os: seq<Tensor>, m: nat): nat
    requires m <= |os|
  {
    if m == 0 then 0 else ElementCount(os, m - 1) + os[m - 1].Numel()
  }

  lemma {:induction false} DiffsLength(ts: seq<Tensor>, os: seq<Tensor>, m: nat)
    requires m <= |ts| && m <= |os|
    requires forall k :: 0 <= k < m ==> |ts[k].data| == |os[k].data|
    ensures TotalLength(Diffs(ts, os, m)) == ElementCount(os, m)
  {
    if m > 0 {
      DiffsLength(ts, os, m - 1);
      var s := Diffs(ts, os, m);
      var s' := Diffs(ts, os, m - 1);
      assert s == s' + [s[m - 1]];
      TotalLengthAppend(s', s[m - 1]);
    }
  }

  lemma {:induction false} TotalLengthAppend(cols: seq<seq<real>>, c: seq<real>)
    ensures TotalLength(cols + [c]) == TotalLength(cols) + |c|
  {
    if |cols| > 0 {
      TotalLengthAppend(cols[1..], c);
      assert (cols + [c])[1..] == cols[1..] + [c];
    }
  }

  /**
    * With tuples of equally shaped targets and outputs, E is the concatenation in tuple order
    * of the flattened differences t_k - o_k over the zipped pairs, so its length is the element
    * count of the first min(len(targets), len(outputs)) outputs; with no pair torch.cat raises.
    */
  lemma ResidualTuple(os: seq<Tensor>, ts: seq<Tensor>)
    requires ValidValue(Tuple(os)) && ValidValue(Tuple(ts))
    requires forall k :: 0 <= k < |ts| && k < |os| ==> ts[k].shape == os[k].shape
    ensures var m, r := Min(|ts|, |os|), Residual(Tuple(os), Some(Tuple(ts)));
      && (r.Ok? <==> m > 0)
      && (r.Ok? ==> r.value == Concat(Diffs(ts, os, m)))
      && (r.Ok? ==> |r.value| == ElementCount(os, m))
  {
    var m := Min(|ts|, |os|);
    ColumnsSameShape(ts, os);
    DiffsLength(ts, os, m);
    ConcatLength(Diffs(ts, os, m));
  }

  /**
    * The remaining shapes of `_residual`: one tensor against one target is their broadcast
    * difference, a tuple target against a single output cannot be subtracted, and a
    * 0-dimensional tensor target cannot be iterated against tuple outputs.
    */
  lemma ResidualCases(o: Tensor, t: Tensor, us: seq<Tensor>, os: seq<Tensor>)
    requires o.Valid() && t.Valid() && ValidValue(Tuple(us)) && ValidValue(Tuple(os))
    ensures t.shape == o.shape ==> Residual(Single(o), Some(Single(t))) == Ok(Diff(t.data, o.data))
    ensures Residual(Single(o), Some(Single(t))).Ok? <==> Compatible(t.shape, o.shape)
    ensures Residual(Single(o), Some(Tuple(us))) == Err(TypeMismatch)
    ensures |t.shape| == 0 ==> Residual(Tuple(os), Some(Single(t))) == Err(NotIterable)
  {
    if t.shape == o.shape {
      SubSameShape(t, o);
    }
  }

  /** All-zero targets of the outputs' shapes. */
  function ZerosOf(out: Value): (r: Value)
    requires ValidValue(out)
    ensures ValidValue(r)
  {
    match out
    case Single(o) => Single(ZerosLike(o))
    case Tuple(os) => Tuple(seq(|os|, k requires 0 <= k < |os| => ZerosLike(os[k])))
  }

  lemma NegIsZeroMinus(o: Tensor)
    requires o.Valid()
    ensures Sub(ZerosLike(o), o) == Ok(Neg(o))
  {
    SubSameShape(ZerosLike(o), o);
    assert Diff(ZerosLike(o).data, o.data) == Neg(o).data;
  }

  lemma {:induction false} ColumnsOfZeros(os: seq<Tensor>)
    requires forall k :: 0 <= k < |os| ==> os[k].Valid()
    ensures Columns(seq(|os|, k requires 0 <= k < |os| => ZerosLike(os[k])), os) == Ok(NegColumns(os))
    decreases |os|
  {
    if |os| > 0 {
      var zs := seq(|os|, k requires 0 <= k < |os| => ZerosLike(os[k]));
      NegIsZeroMinus(os[0]);
      ColumnsOfZeros(os[1..]);
      assert zs[1..] == seq(|os[1..]|, k requires 0 <= k < |os[1..]| => ZerosLike(os[1..][k]));
      assert NegColumns(os) == [Neg(os[0]).data] + NegColumns(os[1..]);
    }
  }

  /** Without targets the residual is the residual against all-zero targets of the same shapes. */
  lemma ResidualNoTargets(out: Value)
    requires ValidValue(out)
    ensures Residual(out, None) == Residual(out, Some(ZerosOf(out)))
  {
    match out
    case Single(o) =>
      NegIsZeroMinus(o);
    case Tuple(os) =>
      ColumnsOfZeros(os);
  }

  // ---------------------------------------------------------------- weighted gradient

  function Square(x: real): real { x * x }

  /** K: the derivative of the kernel at each E_i^2, standing for the forward-mode jacobian. */
  function Weights(dkernel: real -> real, e: Vector): (k: Vector)
    ensures |k| == |e| && forall i :: 0 <= i < |e| ==> k[i] == dkernel(Square(e[i]))
  {
    seq(|e|, i requires 0 <= i < |e| => dkernel(Square(e[i])))
  }

  /** Column c of J broadcast to len rows: a single row of J repeats J[0][c] len times. */
  function BroadcastColumn(j: Matrix, m: nat, n: nat, c: nat, len: nat): (v: Vector)
    requires IsMatrix(j, m, n) && c < n && (m == len || m == 1)
    ensures |v| == len
  {
    if m == 1 then Fill(len, j[0][c]) else Column(j, c)
  }

  /** With one row of J per residual, row c of K.T * J.T dotted with E is J[:, c] . (K * E). */
  lemma ScaledColumnDot(k: Vector, j: Matrix, m: nat, n: nat, c: nat, e: Vector)
    requires IsMatrix(j, m, n) && c < n && m == |k| == |e|
    ensures Dot(Hadamard(k, BroadcastColumn(j, m, n, c, |k|)), e) == Dot(Column(j, c), Hadamard(k, e))
  {
    var b, col := BroadcastColumn(j, m, n, c, |k|), Column(j, c);
    forall i | 0 <= i < |e|
      ensures b[i] == col[i]
    {
      if m == 1 { assert i == 0; }
    }
    assert b == col;
    DotHadamardShift(k, col, e);
  }

  /** K.T * J.T: row c is K scaled entrywise by the broadcast column c of J. */
  function ScaledRows(k: Vector, j: Matrix, m: nat, n: nat): (w: Matrix)
    requires IsMatrix(j, m, n) && (m == |k| || m == 1)
    ensures |w| == n && forall c :: 0 <= c < n ==> w[c] == Hadamard(k, BroadcastColumn(j, m, n, c, |k|))
  {
    seq(n, c requires 0 <= c < n => Hadamard(k, BroadcastColumn(j, m, n, c, |k|)))
  }

  /** With one row of J per residual, entry c of (K.T * J.T) @ E is J[:, c] . (K * E). */
  lemma ScaledRowsTimes(k: Vector, j: Matrix, m: nat, n: nat, e: Vector)
    requires IsMatrix(j, m, n) && m == |e| == |k|
    ensures forall c :: 0 <= c < n ==> MatVec(ScaledRows(k, j, m, n), e)[c] == Dot(Column(j, c), Hadamard(k, e))
  {
    forall c | 0 <= c < n
      ensures MatVec(ScaledRows(k, j, m, n), e)[c] == Dot(Column(j, c), Hadamard(k, e))
    {
      ScaledColumnDot(k, j, m, n, c, e);
    }
  }

  /** With a single row of J, entry c of (K.T * J.T) @ E is K scaled by J[0][c], dotted with E. */
  lemma ScaledRowsTimesSingle(k: Vector, j: Matrix, m: nat, n: nat, e: Vector)
    requires IsMatrix(j, m, n) && m == 1 && |k| == |e|
    ensures forall c :: 0 <= c < n ==> MatVec(ScaledRows(k, j, m, n), e)[c] == Dot(Hadamard(k, Fill(|k|, j[0][c])), e)
  {
    var w := ScaledRows(k, j, m, n);
    forall c | 0 <= c < n
      ensures MatVec(w, e)[c] == Dot(Hadamard(k, Fill(|k|, j[0][c])), e)
    {
      assert w[c] == Hadamard(k, Fill(|k|, j[0][c]));
      assert MatVec(w, e)[c] == Dot(w[c], e);
    }
  }

  /** With a single row of J, every entry c of (K.T * J.T) @ E is J[0][c] s, where s = K . E. */
  lemma ScaledRowsTimesBroadcast(k: Vector, j: Matrix, m: nat, n: nat, e: Vector, s: real)
    requires IsMatrix(j, m, n) && m == 1 && |k| == |e| && s == Dot(k, e)
    ensures forall c :: 0 <= c < n ==> MatVec(ScaledRows(k, j, m, n), e)[c] == j[0][c] * s
  {
    ScaledRowsTimesSingle(k, j, m, n, e);
    DotHadamardFill(k, e, s);
  }

  /**
    * `K.T * J.T @ E` evaluated left to right with torch broadcasting: the (1, M) row K.T
    * scales the columns of the (N, m) matrix J.T, then the product meets the (M, 1) column E.
    * This works when J has M rows, or one row that broadcasts.
    */
  function WeightedGradient(k: Vector, j: Matrix, m: nat, n: nat, e: Vector): (r: Result<Vector>)
    requires |k| == |e| && IsMatrix(j, m, n)
    ensures r.Ok? <==> m == |e| || m == 1
    ensures r.Ok? ==> |r.value| == n
    ensures r.Ok? && m == |e| ==>
      forall c :: 0 <= c < n ==> r.value[c] == Dot(Column(j, c), Hadamard(k, e))
    ensures r.Ok? && m == 1 ==> forall c :: 0 <= c < n ==> r.value[c] == j[0][c] * Dot(k, e)
  {
    if m != |e| && m != 1 then Err(ShapeMismatch)
    else
      if m == |e| then
        ScaledRowsTimes(k, j, m, n, e);
        if m == 1 then
          ScaledRowsTimesBroadcast(k, j, m, n, e, Dot(k, e));
          Ok(MatVec(ScaledRows(k, j, m, n), e))
        else Ok(MatVec(ScaledRows(k, j, m, n), e))
      else
        ScaledRowsTimesBroadcast(k, j, m, n, e, Dot(k, e));
        Ok(MatVec(ScaledRows(k, j, m, n), e))
  }

  /** With the default kernel (K = 1 everywhere) the weighted gradient is J^T E. */
  lemma DefaultKernelGradient(j: Matrix, n: nat, e: Vector)
    requires IsMatrix(j, |e|, n)
    ensures WeightedGradient(Dense.Ones(|e|), j, |e|, n, e) == Ok(TransposeTimes(j, n, e))
  {
    HadamardOnes(e);
    var r := WeightedGradient(Dense.Ones(|e|), j, |e|, n, e);
    var t := TransposeTimes(j, n, e);
    assert forall c :: 0 <= c < n ==> r.value[c] == t[c];
    assert r.value == t;
  }

  /** The identity kernel has derivative 1, so its weights are all ones. */
  lemma IdentityKernelWeights(e: Vector)
    ensures Weights(x => 1.0, e) == Dense.Ones(|e|)
  {
  }

  /** The normal matrix J^T J is N x N, symmetric, with a non-negative diagonal. */
  lemma NormalMatrix(j: Matrix, n: nat)
    requires forall i :: 0 <= i < |j| ==> |j[i]| == n
    ensures IsMatrix(Gram(j, n), n, n)
    ensures forall a, b :: 0 <= a < n && 0 <= b < n ==> Gram(j, n)[a][b] == Gram(j, n)[b][a]
    ensures forall a :: 0 <= a < n ==> Gram(j, n)[a][a] >= 0.0
  {
    GramProperties(j, n);
  }

  // ---------------------------------------------------------------- damping

  /** torch.clamp(x, min, max) = min(max(x, min), max); when min > max every value becomes max. */
  function Clamp(x: real, lo: real, hi: real): (r: real)
    ensures lo <= hi ==> lo <= r <= hi
    ensures lo <= x <= hi ==> r == x
    ensures hi < lo ==> r == hi
  {
    var m := if x < lo then lo else x;
    if m > hi then hi else m
  }

  /** The damped diagonal entry d + damping * clamp(d, min, max). */
  function DampedEntry(d: real, damping: real, lo: real, hi: real): real
  {
    d + damping * Clamp(d, lo, hi)
  }

  /** With damping > 0 and positive bounds every diagonal entry strictly increases. */
  lemma DampingIncreases(d: real, damping: real, lo: real, hi: real)
    requires damping > 0.0 && lo > 0.0 && hi > 0.0
    ensures DampedEntry(d, damping, lo, hi) > d
  {
    var c := Clamp(d, lo, hi);
    assert c > 0.0;
    assert damping * c > 0.0;
  }

  /** With the default bounds, any damping > 0 strictly increases every diagonal entry. */
  lemma DefaultDampingIncreases(d: real, damping: real)
    requires damping > 0.0
    ensures DampedEntry(d, damping, DefaultMin, DefaultMax) > d
  {
    DampingIncreases(d, damping, DefaultMin, DefaultMax);
  }

  /** A non-negative diagonal entry of J^T J becomes strictly positive. */
  lemma DampedNormalDiagonal(d: real, damping: real, lo: real, hi: real)
    requires d >= 0.0 && damping > 0.0 && lo > 0.0 && hi > 0.0
    ensures DampedEntry(d, damping, lo, hi) > 0.0
  {
    DampingIncreases(d, damping, lo, hi);
  }

  /** A non-positive upper bound makes the damping shrink the diagonal instead. */
  lemma DampingWithNegativeMax(d: real, damping: real, lo: real, hi: real)
    requires damping > 0.0 && hi < 0.0 && hi < lo
    ensures DampedEntry(d, damping, lo, hi) < d
  {
    assert damping * hi < 0.0;
  }

  /** A.diagonal().add_(damping * A.diagonal().clamp(min, max)) on a square matrix, in place. */
  method DampDiagonal(a: array2<real>, damping: real, lo: real, hi: real)
    requires a.Length0 == a.Length1
    modifies a
    ensures forall i, k :: 0 <= i < a.Length0 && 0 <= k < a.Length1 ==>
      a[i, k] == if i == k then DampedEntry(old(a[i, i]), damping, lo, hi) else old(a[i, k])
  {
    var n := a.Length0;
    for i := 0 to n
      invariant forall p, k :: 0 <= p < n && 0 <= k < n ==>
        a[p, k] == if p == k && p < i then DampedEntry(old(a[p, p]), damping, lo, hi) else old(a[p, k])
    {
      a[i, i] := a[i, i] + damping * Clamp(a[i, i], lo, hi);
    }
  }

  /**
    * A = J.T @ J in a fresh n x n array, damped on its diagonal in place; the result read
    * back as a matrix is Damped(J^T J).
    */
  method DampedGram(j: Matrix, n: nat, damping: real, lo: real, hi: real) returns (m: Matrix)
    requires forall i :: 0 <= i < |j| ==> |j[i]| == n
    ensures m == Damped(Gram(j, n), n, damping, lo, hi)
  {
    var g := Gram(j, n);
    var a := new real[n, n]((p, q) requires 0 <= p < n && 0 <= q < n => g[p][q]);
    assert forall p, q :: 0 <= p < n && 0 <= q < n ==> a[p, q] == g[p][q];
    DampDiagonal(a, damping, lo, hi);
    m := ToMatrix(a);
    ghost var spec := Damped(g, n, damping, lo, hi);
    assert forall p, q :: 0 <= p < n && 0 <= q < n ==> m[p][q] == spec[p][q];
    assert forall p :: 0 <= p < n ==> m[p] == spec[p];
  }

  /** The matrix a damped as DampDiagonal does, as a value. */
  function Damped(a: Matrix, n: nat, damping: real, lo: real, hi: real): (r: Matrix)
    requires IsMatrix(a, n, n)
    ensures IsMatrix(r, n, n)
    ensures forall i :: 0 <= i < n ==> r[i][i] == DampedEntry(a[i][i], damping, lo, hi)
    ensures forall i, k :: 0 <= i < n && 0 <= k < n && i != k ==> r[i][k] == a[i][k]
  {
    seq(n, i requires 0 <= i < n => seq(n, k requires 0 <= k < n =>
      if i == k then DampedEntry(a[i][i], damping, lo, hi) else a[i][k]))
  }

  /** Damping keeps J^T J symmetric and, for damping > 0 and positive bounds, makes its diagonal positive. */
  lemma DampedNormalMatrix(j: Matrix, n: nat, damping: real, lo: real, hi: real)
    requires forall i :: 0 <= i < |j| ==> |j[i]| == n
    requires damping > 0.0 && lo > 0.0 && hi > 0.0
    ensures var a := Damped(Gram(j, n), n, damping, lo, hi);
      && (forall p, q :: 0 <= p < n && 0 <= q < n ==> a[p][q] == a[q][p])
      && (forall p :: 0 <= p < n ==> a[p][p] > Gram(j, n)[p][p] >= 0.0)
  {
    var g := Gram(j, n);
    GramProperties(j, n);
    forall p | 0 <= p < n
      ensures Damped(g, n, damping, lo, hi)[p][p] > g[p][p]
    {
      DampingIncreases(g[p][p], damping, lo, hi);
    }
  }

  // ---------------------------------------------------------------- split and apply

  function Sum(s: seq<nat>): nat
  {
    if |s| == 0 then 0 else s[0] + Sum(s[1..])
  }

  /** The number of set flags. */
  function CountTrue(b: seq<bool>): (r: nat)
    ensures r <= |b|
  {
    if |b| == 0 then 0 else (if b[0] then 1 else 0) + CountTrue(b[1..])
  }

  /** [p.numel() for p in params if p.requires_grad] */
  function TrainableNumels(vals: seq<Vector>, trainable: seq<bool>): (r: seq<nat>)
    requires |trainable| == |vals|
    ensures |r| == CountTrue(trainable) <= |vals|
  {
    if |vals| == 0 then []
    else (if trainable[0] then [|vals[0]|] else []) + TrainableNumels(vals[1..], trainable[1..])
  }

  /**
    * The size of trainable parameter i sits in TrainableNumels at the number of trainable
    * parameters before it, so the sizes keep the parameters' order.
    */
  lemma {:induction false} TrainableNumelsAt(vals: seq<Vector>, trainable: seq<bool>, i: nat)
    requires |trainable| == |vals| && i < |vals| && trainable[i]
    ensures CountTrue(trainable[..i]) < |TrainableNumels(vals, trainable)|
    ensures TrainableNumels(vals, trainable)[CountTrue(trainable[..i])] == |vals[i]|
  {
    var r := TrainableNumels(vals, trainable);
    if i > 0 {
      var rest := TrainableNumels(vals[1..], trainable[1..]);
      TrainableNumelsAt(vals[1..], trainable[1..], i - 1);
      assert trainable[..i][1..] == trainable[1..][..i - 1];
      assert r == (if trainable[0] then [|vals[0]|] else []) + rest;
    }
  }

  /** Every trainable parameter has its size at its rank among the trainable ones. */
  lemma TrainableNumelsPositions(vals: seq<Vector>, trainable: seq<bool>)
    requires |trainable| == |vals|
    ensures forall i :: 0 <= i < |vals| && trainable[i] ==>
      CountTrue(trainable[..i]) < |TrainableNumels(vals, trainable)| &&
      TrainableNumels(vals, trainable)[CountTrue(trainable[..i])] == |vals[i]|
  {
    forall i | 0 <= i < |vals| && trainable[i]
      ensures CountTrue(trainable[..i]) < |TrainableNumels(vals, trainable)|
      ensures TrainableNumels(vals, trainable)[CountTrue(trainable[..i])] == |vals[i]|
    {
      TrainableNumelsAt(vals, trainable, i);
    }
  }

  /** torch.split(D, sizes): consecutive pieces of the given sizes. */
  function Split(d: Vector, sizes: seq<nat>): (r: seq<Vector>)
    requires Sum(sizes) == |d|
    ensures |r| == |sizes| && forall k :: 0 <= k < |r| ==> |r[k]| == sizes[k]
  {
    if |sizes| == 0 then [] else [d[..sizes[0]]] + Split(d[sizes[0]..], sizes[1..])
  }

  /** The pieces of the split concatenate back to D: nothing is dropped or repeated. */
  lemma {:induction false} SplitConcat(d: Vector, sizes: seq<nat>)
    requires Sum(sizes) == |d|
    ensures Concat(Split(d, sizes)) == d
  {
    if |sizes| > 0 {
      var r := Split(d, sizes);
      SplitConcat(d[sizes[0]..], sizes[1..]);
      assert r[1..] == Split(d[sizes[0]..], sizes[1..]);
      assert Concat(r) == d[..sizes[0]] + d[sizes[0]..];
      assert d[..sizes[0]] + d[sizes[0]..] == d;
    }
  }

  /** Piece k of the split starts after the first k sizes. */
  lemma SplitSlice(d: Vector, sizes: seq<nat>, k: nat)
    requires Sum(sizes) == |d| && k < |sizes|
    ensures Sum(sizes[..k]) + sizes[k] <= |d|
    ensures Split(d, sizes)[k] == d[Sum(sizes[..k])..Sum(sizes[..k]) + sizes[k]]
  {
    SplitPiece(d, sizes, k);
    StartIsSum(sizes, k);
  }

  /** Where piece k begins, counted by walking the sizes from the front. */
  function Start(sizes: seq<nat>, k: nat): nat
    requires k <= |sizes|
  {
    if k == 0 then 0 else sizes[0] + Start(sizes[1..], k - 1)
  }

  lemma {:induction false} SplitPiece(d: Vector, sizes: seq<nat>, k: nat)
    requires Sum(sizes) == |d| && k < |sizes|
    ensures Start(sizes, k) + sizes[k] <= |d|
    ensures Split(d, sizes)[k] == d[Start(sizes, k)..Start(sizes, k) + sizes[k]]
  {
    var s0, tail := sizes[0], sizes[1..];
    assert Sum(sizes) == s0 + Sum(tail);
    if k > 0 {
      var rest := d[s0..];
      assert |rest| == Sum(tail);
      SplitPiece(rest, tail, k - 1);
      var a, n := Start(tail, k - 1), tail[k - 1];
      assert Start(sizes, k) == s0 + a && sizes[k] == n;
      assert s0 + a + n <= |d|;
      assert Split(d, sizes)[k] == Split(rest, tail)[k - 1] == rest[a..a + n];
      SliceOfSlice(d, s0, a, n);
    }
  }

  lemma SliceOfSlice(d: Vector, s: nat, a: nat, n: nat)
    requires s + a + n <= |d|
    ensures d[s..][a..a + n] == d[s + a..s + a + n]
  {
  }

  lemma {:induction false} StartIsSum(sizes: seq<nat>, k: nat)
    requires k <= |sizes|
    ensures Start(sizes, k) == Sum(sizes[..k])
  {
    if k == 0 {
      assert sizes[..0] == [];
    } else {
      StartIsSum(sizes[1..], k - 1);
      assert sizes[..k][1..] == sizes[1..][..k - 1];
    }
  }

  /** The values after adding slice j to parameter j for every trainable j < upto. */
  function Updated(vals: seq<Vector>, trainable: seq<bool>, slices: seq<Vector>, upto: nat): (r: seq<Vector>)
    requires |trainable| == |vals| && upto <= |vals| && upto <= |slices|
    requires forall j :: 0 <= j < upto && trainable[j] ==> |slices[j]| == |vals[j]|
    ensures |r| == |vals|
    ensures forall j :: 0 <= j < |vals| && (upto <= j || !trainable[j]) ==> r[j] == vals[j]
    ensures forall j :: 0 <= j < upto && trainable[j] ==> r[j] == AddVec(vals[j], slices[j])
  {
    seq(|vals|, j requires 0 <= j < |vals| =>
      if j < upto && trainable[j] then AddVec(vals[j], slices[j]) else vals[j])
  }

  /** Extending the update by one pair changes at most that pair's parameter. */
  lemma UpdatedStep(vals: seq<Vector>, trainable: seq<bool>, slices: seq<Vector>, k: nat)
    requires |trainable| == |vals| && k < |vals| && k < |slices|
    requires forall j :: 0 <= j <= k && trainable[j] ==> |slices[j]| == |vals[j]|
    ensures forall j :: 0 <= j < |vals| && j != k ==>
      Updated(vals, trainable, slices, k + 1)[j] == Updated(vals, trainable, slices, k)[j]
    ensures Updated(vals, trainable, slices, k + 1)[k] ==
      if trainable[k] then AddVec(vals[k], slices[k]) else vals[k]
  {
  }

  /** The first zipped pair whose slice does not fit its trainable parameter, or the pair count. */
  function FirstMismatch(vals: seq<Vector>, trainable: seq<bool>, slices: seq<Vector>, from: nat): (r: nat)
    requires |trainable| == |vals| && from <= Min(|vals|, |slices|)
    ensures from <= r <= Min(|vals|, |slices|)
    ensures forall j :: from <= j < r && trainable[j] ==> |slices[j]| == |vals[j]|
    ensures r < Min(|vals|, |slices|) ==> trainable[r] && |slices[r]| != |vals[r]|
    decreases Min(|vals|, |slices|) - from
  {
    if from == Min(|vals|, |slices|) then from
    else if trainable[from] && |slices[from]| != |vals[from]| then from
    else FirstMismatch(vals, trainable, slices, from + 1)
  }

  /** When every zipped slice fits its trainable parameter, the scan reaches the pair count. */
  lemma {:induction false} NoMismatch(vals: seq<Vector>, trainable: seq<bool>, slices: seq<Vector>, from: nat)
    requires |trainable| == |vals| && from <= Min(|vals|, |slices|)
    requires forall j :: from <= j < Min(|vals|, |slices|) && trainable[j] ==> |slices[j]| == |vals[j]|
    ensures FirstMismatch(vals, trainable, slices, from) == Min(|vals|, |slices|)
    decreases Min(|vals|, |slices|) - from
  {
    if from < Min(|vals|, |slices|) {
      NoMismatch(vals, trainable, slices, from + 1);
    }
  }

  /**
    * When no frozen parameter precedes a trainable one, the trainable ones are counted by
    * the first t sizes.
    */
  lemma {:induction false} PrefixNumels(vals: seq<Vector>, trainable: seq<bool>, t: nat)
    requires |trainable| == |vals| && t <= |vals|
    requires forall j :: 0 <= j < |vals| ==> (trainable[j] <==> j < t)
    ensures var sizes := TrainableNumels(vals, trainable);
      |sizes| == t && forall j :: 0 <= j < t ==> sizes[j] == |vals[j]|
  {
    if |vals| > 0 {
      var sizes, rest := TrainableNumels(vals, trainable), TrainableNumels(vals[1..], trainable[1..]);
      if t == 0 {
        PrefixNumels(vals[1..], trainable[1..], 0);
        assert sizes == rest;
      } else {
        PrefixNumels(vals[1..], trainable[1..], t - 1);
        assert sizes == [|vals[0]|] + rest;
      }
    }
  }

  /** The first k sizes, when they are the first k parameters' lengths, add up to Offset. */
  lemma {:induction false} SumPrefix(sizes: seq<nat>, vals: seq<Vector>, k: nat)
    requires k <= |sizes| && k <= |vals|
    requires forall j :: 0 <= j < k ==> sizes[j] == |vals[j]|
    ensures Sum(sizes[..k]) == Offset(vals, k)
  {
    if k == 0 {
      assert sizes[..0] == [];
    } else {
      SumPrefix(sizes, vals, k - 1);
      SumAppend(sizes[..k - 1], sizes[k - 1]);
      assert sizes[..k] == sizes[..k - 1] + [sizes[k - 1]];
    }
  }

  lemma {:induction false} SumAppend(s: seq<nat>, x: nat)
    ensures Sum(s + [x]) == Sum(s) + x
  {
    if |s| > 0 {
      SumAppend(s[1..], x);
      assert (s + [x])[1..] == s[1..] + [x];
    }
  }

  /**
    * piece is the part of D that parameter j owns when the parameters' elements are laid
    * out one after the other: the |vals[j]| elements after those of the parameters before j.
    */
  predicate OwnPiece(d: Vector, vals: seq<Vector>, j: nat, piece: Vector)
    requires j < |vals|
  {
    Offset(vals, j) + |vals[j]| <= |d| && piece == d[Offset(vals, j)..Offset(vals, j) + |vals[j]|]
  }

  /** Total length of the first k vectors. */
  function Offset(vals: seq<Vector>, k: nat): nat
    requires k <= |vals|
  {
    if k == 0 then 0 else Offset(vals, k - 1) + |vals[k - 1]|
  }

  /**
    * If no frozen parameter precedes a trainable one and the delta has the trainable element
    * count, no view fails and trainable parameter j receives exactly its own piece of D, the
    * elements after those of the parameters before it; the frozen ones are left as they are.
    */
  lemma AlignedApply(vals: seq<Vector>, trainable: seq<bool>, t: nat, d: Vector)
    requires |trainable| == |vals| && t <= |vals|
    requires forall j :: 0 <= j < |vals| ==> (trainable[j] <==> j < t)
    requires Sum(TrainableNumels(vals, trainable)) == |d|
    ensures var slices := Split(d, TrainableNumels(vals, trainable));
      && FirstMismatch(vals, trainable, slices, 0) == Min(|vals|, |slices|) == t
      && (forall j :: 0 <= j < t ==> OwnPiece(d, vals, j, slices[j]))
      && (forall j :: 0 <= j < |vals| ==>
            Updated(vals, trainable, slices, t)[j] == if j < t then AddVec(vals[j], slices[j]) else vals[j])
  {
    var sizes := TrainableNumels(vals, trainable);
    var slices := Split(d, sizes);
    PrefixNumels(vals, trainable, t);
    assert Min(|vals|, |slices|) == t;
    PiecesAtOffsets(d, sizes, vals);
    NoMismatch(vals, trainable, slices, 0);
    UpdatedPrefix(vals, trainable, slices, t);
  }

  /** Every piece of the split starts at the offset of its parameter. */
  lemma PiecesAtOffsets(d: Vector, sizes: seq<nat>, vals: seq<Vector>)
    requires Sum(sizes) == |d| && |sizes| <= |vals|
    requires forall i :: 0 <= i < |sizes| ==> sizes[i] == |vals[i]|
    ensures forall j :: 0 <= j < |sizes| ==> OwnPiece(d, vals, j, Split(d, sizes)[j])
  {
    forall j | 0 <= j < |sizes|
      ensures OwnPiece(d, vals, j, Split(d, sizes)[j])
    {
      PieceAtOffset(d, sizes, vals, j);
    }
  }

  /** With exactly the first t parameters trainable, Updated adds a slice to each of them. */
  lemma UpdatedPrefix(vals: seq<Vector>, trainable: seq<bool>, slices: seq<Vector>, t: nat)
    requires |trainable| == |vals| && t <= |vals| && t <= |slices|
    requires forall j :: 0 <= j < |vals| ==> (trainable[j] <==> j < t)
    requires forall j :: 0 <= j < t ==> |slices[j]| == |vals[j]|
    ensures forall j :: 0 <= j < |vals| ==>
      Updated(vals, trainable, slices, t)[j] == if j < t then AddVec(vals[j], slices[j]) else vals[j]
  {
    var u := Updated(vals, trainable, slices, t);
    forall j | 0 <= j < |vals|
      ensures u[j] == if j < t then AddVec(vals[j], slices[j]) else vals[j]
    {
      assert trainable[j] <==> j < t;
    }
  }

  /** When the sizes are the parameters' lengths, piece j of the split starts at Offset(vals, j). */
  lemma PieceAtOffset(d: Vector, sizes: seq<nat>, vals: seq<Vector>, j: nat)
    requires Sum(sizes) == |d| && j < |sizes| <= |vals|
    requires forall i :: 0 <= i < |sizes| ==> sizes[i] == |vals[i]|
    ensures OwnPiece(d, vals, j, Split(d, sizes)[j])
  {
    SplitSlice(d, sizes, j);
    SumPrefix(sizes, vals, j);
    var p, n := Sum(sizes[..j]), sizes[j];
    assert p == Offset(vals, j) && n == |vals[j]|;
    assert Split(d, sizes)[j] == d[p..p + n];
  }

  /**
    * A frozen parameter placed before the only trainable one swallows its slice: the pair
    * count is one, that pair is skipped, and nothing is updated.
    */
  lemma FrozenFirstSwallowsSlice(v0: Vector, v1: Vector, d: Vector)
    requires |d| == |v1|
    ensures var vals, trainable := [v0, v1], [false, true];
      var slices := Split(d, [|v1|]);
      && TrainableNumels(vals, trainable) == [|v1|]
      && |slices| == 1
      && FirstMismatch(vals, trainable, slices, 0) == 1
      && Updated(vals, trainable, slices, 1) == vals
  {
    var vals, trainable := [v0, v1], [false, true];
    assert TrainableNumels(vals, trainable) == [|v1|] by {
      assert TrainableNumels(vals[1..], trainable[1..]) == [|v1|] + TrainableNumels([], []);
    }
  }

  // ---------------------------------------------------------------- loss

  function SumReal(s: seq<real>): real
  {
    if |s| == 0 then 0.0 else s[0] + SumReal(s[1..])
  }

  /** self.kernel(E**2).sum() for an elementwise kernel. */
  function Loss(kernel: real -> real, e: Vector): real
  {
    SumReal(seq(|e|, i requires 0 <= i < |e| => kernel(Square(e[i]))))
  }

  lemma {:induction false} SumOfSquares(e: Vector)
    ensures SumReal(seq(|e|, i requires 0 <= i < |e| => Square(e[i]))) == Dot(e, e)
  {
    if |e| > 0 {
      SumOfSquares(e[1..]);
      var s := seq(|e|, i requires 0 <= i < |e| => Square(e[i]));
      assert s[1..] == seq(|e[1..]|, i requires 0 <= i < |e[1..]| => Square(e[1..][i]));
    }
  }

  /** With the identity kernel the loss is the squared norm of E: non-negative, and zero exactly when E is. */
  lemma IdentityKernelLoss(e: Vector)
    ensures Loss(x => x, e) == Dot(e, e)
    ensures Loss(x => x, e) >= 0.0
    ensures Loss(x => x, e) == 0.0 <==> forall i :: 0 <= i < |e| ==> e[i] == 0.0
  {
    assert seq(|e|, i requires 0 <= i < |e| => (x => x)(Square(e[i]))) ==
      seq(|e|, i requires 0 <= i < |e| => Square(e[i]));
    SumOfSquares(e);
    DotSelf(e);
  }

  // ---------------------------------------------------------------- the parameter group

  /** The scan stops at the first zipped pair whose slice does not fit, or at the pair count. */
  lemma {:induction false} FirstMismatchAt(vals: seq<Vector>, trainable: seq<bool>, slices: seq<Vector>, from: nat, k: nat)
    requires |trainable| == |vals| && from <= k <= Min(|vals|, |slices|)
    requires forall j :: from <= j < k && trainable[j] ==> |slices[j]| == |vals[j]|
    requires k < Min(|vals|, |slices|) ==> trainable[k] && |slices[k]| != |vals[k]|
    ensures FirstMismatch(vals, trainable, slices, from) == k
    decreases k - from
  {
    if from < k {
      FirstMismatchAt(vals, trainable, slices, from + 1, k);
    }
  }

  /** The single parameter group: the model's parameters, in order, with their requires_grad flags. */
  class ParamGroup {
    var params: seq<array<real>>
    var trainable: seq<bool>

    /** One flag per parameter, and no parameter listed twice. */
    ghost predicate Valid()
      reads this
    {
      |trainable| == |params| && forall i, j :: 0 <= i < j < |params| ==> params[i] != params[j]
    }

    ghost function Arrays(): set<array<real>>
      reads this
    {
      set k | 0 <= k < |params| :: params[k]
    }

    /** The current elements of every parameter. */
    function Values(): (v: seq<Vector>)
      reads this, Arrays()
      ensures |v| == |params| && forall k :: 0 <= k < |params| ==> v[k] == params[k][..]
    {
      seq(|params|, k requires 0 <= k < |params| reads this, Arrays() => params[k][..])
    }

    constructor (params: seq<array<real>>, trainable: seq<bool>)
      requires |trainable| == |params| && forall i, j :: 0 <= i < j < |params| ==> params[i] != params[j]
      ensures this.params == params && this.trainable == trainable && Valid()
    {
      this.params := params;
      this.trainable := trainable;
    }

    /**
      * [p.add_(d.view(p.shape)) for p, d in zip(params, slices) if p.requires_grad]: the pairs
      * are taken over all parameters, trainable or not; a trainable parameter whose slice has a
      * different element count raises after the parameters before it have been updated.
      */
    method ApplyDelta(slices: seq<Vector>) returns (r: Result<()>)
      requires Valid()
      modifies Arrays()
      ensures var first := FirstMismatch(old(Values()), trainable, slices, 0);
        && (r.Ok? <==> first == Min(|params|, |slices|))
        && (r.Err? ==> r.error == ViewMismatch)
        && Values() == Updated(old(Values()), trainable, slices, first)
    {
      ghost var v0 := Values();
      var m := Min(|params|, |slices|);
      var k := 0;
      while k < m
        invariant 0 <= k <= m
        invariant forall j :: 0 <= j < k && trainable[j] ==> |slices[j]| == |v0[j]|
        invariant forall j :: 0 <= j < |params| ==> params[j][..] == Updated(v0, trainable, slices, k)[j]
      {
        if trainable[k] {
          var p := params[k];
          if |slices[k]| != p.Length {
            FirstMismatchAt(v0, trainable, slices, 0, k);
            SameValues(Updated(v0, trainable, slices, k));
            return Err(ViewMismatch);
          }
          forall i | 0 <= i < p.Length {
            p[i] := p[i] + slices[k][i];
          }
          assert p[..] == AddVec(v0[k], slices[k]);
        }
        UpdatedStep(v0, trainable, slices, k);
        k := k + 1;
      }
      FirstMismatchAt(v0, trainable, slices, 0, m);
      SameValues(Updated(v0, trainable, slices, m));
      return Ok(());
    }

    /**
      * The end of both steps: apply the split delta, then score the model's outputs for the new
      * values with the kernel; a slice that does not fit raises instead.
      */
    method ApplyThenLoss(slices: seq<Vector>, model: seq<Vector> -> Value, targets: Option<Value>,
                         kernel: real -> real) returns (r: Result<real>)
      requires Valid()
      requires forall v :: ValidValue(model(v))
      requires targets.Some? ==> ValidValue(targets.value)
      modifies Arrays()
      ensures var first := FirstMismatch(old(Values()), trainable, slices, 0);
        && Values() == Updated(old(Values()), trainable, slices, first)
        && r == if first < Min(|params|, |slices|) then Err(ViewMismatch)
                else LossAfter(kernel, model(Values()), targets)
    {
      var applied := ApplyDelta(slices);
      if applied.Err? {
        return Err(applied.error);
      }
      r := LossAfter(kernel, model(Values()), targets);
    }

    /** Values() is determined by the elements of each parameter. */
    lemma SameValues(w: seq<Vector>)
      requires |w| == |params| && forall j :: 0 <= j < |params| ==> params[j][..] == w[j]
      ensures Values() == w
    {
    }
  }

  // ---------------------------------------------------------------- the two optimizers

  /** The solver inputs shared by both optimizers: the residual E and the weighted gradient b. */
  datatype Problem = Problem(e: Vector, b: Vector)

  /**
    * E, K and b = K.T * J.T @ E for the current parameter values, or the error raised on the way.
    * J has n columns, one per trainable element.
    */
  function Assemble(out: Value, targets: Option<Value>, dkernel: real -> real, j: Matrix, n: nat): (r: Result<Problem>)
    requires ValidValue(out) && (targets.Some? ==> ValidValue(targets.value))
    requires forall i :: 0 <= i < |j| ==> |j[i]| == n
    ensures r.Ok? ==> |r.value.b| == n && Residual(out, targets) == Ok(r.value.e)
    ensures r.Ok? ==> WeightedGradient(Weights(dkernel, r.value.e), j, |j|, n, r.value.e) == Ok(r.value.b)
    ensures r.Err? && Residual(out, targets).Ok? ==> r.error == ShapeMismatch
  {
    match Residual(out, targets)
    case Err(err) => Err(err)
    case Ok(e) =>
      match WeightedGradient(Weights(dkernel, e), j, |j|, n, e)
      case Err(err) => Err(err)
      case Ok(b) => Ok(Problem(e, b))
  }

  /** The elements of a square array as a matrix value. */
  function ToMatrix(a: array2<real>): (m: Matrix)
    reads a
    ensures IsMatrix(m, a.Length0, a.Length1)
    ensures forall i, k :: 0 <= i < a.Length0 && 0 <= k < a.Length1 ==> m[i][k] == a[i, k]
  {
    seq(a.Length0, i requires 0 <= i < a.Length0 reads a =>
      seq(a.Length1, k requires 0 <= k < a.Length1 reads a => a[i, k]))
  }

  /** The loss returned after the update: kernel(E'^2).sum() over the new residual. */
  function LossAfter(kernel: real -> real, out: Value, targets: Option<Value>): (r: Result<real>)
    requires ValidValue(out) && (targets.Some? ==> ValidValue(targets.value))
    ensures r.Ok? <==> Residual(out, targets).Ok?
    ensures r.Ok? ==> r.value == Loss(kernel, Residual(out, targets).value)
  {
    match Residual(out, targets)
    case Err(err) => Err(err)
    case Ok(e) => Ok(Loss(kernel, e))
  }

  /** Gauss-Newton: the parameter group, the robust kernel (identity by default) and the fast flag. */
  class GaussNewton {
    const group: ParamGroup
    const kernel: real -> real
    const fast: bool

    constructor (params: seq<array<real>>, trainable: seq<bool>, kernel: Option<real -> real> := None, fast: bool := false)
      requires |trainable| == |params| && forall i, j :: 0 <= i < j < |params| ==> params[i] != params[j]
      ensures fresh(group) && group.params == params && group.trainable == trainable && group.Valid()
      ensures kernel.Some? ==> this.kernel == kernel.value
      ensures kernel.None? ==> forall x :: this.kernel(x) == x
      ensures this.fast == fast
    {
      group := new ParamGroup(params, trainable);
      match kernel {
        case Some(k) => this.kernel := k;
        case None => this.kernel := x => x;
      }
      this.fast := fast;
    }

    /**
      * GaussNewton.step. `model` gives the outputs for parameter values, `dkernel` the kernel's
      * derivative (the forward-mode jacobian K), `jac` the Jacobian (modjac) with one column
      * per trainable element, `pinv` the pseudo-inverse and `lstsq` the least-squares solver.
      */
    method Step(model: seq<Vector> -> Value, targets: Option<Value>, dkernel: real -> real,
                jac: seq<Vector> -> Matrix, pinv: Matrix -> Matrix, lstsq: (Matrix, Vector) -> Vector)
      returns (r: Result<real>)
      requires group.Valid()
      requires forall v :: ValidValue(model(v))
      requires targets.Some? ==> ValidValue(targets.value)
      requires var j, n := jac(group.Values()), Sum(TrainableNumels(group.Values(), group.trainable));
        forall i :: 0 <= i < |j| ==> |j[i]| == n
      requires forall a: Matrix :: |pinv(a)| == |a| && forall i :: 0 <= i < |a| ==> |pinv(a)[i]| == |a|
      requires forall a: Matrix, b: Vector :: |lstsq(a, b)| == |b|
      modifies group.Arrays()
      ensures var v0 := old(group.Values());
        var n, j := Sum(TrainableNumels(v0, group.trainable)), jac(v0);
        match Assemble(model(v0), targets, dkernel, j, n)
        case Err(err) => r == Err(err) && group.Values() == v0
        case Ok(p) =>
          var g := Gram(j, n);
          var d := if fast then lstsq(g, p.b) else MatVec(pinv(g), p.b);
          var slices := Split(d, TrainableNumels(v0, group.trainable));
          var first := FirstMismatch(v0, group.trainable, slices, 0);
          && group.Values() == Updated(v0, group.trainable, slices, first)
          && r == if first < Min(|v0|, |slices|) then Err(ViewMismatch)
                  else LossAfter(kernel, model(group.Values()), targets)
    {
      var v0 := group.Values();
      var n := Sum(TrainableNumels(v0, group.trainable));
      var j := jac(v0);
      match Assemble(model(v0), targets, dkernel, j, n)
      case Err(err) =>
        return Err(err);
      case Ok(p) =>
        var g := Gram(j, n);
        var d := if fast then lstsq(g, p.b) else MatVec(pinv(g), p.b);
        var slices := Split(d, TrainableNumels(v0, group.trainable));
        r := group.ApplyThenLoss(slices, model, targets, kernel);
    }
  }

  /** The default clamp bounds of the Levenberg-Marquardt damping, min=1e-6 and max=1e32. */
  const DefaultMin: real := 0.000001
  const DefaultMax: real := 100000000000000000000000000000000.0

  /** Levenberg-Marquardt: Gauss-Newton's state plus the damping factor and the clamp bounds. */
  class LevenbergMarquardt {
    const group: ParamGroup
    const kernel: real -> real
    const damping: real
    const lo: real
    const hi: real

    constructor Init(params: seq<array<real>>, trainable: seq<bool>, damping: real,
                     kernel: Option<real -> real> := None, lo: real := DefaultMin, hi: real := DefaultMax)
      requires |trainable| == |params| && forall i, j :: 0 <= i < j < |params| ==> params[i] != params[j]
      ensures fresh(group) && group.params == params && group.trainable == trainable && group.Valid()
      ensures kernel.Some? ==> this.kernel == kernel.value
      ensures kernel.None? ==> forall x :: this.kernel(x) == x
      ensures this.damping == damping && this.lo == lo && this.hi == hi
    {
      group := new ParamGroup(params, trainable);
      match kernel {
        case Some(k) => this.kernel := k;
        case None => this.kernel := x => x;
      }
      this.damping, this.lo, this.hi := damping, lo, hi;
    }

    /**
      * LevenbergMarquardt(model, damping, kernel, min, max): the assertion on the damping factor
      * fails before anything is built; otherwise the group keeps damping, min and max as given.
      */
    static method Create(params: seq<array<real>>, trainable: seq<bool>, damping: real,
                         kernel: Option<real -> real> := None, lo: real := DefaultMin, hi: real := DefaultMax)
      returns (r: Result<LevenbergMarquardt>)
      requires |trainable| == |params| && forall i, j :: 0 <= i < j < |params| ==> params[i] != params[j]
      ensures r.Err? <==> damping <= 0.0
      ensures r.Err? ==> r.error == InvalidDamping
      ensures r.Ok? ==> fresh(r.value) && fresh(r.value.group) && r.value.group.Valid()
      ensures r.Ok? ==> r.value.group.params == params && r.value.group.trainable == trainable
      ensures r.Ok? ==> r.value.damping == damping && r.value.lo == lo && r.value.hi == hi
    {
      if damping <= 0.0 {
        return Err(InvalidDamping);
      }
      var lm := new LevenbergMarquardt.Init(params, trainable, damping, kernel, lo, hi);
      return Ok(lm);
    }

    /**
      * LevenbergMarquardt.step: as Gauss-Newton, with A = J^T J damped on its diagonal in place
      * and the delta from `cholSolve`, which stands for cholesky followed by cholesky_solve and
      * gives None when A is not positive definite.
      */
    method Step(model: seq<Vector> -> Value, targets: Option<Value>, dkernel: real -> real,
                jac: seq<Vector> -> Matrix, cholSolve: (Matrix, Vector) -> Option<Vector>)
      returns (r: Result<real>)
      requires group.Valid()
      requires forall v :: ValidValue(model(v))
      requires targets.Some? ==> ValidValue(targets.value)
      requires var j, n := jac(group.Values()), Sum(TrainableNumels(group.Values(), group.trainable));
        forall i :: 0 <= i < |j| ==> |j[i]| == n
      requires forall a: Matrix, b: Vector :: cholSolve(a, b).Some? ==> |cholSolve(a, b).value| == |b|
      modifies group.Arrays()
      ensures var v0 := old(group.Values());
        var n, j := Sum(TrainableNumels(v0, group.trainable)), jac(v0);
        match Assemble(model(v0), targets, dkernel, j, n)
        case Err(err) => r == Err(err) && group.Values() == v0
        case Ok(p) =>
          match cholSolve(Damped(Gram(j, n), n, damping, lo, hi), p.b)
          case None => r == Err(CholeskyFailed) && group.Values() == v0
          case Some(d) =>
            var slices := Split(d, TrainableNumels(v0, group.trainable));
            var first := FirstMismatch(v0, group.trainable, slices, 0);
            && group.Values() == Updated(v0, group.trainable, slices, first)
            && r == if first < Min(|v0|, |slices|) then Err(ViewMismatch)
                    else LossAfter(kernel, model(group.Values()), targets)
    {
      var v0 := group.Values();
      var n := Sum(TrainableNumels(v0, group.trainable));
      var j := jac(v0);
      var damped := DampedGram(j, n, damping, lo, hi);
      assert group.Values() == v0;
      match Assemble(model(v0), targets, dkernel, j, n)
      case Err(err) =>
        return Err(err);
      case Ok(p) =>
        match cholSolve(damped, p.b)
        case None =>
          return Err(CholeskyFailed);
        case Some(d) =>
          var slices := Split(d, TrainableNumels(v0, group.trainable));
          r := group.ApplyThenLoss(slices, model, targets, kernel);
    }
  }
}
