/**
 * The part of torch's tensor semantics that the optimizer and broadcast_inputs rely on:
 * a tensor is a shape and its elements in row-major order; broadcasting aligns shapes on
 * the right and stretches size-1 dimensions; expand copies along the stretched dimensions.
 */
module Tensors {
  import opened Results

  type Shape = seq<nat>

  /** Element count of a shape (torch numel); the empty shape holds one element. */
  function Prod(s: Shape): nat
  {
    if |s| == 0 then 1 else s[0] * Prod(s[1..])
  }

  datatype Tensor = Tensor(shape: Shape, data: seq<real>) {
    predicate Valid() { |data| == Prod(shape) }
    function Numel(): nat { |data| }
  }

  function Min(a: int, b: int): int { if a <= b then a else b }
  function Max(a: int, b: int): int { if a <= b then b else a }

  /** Dimension i of s counted from the right (0 is the last one). */
  function DimR(s: Shape, i: nat): nat
    requires i < |s|
  {
    s[|s| - 1 - i]
  }

  /** The pairwise rule of torch.broadcast_shapes, stated on right-aligned dimensions. */
  ghost predicate Compatible(a: Shape, b: Shape)
  {
    forall i :: 0 <= i < |a| && i < |b| ==> DimR(a, i) == DimR(b, i) || DimR(a, i) == 1 || DimR(b, i) == 1
  }

  /** s can be expanded (torch expand) to t: t is at least as long and every aligned dimension agrees or is 1. */
  ghost predicate ExpandableTo(s: Shape, t: Shape)
  {
    |s| <= |t| && forall i :: 0 <= i < |s| ==> DimR(s, i) == DimR(t, i) || DimR(s, i) == 1
  }

  /** torch.broadcast_shapes of two shapes; None where torch raises. */
  function BroadcastShapes(a: Shape, b: Shape): (r: Option<Shape>)
    ensures r.Some? ==> |r.value| == Max(|a|, |b|)
    decreases |a| + |b|
  {
    if |a| == 0 then Some(b)
    else if |b| == 0 then Some(a)
    else
      var x, y := a[|a| - 1], b[|b| - 1];
      if x != y && x != 1 && y != 1 then None
      else
        match BroadcastShapes(a[..|a| - 1], b[..|b| - 1])
        case None => None
        case Some(s) => Some(s + [if x == 1 then y else x])
  }

  lemma {:induction false} BroadcastShapesCorrect(a: Shape, b: Shape)
    ensures BroadcastShapes(a, b).Some? <==> Compatible(a, b)
    ensures BroadcastShapes(a, b).Some? ==>
      var r := BroadcastShapes(a, b).value;
      forall i :: 0 <= i < |r| ==>
        DimR(r, i) == (if i < |a| && i < |b| then (if DimR(a, i) == 1 then DimR(b, i) else DimR(a, i))
                       else if i < |a| then DimR(a, i) else DimR(b, i))
    decreases |a| + |b|
  {
    if |a| == 0 || |b| == 0 {
    } else {
      var a', b' := a[..|a| - 1], b[..|b| - 1];
      BroadcastShapesCorrect(a', b');
      assert forall i :: 0 < i < |a| ==> DimR(a, i) == DimR(a', i - 1);
      assert forall i :: 0 < i < |b| ==> DimR(b, i) == DimR(b', i - 1);
      if Compatible(a, b) {
        assert Compatible(a', b') by {
          forall i | 0 <= i < |a'| && i < |b'|
            ensures DimR(a', i) == DimR(b', i) || DimR(a', i) == 1 || DimR(b', i) == 1
          {
            assert DimR(a, i + 1) == DimR(a', i) && DimR(b, i + 1) == DimR(b', i);
          }
        }
        assert DimR(a, 0) == a[|a| - 1] && DimR(b, 0) == b[|b| - 1];
      }
      if BroadcastShapes(a, b).Some? {
        var r := BroadcastShapes(a, b).value;
        var r' := BroadcastShapes(a', b').value;
        assert r == r' + [if a[|a| - 1] == 1 then b[|b| - 1] else a[|a| - 1]];
        assert forall i :: 0 < i < |r| ==> DimR(r, i) == DimR(r', i - 1);
        forall i | 0 <= i < |a| && i < |b|
          ensures DimR(a, i) == DimR(b, i) || DimR(a, i) == 1 || DimR(b, i) == 1
        {
          if i > 0 { assert DimR(a, i) == DimR(a', i - 1) && DimR(b, i) == DimR(b', i - 1); }
        }
      }
    }
  }

  /** Both broadcast operands can be expanded to the broadcast shape. */
  lemma BroadcastExpandable(a: Shape, b: Shape)
    requires BroadcastShapes(a, b).Some?
    ensures ExpandableTo(a, BroadcastShapes(a, b).value)
    ensures ExpandableTo(b, BroadcastShapes(a, b).value)
  {
    BroadcastShapesCorrect(a, b);
  }

  lemma {:induction false} BroadcastShapesSame(s: Shape)
    ensures BroadcastShapes(s, s) == Some(s)
    decreases |s|
  {
    if |s| > 0 {
      var p := s[..|s| - 1];
      BroadcastShapesSame(p);
      assert BroadcastShapes(s, s) == Some(p + [s[|s| - 1]]);
      assert p + [s[|s| - 1]] == s;
    }
  }

  function Ones(n: nat): (r: Shape)
    ensures |r| == n && Prod(r) == 1
    ensures forall i :: 0 <= i < n ==> r[i] == 1
  {
    if n == 0 then [] else [1] + Ones(n - 1)
  }

  /** Padding an empty shape to (1,) keeps the element count. */
  lemma ProdPadded(s: Shape)
    ensures Prod(if s == [] then [1] else s) == Prod(s)
  {
    if s == [] {
      assert [1][1..] == [];
    }
  }

  lemma ProdOnesPrefix(n: nat, s: Shape)
    ensures Prod(Ones(n) + s) == Prod(s)
  {
    if n > 0 {
      var u := Ones(n) + s;
      assert u[0] == 1;
      assert u[1..] == Ones(n - 1) + s;
      ProdOnesPrefix(n - 1, s);
      assert Prod(u) == u[0] * Prod(u[1..]);
    } else {
      assert Ones(n) + s == s;
    }
  }

  lemma MulMono(n: nat, p: nat)
    requires n >= 1
    ensures p <= n * p && (n - 1) * p == n * p - p
  {
  }

  /** v written n times. */
  function Repeat(v: seq<real>, n: nat): (r: seq<real>)
    ensures |r| == n * |v|
  {
    if n == 0 then [] else MulMono(n, |v|); v + Repeat(v, n - 1)
  }

  /** torch expand between shapes of equal length: a size-1 dimension is repeated. */
  function ExpandAligned(s: Shape, t: Shape, data: seq<real>): (r: seq<real>)
    requires |s| == |t| && |data| == Prod(s)
    requires forall i :: 0 <= i < |s| ==> s[i] == t[i] || s[i] == 1
    ensures |r| == Prod(t)
    decreases |s|, 0, 0
  {
    if |s| == 0 then data
    else if s[0] == t[0] then Blocks(s[1..], t[1..], data, s[0])
    else Repeat(ExpandAligned(s[1..], t[1..], data), t[0])
  }

  /** n consecutive blocks of shape s, each expanded to shape t. */
  function Blocks(s: Shape, t: Shape, data: seq<real>, n: nat): (r: seq<real>)
    requires |s| == |t| && |data| == n * Prod(s)
    requires forall i :: 0 <= i < |s| ==> s[i] == t[i] || s[i] == 1
    ensures |r| == n * Prod(t)
    decreases |s|, 1, n
  {
    if n == 0 then []
    else
      MulMono(n, Prod(s));
      MulMono(n, Prod(t));
      ExpandAligned(s, t, data[..Prod(s)]) + Blocks(s, t, data[Prod(s)..], n - 1)
  }

  /** x.expand(t) of a tensor of shape s with the given elements. */
  function Expand(s: Shape, t: Shape, data: seq<real>): (r: seq<real>)
    requires ExpandableTo(s, t) && |data| == Prod(s)
    ensures |r| == Prod(t)
  {
    var s' := Ones(|t| - |s|) + s;
    ProdOnesPrefix(|t| - |s|, s);
    assert forall i :: 0 <= i < |s'| ==> s'[i] == t[i] || s'[i] == 1 by {
      forall i | 0 <= i < |s'| ensures s'[i] == t[i] || s'[i] == 1 {
        if i >= |t| - |s| {
          var j := |t| - 1 - i;
          assert DimR(s, j) == s'[i] && DimR(t, j) == t[i];
        }
      }
    }
    ExpandAligned(s', t, data)
  }

  lemma {:induction false} ExpandAlignedSame(s: Shape, data: seq<real>)
    requires |data| == Prod(s)
    ensures ExpandAligned(s, s, data) == data
    decreases |s|, 0, 0
  {
    if |s| > 0 {
      BlocksSame(s[1..], data, s[0]);
    }
  }

  lemma {:induction false} BlocksSame(s: Shape, data: seq<real>, n: nat)
    requires |data| == n * Prod(s)
    ensures Blocks(s, s, data, n) == data
    decreases |s|, 1, n
  {
    if n > 0 {
      MulMono(n, Prod(s));
      ExpandAlignedSame(s, data[..Prod(s)]);
      BlocksSame(s, data[Prod(s)..], n - 1);
      assert data[..Prod(s)] + data[Prod(s)..] == data;
    }
  }

  /** Expanding a tensor to its own shape leaves its elements as they are. */
  lemma ExpandSame(s: Shape, data: seq<real>)
    requires |data| == Prod(s)
    ensures ExpandableTo(s, s) && Expand(s, s, data) == data
  {
    assert Ones(0) + s == s;
    ExpandAlignedSame(s, data);
  }

  /** x.shape[:-1]: every dimension but the last (empty for a 0-dimensional shape). */
  function Batch(s: Shape): (r: Shape)
    ensures |s| > 0 ==> |r| == |s| - 1 && s == r + [s[|s| - 1]]
    ensures |s| == 0 ==> r == []
  {
    if |s| == 0 then [] else s[..|s| - 1]
  }

  /** Appending a dimension multiplies the element count by it. */
  lemma {:induction false} ProdAppend(s: Shape, d: nat)
    ensures Prod(s + [d]) == Prod(s) * d
  {
    if |s| > 0 {
      ProdAppend(s[1..], d);
      assert (s + [d])[1..] == s[1..] + [d];
    }
  }

  /** A common trailing dimension keeps a shape expandable. */
  lemma ExpandableAppend(s: Shape, t: Shape, d: nat)
    requires ExpandableTo(s, t)
    ensures ExpandableTo(s + [d], t + [d])
  {
    forall i | 0 < i < |s| + 1
      ensures DimR(s + [d], i) == DimR(s, i - 1) && DimR(t + [d], i) == DimR(t, i - 1)
    {
    }
  }

  /** Expanding only by new leading dimensions of size 1 leaves the elements as they are. */
  lemma ExpandPadded(s: Shape, t: Shape, data: seq<real>)
    requires |data| == Prod(s) && |s| <= |t| && t == Ones(|t| - |s|) + s
    ensures ExpandableTo(s, t) && Expand(s, t, data) == data
  {
    forall i | 0 <= i < |s| ensures DimR(s, i) == DimR(t, i) { }
    ProdOnesPrefix(|t| - |s|, s);
    ExpandAlignedSame(t, data);
  }

  /** Elementwise difference of two equally long sequences. */
  function Diff(a: seq<real>, b: seq<real>): (r: seq<real>)
    requires |a| == |b|
    ensures |r| == |a| && forall i :: 0 <= i < |a| ==> r[i] == a[i] - b[i]
  {
    seq(|a|, i requires 0 <= i < |a| => a[i] - b[i])
  }

  /** t - o with torch broadcasting. */
  function Sub(t: Tensor, o: Tensor): (r: Result<Tensor>)
    requires t.Valid() && o.Valid()
    ensures r.Ok? <==> Compatible(t.shape, o.shape)
    ensures r.Ok? ==> r.value.Valid() && Some(r.value.shape) == BroadcastShapes(t.shape, o.shape)
  {
    BroadcastShapesCorrect(t.shape, o.shape);
    match BroadcastShapes(t.shape, o.shape)
    case None => Err(ShapeMismatch)
    case Some(s) =>
      BroadcastExpandable(t.shape, o.shape);
      Ok(Tensor(s, Diff(Expand(t.shape, s, t.data), Expand(o.shape, s, o.data))))
  }

  /** Every element of v repeated n times is x when every element of v is. */
  lemma {:induction false} RepeatConstant(v: seq<real>, n: nat, x: real)
    requires forall i :: 0 <= i < |v| ==> v[i] == x
    ensures forall i :: 0 <= i < |Repeat(v, n)| ==> Repeat(v, n)[i] == x
  {
    if n > 0 {
      RepeatConstant(v, n - 1, x);
      assert Repeat(v, n) == v + Repeat(v, n - 1);
    }
  }

  lemma {:induction false} ProdAllOnes(s: Shape)
    requires forall i :: 0 <= i < |s| ==> s[i] == 1
    ensures Prod(s) == 1
  {
    if |s| > 0 { ProdAllOnes(s[1..]); }
  }

  /** Expanding a single element along size-1 dimensions fills the target shape with it. */
  lemma {:induction false} ExpandAlignedScalar(s: Shape, t: Shape, x: real)
    requires |s| == |t| && Prod(s) == 1 && forall i :: 0 <= i < |s| ==> s[i] == 1
    ensures forall i :: 0 <= i < Prod(t) ==> ExpandAligned(s, t, [x])[i] == x
    decreases |s|
  {
    if |s| > 0 {
      var s', t' := s[1..], t[1..];
      ProdAllOnes(s');
      ExpandAlignedScalar(s', t', x);
      if s[0] == t[0] {
        assert [x][..Prod(s')] == [x] && [x][Prod(s')..] == [];
        assert Blocks(s', t', [x], 1) == ExpandAligned(s', t', [x]) + Blocks(s', t', [], 0);
      } else {
        RepeatConstant(ExpandAligned(s', t', [x]), t[0], x);
      }
    }
  }

  /** t - o for a 0-dimensional o subtracts its one element from every element of t. */
  lemma SubScalar(t: Tensor, o: Tensor)
    requires t.Valid() && o.Valid() && o.shape == []
    ensures Sub(t, o).Ok? && Sub(t, o).value.shape == t.shape
    ensures forall i :: 0 <= i < |t.data| ==> Sub(t, o).value.data[i] == t.data[i] - o.data[0]
  {
    assert BroadcastShapes(t.shape, o.shape) == Some(t.shape);
    BroadcastShapesCorrect(t.shape, o.shape);
    ExpandSame(t.shape, t.data);
    assert o.data == [o.data[0]];
    ProdOnesPrefix(|t.shape|, []);
    assert Ones(|t.shape|) + [] == Ones(|t.shape|);
    ExpandAlignedScalar(Ones(|t.shape|), t.shape, o.data[0]);
  }

  /** Subtracting tensors of one shape is elementwise subtraction. */
  lemma SubSameShape(t: Tensor, o: Tensor)
    requires t.Valid() && o.Valid() && t.shape == o.shape
    ensures Sub(t, o) == Ok(Tensor(t.shape, Diff(t.data, o.data)))
  {
    BroadcastShapesSame(t.shape);
    ExpandSame(t.shape, t.data);
    ExpandSame(o.shape, o.data);
  }

  /** -o */
  function Neg(o: Tensor): (r: Tensor)
    requires o.Valid()
    ensures r.Valid() && r.shape == o.shape
    ensures forall i :: 0 <= i < |o.data| ==> r.data[i] == -o.data[i]
  {
    Tensor(o.shape, seq(|o.data|, i requires 0 <= i < |o.data| => -o.data[i]))
  }

  /** A tensor of zeros of the given shape (torch.zeros_like). */
  function ZerosLike(o: Tensor): (r: Tensor)
    ensures r.shape == o.shape && r.Valid()
    ensures forall i :: 0 <= i < |r.data| ==> r.data[i] == 0.0
  {
    Tensor(o.shape, seq(Prod(o.shape), i => 0.0))
  }

  lemma SliceBounds(k: nat, n: nat, p: nat)
    requires k < n
    ensures k * p + p == (k + 1) * p <= n * p
  {
    assert (k + 1) * p <= n * p by {
      assert k + 1 <= n;
    }
  }

  /** Block k of n consecutive blocks of p elements. */
  function Block(data: seq<real>, k: nat, n: nat, p: nat): (r: seq<real>)
    requires k < n && |data| == n * p
    ensures |r| == p && forall i :: 0 <= i < p ==> k * p + i < |data| && r[i] == data[k * p + i]
  {
    SliceBounds(k, n, p);
    data[k * p..(k + 1) * p]
  }

  /** Iterating a tensor in Python (as zip does) walks its first dimension. */
  function Unbind(t: Tensor): (r: Result<seq<Tensor>>)
    requires t.Valid()
    ensures r.Ok? <==> |t.shape| > 0
    ensures r.Ok? ==> |r.value| == t.shape[0]
    ensures r.Ok? ==> forall k :: 0 <= k < |r.value| ==> r.value[k].Valid() && r.value[k].shape == t.shape[1..]
    ensures r.Ok? ==> forall k :: 0 <= k < |r.value| ==> r.value[k].data == Block(t.data, k, t.shape[0], Prod(t.shape[1..]))
  {
    if |t.shape| == 0 then Err(NotIterable)
    else
      var p := Prod(t.shape[1..]);
      Ok(seq(t.shape[0], k requires 0 <= k < t.shape[0] => Tensor(t.shape[1..], Block(t.data, k, t.shape[0], p))))
  }

  /** The concatenation of a list of columns. */
  function Concat(cols: seq<seq<real>>): (r: seq<real>)
  {
    if |cols| == 0 then [] else cols[0] + Concat(cols[1..])
  }

  /** Sum of the lengths of a list of columns. */
  function TotalLength(cols: seq<seq<real>>): nat
  {
    if |cols| == 0 then 0 else |cols[0]| + TotalLength(cols[1..])
  }

  lemma {:induction false} ConcatLength(cols: seq<seq<real>>)
    ensures |Concat(cols)| == TotalLength(cols)
  {
    if |cols| > 0 { ConcatLength(cols[1..]); }
  }

  /** torch.cat along the first dimension of a list of (-1, 1) columns; an empty list raises. */
  function Cat(cols: seq<seq<real>>): (r: Result<seq<real>>)
    ensures r.Ok? <==> |cols| > 0
    ensures r.Ok? ==> r.value == Concat(cols)
  {
    if |cols| == 0 then Err(EmptyConcat) else Ok(Concat(cols))
  }
}
