# pypose: Gauss-Newton / Levenberg-Marquardt step and polynomial Lie-group operations

This project is a Dafny model of two parts of pypose, with proofs about the model.

- **The optimizer step** (`pypose/optim/optimizer.py`, module `Optim`). It covers:
  - how `GaussNewton._residual` assembles the error column E from the model's outputs and the optional targets;
  - the kernel-weighted gradient `K.T * J.T @ E`;
  - the normal matrix `J^T J` and the Levenberg-Marquardt in-place damping of its diagonal;
  - cutting the solver's delta into per-parameter slices and adding them in place to the parameters (`p.add_`);
  - the returned loss `kernel(E'^2).sum()`;
  - the constructors of both optimizers, including the Levenberg-Marquardt check on the damping factor.

  The parameters are a `ParamGroup` class. It holds one `array<real>` per parameter and its `requires_grad` flag, and `ApplyDelta` updates the arrays in place. The two optimizers are classes whose `Step` methods state their entire effect in terms of functions on values. These functions are `Residual`, `WeightedGradient`, `Gram`, `Damped`, `Split`, `FirstMismatch`, `Updated` and `LossAfter`.
- **The polynomial Lie-group forward passes** (`pypose/lietensor/operation.py`, module `LieOps`). They act on one group element without batch dimensions.
  - Layouts: a quaternion is `[x, y, z, w]`; SE(3) is `[t, q]`; RxSO(3) is `[q, s]`; Sim(3) is `[t, q, s]`.
  - Operations: `*_Mul`, `*_Inv` and `*_Act`, the rotation matrix `SO3_Adj`/`SO3_Matrix`, `SE3_Matrix`, the adjoint builders `SE3_Adj`, `se3_adj`, `rxso3_adj` and `sim3_adj`, and `broadcast_inputs`.
  - `vec2skew` is defined as the usual skew-symmetric matrix of a 3-vector.
- **Supporting modules:**
  - `Tensors` holds the part of torch used above: shapes, `broadcast_shapes`, `expand`, broadcast subtraction, iteration over the first dimension, and `cat`.
  - `Dense` holds vectors and matrices as `seq<real>` and `seq<seq<real>>`.
  - `Results` holds `Option`, `Result` and the exceptions the code can raise.

Numbers are Dafny `real`s: exact arithmetic, with no rounding, NaN or infinity.

## Model

| member | source | states |
|---|---|---|
| LieOps.SO3Inv | pypose/lietensor/operation.py:829-832 | the forward pass: the conjugate (−x, −y, −z, w); it carries no contract of its own, and the lemmas below state its laws |
| LieOps.SO3InvInvolution | pypose/lietensor/operation.py:827-832 | SO3_Inv negates exactly the vector part of (x, y, z, w), and applying it twice returns the input |
| LieOps.SO3InvNorm | pypose/lietensor/operation.py:829-832 | the conjugate has the same squared norm, so the conjugate of a unit quaternion is a unit quaternion |
| LieOps.SO3Mul | pypose/lietensor/operation.py:752-757 | the forward pass: the Hamilton product in [x, y, z, w] layout; its laws are the lemmas below |
| LieOps.SO3MulIdentity | pypose/lietensor/operation.py:754-757 | (0, 0, 0, 1) is a left and a right identity of the Hamilton product |
| LieOps.SO3MulInv | pypose/lietensor/operation.py:754-757 | a quaternion times its conjugate, in either order, is (0, 0, 0, x²+y²+z²+w²) |
| LieOps.SO3InvMul | pypose/lietensor/operation.py:749-832 | the conjugate of a product is the product of the conjugates in reverse order |
| LieOps.SO3Act | pypose/lietensor/operation.py:514-517 | the forward pass: p + w·uv + v×uv with uv = 2(v×p); its properties are the lemmas below |
| LieOps.SO3ActIdentity | pypose/lietensor/operation.py:514-517 | the identity quaternion leaves every point unchanged |
| LieOps.SO3ActAdditive | pypose/lietensor/operation.py:514-517 | the rotation action maps p + q to the sum of the images of p and q |
| LieOps.SO3ActHomogeneous | pypose/lietensor/operation.py:514-517 | the rotation action commutes with scaling the point |
| LieOps.SO3ActZero | pypose/lietensor/operation.py:514-517 | every quaternion fixes the origin |
| LieOps.SO3ActComb | pypose/lietensor/operation.py:514-517 | for every quaternion the action is (1 − 2\|v\|²) p + 2(v·p) v + 2w (v×p) |
| LieOps.SO3ActInverseRight | pypose/lietensor/operation.py:514-832 | for a unit quaternion q, acting by q undoes acting by SO3_Inv(q): SO3_Act(q, SO3_Act(q*, p)) = p |
| LieOps.SO3ActInverseLeft | pypose/lietensor/operation.py:514-832 | for a unit quaternion q, acting by SO3_Inv(q) undoes acting by q |
| LieOps.SO3AdjApply | pypose/lietensor/operation.py:186-196 | the matrix SO3_Adj builds, applied to p, gives 2w(w p + v×p) − p + 2(v·p) v |
| LieOps.SO3ActIsMatrix | pypose/lietensor/operation.py:512-533 | for a unit quaternion, SO3_Act(X, p) equals SO3_Matrix(X)·p (the backward pass relies on this for the p-gradient) |
| LieOps.SO3AdjIdentity | pypose/lietensor/operation.py:186-196 | SO3_Adj of the identity quaternion is I₃ |
| LieOps.SE3Mul | pypose/lietensor/operation.py:773-777 | the forward pass: translation X_t + SO3_Act(X_q, Y_t), rotation SO3_Mul(X_q, Y_q) |
| LieOps.SE3Inv | pypose/lietensor/operation.py:844-847 | the forward pass: rotation q* = SO3_Inv(q), translation −SO3_Act(q*, t) |
| LieOps.SE3Act | pypose/lietensor/operation.py:542-545 | the forward pass: X_t + SO3_Act(X_q, p) |
| LieOps.SE3MulIdentity | pypose/lietensor/operation.py:773-777 | the identity pose is a left and a right identity of SE3_Mul |
| LieOps.SE3MulInv | pypose/lietensor/operation.py:773-847 | for a pose with a unit rotation, SE3_Mul(X, SE3_Inv(X)) and SE3_Mul(SE3_Inv(X), X) are both the identity pose |
| LieOps.SE3ActInv | pypose/lietensor/operation.py:542-847 | for a pose with a unit rotation, SE3_Act(SE3_Inv(X), SE3_Act(X, p)) = p |
| LieOps.SE3ActIdentity | pypose/lietensor/operation.py:541-545 | the identity pose moves no point |
| LieOps.RxSO3Mul | pypose/lietensor/operation.py:792-796 | the forward pass: SO3_Mul of the quaternions, product of the scales |
| LieOps.RxSO3Inv | pypose/lietensor/operation.py:861-866 | the forward pass: SO3_Inv of the quaternion and the reciprocal scale, for a non-zero scale |
| LieOps.RxSO3Act | pypose/lietensor/operation.py:563-566 | the forward pass: the scale times SO3_Act of the quaternion |
| LieOps.RxSO3MulIdentity | pypose/lietensor/operation.py:792-796 | (0, 0, 0, 1, 1) is a left and a right identity of RxSO3_Mul |
| LieOps.RxSO3MulInv | pypose/lietensor/operation.py:859-866 | for s ≠ 0, x times RxSO3_Inv(x), in either order, has scale 1 and quaternion (0, 0, 0, \|q\|²) |
| LieOps.RxSO3InvInvolution | pypose/lietensor/operation.py:861-866 | for s ≠ 0 the inverse has a non-zero scale, and inverting twice returns the input |
| LieOps.Sim3Mul | pypose/lietensor/operation.py:811-815 | the forward pass: translation X_t + RxSO3_Act(X_qs, Y_t), RxSO(3) part RxSO3_Mul(X_qs, Y_qs) |
| LieOps.Sim3Inv | pypose/lietensor/operation.py:878-882 | the forward pass: qs′ = RxSO3_Inv(X_qs) and translation −RxSO3_Act(qs′, X_t), for a non-zero scale |
| LieOps.Sim3Act | pypose/lietensor/operation.py:582-585 | the forward pass: X_t + RxSO3_Act(X_qs, p) |
| LieOps.Sim3MulIdentity | pypose/lietensor/operation.py:811-815 | the identity Sim(3) element is a left and a right identity of Sim3_Mul |
| LieOps.Sim3MulInv | pypose/lietensor/operation.py:811-882 | for a non-zero scale and a unit rotation, Sim3_Mul(X, Sim3_Inv(X)) and Sim3_Mul(Sim3_Inv(X), X) are both the identity element |
| LieOps.SE3Matrix | pypose/lietensor/operation.py:238-248 | a 4×4 matrix with SO3_Matrix(q) in the top-left block, the translation in column 3 and bottom row (0, 0, 0, 1) |
| LieOps.SE3MatrixActs | pypose/lietensor/operation.py:238-248 | for a unit rotation, SE3_Matrix maps the homogeneous point (p, 1) to (SE3_Act(X, p), 1) |
| LieOps.SE3Adj | pypose/lietensor/operation.py:219-235 | a 6×6 matrix: SO3_Adj(q) on both diagonal blocks, [t]× R in the upper-right block, zeros in the lower-left block |
| LieOps.SE3AdjIdentity | pypose/lietensor/operation.py:219-235 | SE3_Adj of the identity pose is I₆ |
| LieOps.Se3Adj | pypose/lietensor/operation.py:88-94 | a 6×6 matrix: [phi]× on both diagonal blocks, [tau]× in the upper-right block, zeros in the lower-left block |
| LieOps.Rxso3Adj | pypose/lietensor/operation.py:153-156 | a 4×4 matrix: [phi]× in the top-left 3×3 block and zero everywhere else |
| LieOps.Sim3Adj | pypose/lietensor/operation.py:158-167 | a 7×7 matrix: [phi]× + sigma I and [tau]× in the top block row, −tau in column 6 of the top rows, [phi]× in the middle diagonal block, zeros elsewhere |
| LieOps.Rows | pypose/lietensor/operation.py:963-965 | reshape(-1, d) fails exactly when d = 0; otherwise it keeps the elements and gives shape (∏ batch, d) |
| LieOps.ExpandRows | pypose/lietensor/operation.py:968-969 | expanding to the broadcast batch and flattening fails exactly on a last dimension of 0; otherwise the shape is (∏ shape, d) |
| LieOps.BroadcastInputs | pypose/lietensor/operation.py:961-965 | with y = None the result exists exactly when x has a non-zero last dimension, and it is x's elements as rows together with x.shape[:-1] |
| LieOps.BroadcastInputsPair | pypose/lietensor/operation.py:961-970 | with two inputs the call succeeds exactly when the batch shapes broadcast and both last dimensions exist and are non-zero |
| LieOps.BroadcastInputsPairShapes | pypose/lietensor/operation.py:966-970 | after a successful call with two inputs, both outputs have ∏(out) rows (one row for an empty batch) and keep their last dimension, and the returned shape is the raw broadcast shape, with max(ndim) − 1 dimensions |
| LieOps.BroadcastInputsSameBatch | pypose/lietensor/operation.py:961-970 | two inputs with the same batch shape are only flattened: their elements are unchanged |
| Tensors.BroadcastShapesCorrect | pypose/lietensor/operation.py:966 | torch.broadcast_shapes succeeds exactly when every right-aligned pair of dimensions is equal or contains a 1, and each result dimension is the non-1 one |
| Tensors.Sub | pypose/optim/optimizer.py:153 | t − o exists exactly when the shapes broadcast, and has the broadcast shape |
| Tensors.SubSameShape | pypose/optim/optimizer.py:153 | subtracting tensors of the same shape is elementwise subtraction |
| Tensors.SubScalar | pypose/optim/optimizer.py:153 | subtracting a 0-dimensional tensor keeps the other shape and subtracts its one element from every element |
| Tensors.Unbind | pypose/optim/optimizer.py:151 | iterating a tensor fails exactly on a 0-dimensional tensor, and yields shape[0] slices of shape shape[1:]; slice k holds the k-th consecutive block of the elements |
| Tensors.Cat | pypose/optim/optimizer.py:151 | torch.cat of the columns fails exactly on an empty list and otherwise concatenates them in order |
| Optim.Residual | pypose/optim/optimizer.py:147-159 | the forward definition of `_residual` over the four cases (tuple or single outputs, with or without targets); its meaning is stated by the lemmas below |
| Optim.Columns | pypose/optim/optimizer.py:151 | the zipped pairs give min(len(targets), len(outputs)) columns |
| Optim.ResidualZipTruncates | pypose/optim/optimizer.py:147-153 | with tuple outputs and targets, E depends only on the first min(len(targets), len(outputs)) pairs |
| Optim.ResidualTuple | pypose/optim/optimizer.py:150-151 | for equally shaped pairs, E exists exactly when a pair exists; E is the in-order concatenation of the flattened t_k − o_k, and its length is the element count of the zipped outputs |
| Optim.ResidualCases | pypose/optim/optimizer.py:149-153 | a single output against a single target exists exactly when the shapes broadcast, and is the elementwise difference for equal shapes; a tuple target against a single output raises; a 0-dimensional target against tuple outputs raises |
| Optim.ResidualNoTargets | pypose/optim/optimizer.py:154-158 | without targets, E equals the residual against all-zero targets of the same shapes |
| Optim.Weights | pypose/optim/optimizer.py:134-135 | K has one entry per entry of E: the kernel's derivative at E_i² |
| Optim.WeightedGradient | pypose/optim/optimizer.py:140-142 | K.T * J.T @ E succeeds exactly when J has len(E) rows or one row; with len(E) rows, entry c is Σ_i J[i][c]·K[i]·E[i]; with one row, entry c is J[0][c]·(K·E) |
| Optim.DefaultKernelGradient | pypose/optim/optimizer.py:140-142 | with K = 1 everywhere (the default identity kernel) the weighted gradient is JᵀE |
| Optim.NormalMatrix | pypose/optim/optimizer.py:274 | JᵀJ is N×N and symmetric, with a non-negative diagonal |
| Optim.Clamp | pypose/optim/optimizer.py:275 | clamp stays within [min, max] when min ≤ max, is the identity inside the range, and gives max when min > max |
| Optim.DampingIncreases | pypose/optim/optimizer.py:275 | with damping > 0 and positive min and max, every diagonal entry strictly increases |
| Optim.DefaultDampingIncreases | pypose/optim/optimizer.py:205-209 | with the default bounds min = 1e-6 and max = 1e32, any damping > 0 strictly increases every diagonal entry |
| Optim.DampedNormalDiagonal | pypose/optim/optimizer.py:274-275 | a non-negative diagonal entry of JᵀJ becomes strictly positive |
| Optim.DampingWithNegativeMax | pypose/optim/optimizer.py:275 | with max < 0 and max < min, the damping shrinks every diagonal entry |
| Optim.DampDiagonal | pypose/optim/optimizer.py:275 | in place, each diagonal entry d becomes d + damping·clamp(d, min, max) and the off-diagonal entries are unchanged |
| Optim.DampedGram | pypose/optim/optimizer.py:274-275 | A = JᵀJ damped in place, read back, is the value Damped(JᵀJ) |
| Optim.Damped | pypose/optim/optimizer.py:275 | the damped matrix has the damped diagonal entries and the original off-diagonal entries |
| Optim.DampedNormalMatrix | pypose/optim/optimizer.py:274-275 | the damped JᵀJ is symmetric, and with damping > 0 and positive bounds each diagonal entry exceeds the undamped one, which is ≥ 0 |
| Optim.TrainableNumels | pypose/optim/optimizer.py:137 | there is one size per trainable parameter |
| Optim.TrainableNumelsPositions | pypose/optim/optimizer.py:137 | the element count of the i-th parameter, when trainable, sits at position (number of trainable parameters before i): the sizes are the trainable counts in parameter order |
| Optim.Split | pypose/optim/optimizer.py:143 | torch.split gives one piece per size, and each piece has that size |
| Optim.SplitConcat | pypose/optim/optimizer.py:143 | when the sizes add up to len(D), concatenating the pieces in order gives back D |
| Optim.SplitSlice | pypose/optim/optimizer.py:143 | piece k is the part of D that starts after the first k sizes |
| Optim.Updated | pypose/optim/optimizer.py:144 | only trainable parameters before the stopping point receive their zipped slice; all others, frozen ones included, keep their values |
| Optim.FirstMismatch | pypose/optim/optimizer.py:144 | the first zipped pair whose trainable parameter does not match its slice's element count, or the pair count when there is none |
| Optim.AlignedApply | pypose/optim/optimizer.py:143-144 | if no frozen parameter precedes a trainable one and D has the trainable element count, no view fails; trainable parameter j receives exactly the piece of D after the elements of the parameters before it, and frozen ones are unchanged |
| Optim.PieceAtOffset | pypose/optim/optimizer.py:137-143 | when the sizes are the parameters' element counts, piece j of D starts after the elements of the parameters before j |
| Optim.FrozenFirstSwallowsSlice | pypose/optim/optimizer.py:144 | a frozen parameter placed before the only trainable one takes the only slice, so nothing is updated and no error is raised |
| Optim.IdentityKernelLoss | pypose/optim/optimizer.py:145 | with the identity kernel the loss is E·E: it is ≥ 0, and it is 0 exactly when E is all zeros |
| Optim.LossAfter | pypose/optim/optimizer.py:279 | the loss exists exactly when the new residual does, and it is Σ kernel(E'²) over it |
| Optim.ParamGroup.Values | pypose/optim/optimizer.py:144 | the current elements of every parameter, in order |
| Optim.ParamGroup.ApplyDelta | pypose/optim/optimizer.py:277-278 | adds slice j in place to trainable parameter j over the zipped pairs; it succeeds exactly when no trainable parameter's element count differs from its slice's, and otherwise raises ViewMismatch after the earlier parameters are updated |
| Optim.ParamGroup.ApplyThenLoss | pypose/optim/optimizer.py:144-145 | applies the slices in place, then returns ViewMismatch if a view failed and otherwise the loss over the model's new outputs |
| Optim.Assemble | pypose/optim/optimizer.py:133-142 | E is the residual, and b is the weighted gradient of E with N entries; once E exists, failure can only be a shape mismatch |
| Optim.GaussNewton.constructor | pypose/optim/optimizer.py:76-80 | stores the parameter group, the kernel (the identity when none is given) and the fast flag (false by default) |
| Optim.GaussNewton.Step | pypose/optim/optimizer.py:133-145 | an error before the solve leaves the parameters unchanged; otherwise the delta (lstsq, or the pseudo-inverse) is split and applied, and the result is the loss over the new residual, or ViewMismatch |
| Optim.LevenbergMarquardt.Init | pypose/optim/optimizer.py:205-209 | stores the parameter group, the kernel (the identity when none is given), damping, and min and max unchanged, with min = 1e-6 and max = 1e32 by default |
| Optim.LevenbergMarquardt.Create | pypose/optim/optimizer.py:205-209 | construction raises exactly when damping ≤ 0; otherwise the group holds damping, min and max as given (by default 1e-6 and 1e32) |
| Optim.LevenbergMarquardt.Step | pypose/optim/optimizer.py:268-279 | as the Gauss-Newton step, with the delta solved against the damped JᵀJ; a failed Cholesky factorization raises and leaves the parameters unchanged |

## Left out

- Every `*_Exp`, `*_Log` and left-Jacobian function (`so3_Jl`, `calcQ`, `rxso3_Ws`, `sim3_Jl` and the rest): they use sin, cos, exp, log and floating-point eps thresholds.
- All `backward` methods and the `torch.autograd.Function` machinery. The one identity the SO3_Act backward relies on is `LieOps.SO3ActIsMatrix`.
- Batch dimensions inside the group operations: every operation acts on a single element. Only `broadcast_inputs` handles shapes.
- `SO3_Matrix4x4`, `SE3_Matrix4x4` and the other matrix builders that are not named above are not part of this model.
- Device transfers, `torch.no_grad` and dtypes: they do not change values over the reals.
- `LieOps.RxSO3Inv`, `LieOps.Sim3Inv`: these require a non-zero scale, because `1.0 / 0` is IEEE infinity and has no counterpart in `real`.
- `LieOps.SO3Act`: that acting by a product is acting twice, SO3_Act(X·Y, p) = SO3_Act(X, SO3_Act(Y, p)) for unit quaternions, is not proved. The inverse laws of SE(3) and Sim(3) are proved without it.
- The Jacobian `J` (`modjac`) and the kernel derivative `K` (forward-mode `jacobian`) are parameters of `Step`. The kernel is modelled as an elementwise function on reals, with its derivative given separately.
- `pinverse`, `lstsq` (with `rcond` and `driver`), `torch.linalg.cholesky` and `cholesky_solve` are parameters of `Step`. The step assumes only the result lengths; a failed Cholesky factorization is `None`. The Gauss-Newton `rcond` and `driver` options therefore have no field of their own.
- The `torch.optim.Optimizer` base class and multiple parameter groups: `model.parameters()` always yields one group, modelled directly as `ParamGroup`.
- `Optim.GaussNewton.Step`, `Optim.LevenbergMarquardt.Step`: the Jacobian is required to have one column per trainable element, so the size-mismatch error of `torch.split` cannot happen in the model.
- `Optim.LevenbergMarquardt.Create`: the damping check is an `assert`, which `python -O` skips. The model always performs it.
- `Optim.DampingIncreases`: the code promises growth only for damping > 0 and min > 0. The lemma also needs max > 0, because with max < min the clamp returns max; `Optim.DampingWithNegativeMax` shows the entries then shrink.
- `Optim.Residual`: subtracting a single output from a tuple of targets is modelled as the `TypeMismatch` error. Tuple broadcasting rules of torch are not modelled.
- `Optim.Residual`: tensors have no strides in the model, so `.view(-1, 1)` always succeeds. In torch it raises a RuntimeError on a tensor whose memory layout cannot be viewed, for example a transposed model output; that error path is not modelled.
- `Tensors.Sub`: element values are stated for equal shapes (`Tensors.SubSameShape`) and for a 0-dimensional operand (`Tensors.SubScalar`). Under other broadcasts they are given by the `Expand` definition only, with no lemma about them.
- `Optim.WeightedGradient`: broadcasting of K against J's rows is modelled for a one-dimensional E column only. Other shapes of K produced by the autodiff are not modelled.
- The model computes `A = JᵀJ` and its damping before E is assembled. In the source E comes first; neither step has side effects, so the order does not change the result.
