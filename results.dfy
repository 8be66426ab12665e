/** Failure-carrying values shared by the tensor, Lie-group and optimizer modules. */
module Results {

  datatype Option<+T> = None | Some(value: T)

  /** The Python exceptions the modelled code can raise, by their cause. */
  datatype Error =
    | ShapeMismatch      // two shapes that torch cannot broadcast, or a matmul with unequal inner sizes
    | NotIterable        // iterating over a 0-dimensional tensor
    | TypeMismatch       // subtracting a tensor from a tuple
    | EmptyConcat        // torch.cat of an empty list
    | IndexOutOfRange    // x.shape[-1] of a 0-dimensional tensor
    | AmbiguousReshape   // reshape(-1, 0): the -1 can be any size
    | ViewMismatch       // d.view(p.shape) with a different element count
    | CholeskyFailed     // the damped matrix is not positive definite
    | InvalidDamping     // LevenbergMarquardt(damping <= 0)

  datatype Result<+T> = Ok(value: T) | Err(error: Error)
}
