/** Option and Result, used for the transform collaborator's answers and for
    the "return None" paths of the node. */
module Wrappers {

  datatype Option<+T> = None | Some(value: T)

  datatype Result<+T, +E> = Success(value: T) | Failure(error: E)
}
