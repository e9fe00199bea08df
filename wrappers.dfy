/**
 * Optional values and the Python exceptions that the indexers raise,
 * catch or let through, as explicit results instead of control flow.
 */
module Wrappers {

  datatype Option<T> = None | Some(value: T)

  /** The exceptions the proxy can end in. StoreError stands for any
      failure of the backing store that the model does not break down
      further (selecting rows from a stored series, a tuple selector). */
  datatype Error = KeyError | TypeError | IndexError | AttributeError | StoreError

  datatype Result<T> = Ok(value: T) | Err(error: Error)
}
