/** Option and Result values: how the model writes an absent JavaScript
    property and the outcome of a call into a collaborator that may reject. */
module Wrappers {

  /** A property that is either absent (`undefined`) or holds a value. */
  datatype Option<+T> = None | Some(value: T)

  /** The reason a collaborator's promise was rejected; its contents are opaque
      to the handlers, which only forward it or replace it by a message. */
  type Error = string

  /** The settled state of one awaited collaborator call. */
  datatype Result<+T> = Ok(value: T) | Err(error: Error)
}
