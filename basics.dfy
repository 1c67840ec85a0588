/** Small value types shared by every module of the model. */
module Basics {

  datatype Option<T> = None | Some(value: T)

  /** The outcome of an operation that can throw: its value, or the error thrown. */
  datatype Result<T, E> = Ok(value: T) | Err(error: E)

  /** The content of one persisted storage key: nothing stored yet, something that
      cannot be read back (the read or the JSON parse throws), or a stored value. */
  datatype Slot<T> = Empty | Unreadable | Holds(value: T)

  /** One property of a partial update object spread over a record (`{ ...old, ...updates }`):
      absent from the update, or present with a value that overwrites the old one. */
  datatype Field<T> = Keep | Put(value: T) {
    function Or(current: T): T {
      match this
      case Keep => current
      case Put(v) => v
    }
  }
}
