/** Option and Result: the model's stand-ins for the source's nullable
    references and thrown exceptions. */
module Wrappers {

  datatype Option<+T> = None | Some(value: T)

  /** An operation either succeeds with a value or fails with the
      exception the source would have thrown. */
  datatype Result<+T> = Ok(value: T) | Err(error: Exception)

  /** The exception kinds the modelled code raises. */
  datatype Exception =
    | InvalidOperation(message: string)   // System.InvalidOperationException
    | DuplicateKey(key: int)              // ArgumentException from SortedList.Add
    | CannotApply(typeName: string)       // the aggregate's own type guard
    | NullReference(field: string)       // System.NullReferenceException
}
