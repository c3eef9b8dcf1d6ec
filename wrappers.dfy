/** Failure-carrying values shared by the two bank-support variants. */
module Wrappers {

  datatype Option<+T> = None | Some(value: T)

  datatype Result<+R, +E> = Ok(value: R) | Err(error: E)

  /** The Python exceptions the fake customer database raises. */
  datatype PyError =
    | KeyError(key: int)          // `data[id]` for an id absent from the table
    | ValueError(message: string) // `raise ValueError('Customer not found')`
}
