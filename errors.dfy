/** Failure values shared by the vector and store modules. */
module Errors {

  /** The failures the modelled code raises. */
  datatype Error =
    | SizeMismatch     // thrown as 'Vector size mismatch'
    | UniqueViolation  // the index table's primary key refuses a cluster_id it already holds

  datatype Option<T> = None | Some(value: T)

  datatype Result<T> = Ok(value: T) | Err(error: Error)
}
