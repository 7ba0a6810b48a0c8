/** Failure-carrying results shared by the components. */
module Results {

  datatype Option<+T> = None | Some(value: T)

  /** Either a value or the reason the operation gave up. */
  datatype Result<+T, +E> = Ok(value: T) | Err(error: E)
}
