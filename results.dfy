/** Outcomes shared by the modules of this model. */
module Results {

  /** A value, or the condition under which the source raises instead of returning. */
  datatype Result<+T, +E> = Ok(value: T) | Err(error: E)

  datatype Option<+T> = None | Some(value: T)
}
