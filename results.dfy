/** Outcomes shared by the whole model: a value that may never have been
    assigned, and the result of a computation that can fail. */
module Results {

  /** `None` stands for a C local that no branch assigned before it was read. */
  datatype Option<T> = None | Some(value: T)

  /** The ways an inference pass can fail instead of producing a number. */
  datatype Error =
    | UnassignedMembership   // a membership evaluator left its result unassigned
    | ZeroDenominator        // a division by an accumulated sum that is zero

  datatype Result<T> = Ok(value: T) | Err(error: Error)
}
