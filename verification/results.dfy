/** Failure-carrying results for the two places where the engine indexes an
    empty Python list and raises IndexError. */
module Results {

  /** Why an operation gave up. */
  datatype Fault =
    | UnmatchedClose   // `)` with no `(` left on the operator stack
    | StackUnderflow   // an operator or the final read found the operand stack empty

  datatype Result<+T> = Ok(value: T) | Err(fault: Fault)
}
