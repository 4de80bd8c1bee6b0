/** How a call of the tokenizer or of the parser ends. */
module Outcomes {

  /** `Ok` and `Err` are the two sides of the Rust `Result` the procedure
      returns; `Panic` is a failed `unwrap`/`expect`, which aborts the whole
      program instead of returning. */
  datatype Outcome<+T, +E> = Ok(value: T) | Err(error: E) | Panic
}
