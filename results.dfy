/** Outcome types shared by the tokenizer and the parser. */
module Results {

  /** An optional value, as Rust's `Option`. */
  datatype Option<+T> = None | Some(value: T)

  /**
   * A computation that either returns a value or ends the process.  The
   * modelled code never recovers from an error: every `Err` stands for a
   * panic or a call to `std::process::exit`.
   */
  datatype Result<+T, +E> = Ok(value: T) | Err(error: E) {
    predicate IsFailure() {
      Err?
    }

    function PropagateFailure<U>(): Result<U, E>
      requires Err?
    {
      Err(error)
    }

    function Extract(): T
      requires Ok?
    {
      value
    }
  }
}
