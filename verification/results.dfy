/** Failure-compatible wrappers used by the model: `Option` for lookups that may
    find nothing and `Result` for computations that either produce a value or
    report an error. `Result` supports Dafny's `:-` operator, which mirrors the
    early `return Err(..)` / `?` style of the modelled code. */
module Results {

  datatype Option<+T> = None | Some(value: T)

  datatype Result<+T, +E> = Ok(value: T) | Err(error: E) {

    predicate IsFailure() {
      Err?
    }

    function PropagateFailure<U>(): Result<U, E>
      requires Err?
    {
      Err(error)
    }

    function Extract(): T
      requires Ok?
    {
      value
    }
  }
}
