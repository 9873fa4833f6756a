/**
 * Failure-compatible wrappers used throughout the lexer model.
 *
 * The tokenizer reports every problem with one and the same exception (a
 * `SyntaxError` DOMException whose message only repeats the input), so a
 * failed scan carries no payload here.
 */
module Results {

  /** An optional value; `None` also stands for JavaScript's `null`/`undefined`. */
  datatype Option<+T> = None | Some(value: T)

  /** The outcome of a scanner: a value, or the selector syntax error. */
  datatype Result<+T> = Ok(value: T) | SyntaxError {

    predicate IsFailure() {
      SyntaxError?
    }

    function PropagateFailure<U>(): Result<U>
      requires SyntaxError?
    {
      SyntaxError
    }

    function Extract(): T
      requires Ok?
    {
      value
    }
  }
}
