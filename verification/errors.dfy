/** Failure-compatible wrappers shared by the lexer and the parser, and the
    one error the ASDL front end raises: a syntax error carrying the line it
    was detected on, or an unknown line when none is available. */
module Errors {

  datatype Option<+T> = None | Some(value: T)

  /** The line an error is reported on: a 1-based line number, or unknown
      (the source falls back to '<unknown>' when it has no line number). */
  datatype Line = Known(n: nat) | Unknown

  /** A syntax error; only its line is modelled, not its message text. */
  datatype SyntaxError = SyntaxError(line: Line)

  /** The outcome of a lexing or parsing step: a value, or the syntax error
      that aborts the whole parse. */
  datatype Result<+T> = Ok(value: T) | Err(error: SyntaxError) {

    predicate IsFailure() {
      Err?
    }

    function PropagateFailure<U>(): Result<U>
      requires Err?
    {
      Err(error)
    }

    function Extract(): T
      requires Ok?
    {
      value
    }
  }
}
