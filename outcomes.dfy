/**
 * How an operation of the front end ends.  The C++ code signals failure with
 * exceptions; the model turns every such exit into a value.
 *
 *  - `InvalidArgument` is a thrown `std::invalid_argument`; the parser, the
 *    semantic checker, `EnvStack::Add` and the interpreter catch it.
 *  - `Crash` is an exit nothing catches: the pointer thrown by
 *    `EnvStack::GetRef`, a null AST pointer being dereferenced, a
 *    `std::out_of_range` from `stoi`/`stol`/`stof`/`stod`, or an integer
 *    division trap.
 *  - `Diverges` is a loop of the source that never ends (an unterminated
 *    string or comment in the lexer, a cursor that stops moving).
 *  - `Unmodelled` marks a result that depends on floating-point rounding,
 *    which the model keeps symbolic: a floating comparison, or whether
 *    `stof`/`stod` of a literal at the limits of the range throws.
 */
module Outcomes {

  datatype Option<T> = None | Some(value: T)

  datatype Abrupt =
    | InvalidArgument(msg: string)
    | Crash(reason: string)
    | Diverges(reason: string)
    | Unmodelled(what: string)
  {
    /** Only `std::invalid_argument` is caught by the front end's handlers. */
    predicate Catchable() {
      InvalidArgument?
    }
  }

  datatype Res<T> = Ok(value: T) | Fail(abrupt: Abrupt)
  {
    predicate IsFailure() {
      Fail?
    }

    function PropagateFailure<U>(): Res<U>
      requires Fail?
    {
      Fail(abrupt)
    }

    function Extract(): T
      requires Ok?
    {
      value
    }
  }
}
