/** How an evaluation can fail: `evalerror` jumps out of the evaluator, which is a failure result here. */
module ExprErrors {

  /** One constructor for each message of the evaluator. */
  datatype Error =
    | InvalidNumber | InvalidBase | InvalidConstant | ValueTooGreat
    | DivisionByZero | NegativeExponent | RecursionExceeded
    | NotVariable | NoVariable | ExpressionExpected | ColonExpected | MissingParen | OperandExpected
    | IdentifierExpected | NeedsLvalue | BadOperator | SyntaxError | BadSubscript
  {
    /** Errors of evaluating, as opposed to errors in the text. */
    predicate Arithmetic() {
      this == DivisionByZero || this == NegativeExponent || this == RecursionExceeded
    }
  }

  /** The shell variables. */
  type Env = map<string, string>

  /** An error, and the variables as they were when it was raised: `evalerror` jumps out, but what has
      been bound by then stays bound. */
  datatype Fault = Fault(kind: Error, env: Env)

  datatype Result<+T, +E> = Ok(value: T) | Err(error: E) {
    predicate IsFailure() { Err? }

    function PropagateFailure<U>(): Result<U, E>
      requires Err?
    {
      Err(error)
    }

    function Extract(): T
      requires Ok?
    {
      value
    }
  }

  /** What does not look at variables succeeds or fails by itself; ... */
  type Checked<+T> = Result<T, Error>

  /** ... an evaluation leaves variables behind either way. */
  type Outcome<+T> = Result<T, Fault>

  /** A checked result among variables env. */
  function Among<T>(r: Checked<T>, env: Env): Outcome<T> {
    match r
    case Ok(v) => Ok(v)
    case Err(e) => Err(Fault(e, env))
  }
}
