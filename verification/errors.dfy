/** Exceptions raised by the generator, and the wrappers that carry them. */
module Outcomes {

  datatype Option<+T> = None | Some(value: T)

  /** `errno` of an IOError; only ENOENT is told apart by the generator. */
  datatype Errno = ENOENT | OtherErrno(code: int)

  /** The exceptions the modelled code can raise, one constructor per raise site kind. */
  datatype Error =
    | IOError(errno: Errno)                                  // open() failed
    | MissingKey(missing: Option<string>)                  // KeyError on a dict lookup
    | UnpackError(expected: nat, got: nat)                   // ValueError from tuple unpacking
    | MissingArguments(rule: string, names: set<string>)     // TypeError in Rule.build
    | UnexpectedArguments(rule: string, names: set<string>)  // TypeError in Rule.build
    | InvalidTarget(target: string)                          // RuntimeError in add_target
    | VariableConflict(key: string, value: string)           // RuntimeError in variable
    | RuleMismatch(name: string)                             // AssertionError in rule
    | NoSuchPiece                                            // IndexError on split(...)[1]

  datatype Result<+T> = Ok(value: T) | Err(error: Error) {
    predicate IsFailure() { Err? }
    function PropagateFailure<U>(): Result<U>
      requires Err?
    {
      Err(error)
    }
    function Extract(): T
      requires Ok?
    {
      value
    }
  }

  /** Outcome of a call that returns nothing on success. */
  datatype Outcome = Pass | Fail(error: Error)
}
