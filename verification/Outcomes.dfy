/** Results of contract code: a value, or the failure that aborts the whole transaction. */
module Outcomes {

  datatype Option<+T> = None | Some(value: T)

  /** `FailWith` carries the number a contract passes to `failwith`; `Rejected` is the protocol's
      own refusal of a call that reaches no contract code. */
  datatype Failure = FailWith(code: nat) | Rejected

  datatype Result<+T> = Ok(value: T) | Err(failure: Failure) {

    predicate IsFailure() {
      Err?
    }

    function PropagateFailure<U>(): Result<U>
      requires Err?
    {
      Err(failure)
    }

    function Extract(): T
      requires Ok?
    {
      value
    }
  }
}
