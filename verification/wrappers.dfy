/** Failure-carrying datatypes shared by every module of the model, and the
    Python exceptions the modelled code raises. */
module Wrappers {

  datatype Option<+T> = None | Some(value: T) {
    predicate IsFailure() {
      None?
    }

    function PropagateFailure<U>(): Option<U>
      requires None?
    {
      None
    }

    function Extract(): T
      requires Some?
    {
      value
    }
  }

  /** `Ok` is a normal return; `Err` is a raised exception. */
  datatype Result<+R, +E> = Ok(value: R) | Err(error: E) {
    predicate IsFailure() {
      Err?
    }

    function PropagateFailure<U>(): Result<U, E>
      requires Err?
    {
      Err(error)
    }

    function Extract(): R
      requires Ok?
    {
      value
    }
  }

  /** The Python exceptions raised along the modelled paths. */
  datatype Exception =
    | ValueError(message: string)
    | KeyError(key: string)
    | TypeError(message: string)
    | AttributeError(message: string)

  /** What a call that updates an object leaves behind: the object's new
      state, and the exception the call raised part-way, if any. Python
      keeps every attribute assigned before the raise, so a failed call
      can still have changed the object. */
  datatype Outcome<+S> = Outcome(state: S, raised: Option<Exception>)
}
