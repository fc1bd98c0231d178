/** The typed failures an instruction or a decoder reports instead of aborting. */
module Errors {
  import opened Ids

  datatype Error =
    | EntityNotFound(id: Id)       // a referenced account does not exist
    | AssetNotHeld(id: Id)         // a transfer source does not hold the asset
    | Unimplemented                // a contract variant with no execution semantics
    | DecodeError                  // malformed bytes at the codec boundary

  datatype Result<+T> = Ok(value: T) | Err(error: Error) {

    predicate IsFailure() {
      Err?
    }

    function PropagateFailure<U>(): Result<U>
      requires Err?
    {
      Err(error)
    }

    function Extract(): T
      requires Ok?
    {
      value
    }
  }
}
