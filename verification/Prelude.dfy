/** Datatypes shared by every module. */
module Prelude {

  datatype Option<+T> = None | Some(value: T) {
    function GetOr(default: T): T {
      if Some? then value else default
    }
  }

  datatype Result<+T, +E> = Ok(value: T) | Err(error: E)

  /** No operation fails. */
  ghost predicate Reliable(fails: nat -> bool) {
    forall i :: !fails(i)
  }
}
