/** Option and the outcome of a native (COM) call, shared by the other modules. */
module Wrappers {

  /** C#'s nullable value: `None` plays the part of `null`. */
  datatype Option<+T> = None | Some(value: T) {
    function GetOr(default: T): T {
      match this
      case Some(v) => v
      case None => default
    }
  }

  /** A native call that returns a value or throws a COMException carrying an HRESULT. */
  datatype Native<+T> = Ok(value: T) | ComError(code: int)

  /** A native call that returns nothing or throws a COMException carrying an HRESULT. */
  datatype Outcome = Done | Failed(code: int)
}
