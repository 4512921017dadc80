/** The failure-carrying datatype shared by the modules of this model. */
module Wrappers {

  /** `None` stands for Python's `None` or for a call that raised. */
  datatype Option<+T> = None | Some(value: T) {

    function GetOr(default: T): T
    {
      match this
      case Some(v) => v
      case None => default
    }
  }
}
