/** The optional-value datatype shared by the modules of this project. */
module Wrappers {

  /** `None` stands for JavaScript's `null` where a function returns "nothing". */
  datatype Option<+T> = None | Some(value: T) {

    /** The carried value, or `default` when there is none. */
    function GetOr(default: T): T
    {
      match this
      case Some(v) => v
      case None => default
    }
  }
}
