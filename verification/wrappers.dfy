/** Failure-compatible wrappers used by every module of the model.
    `Option` stands for the source's nullable references: `None` is `null`. */
module Wrappers {

  datatype Option<+T> = None | Some(value: T) {

    /** The wrapped value, or `default` for `None`. */
    function GetOr(default: T): T {
      match this
      case Some(v) => v
      case None => default
    }
  }
}
