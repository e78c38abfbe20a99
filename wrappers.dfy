/** Option: a cell that may be null (a pandas NaN / SQL NULL). */
module Wrappers {

  datatype Option<+T> = None | Some(value: T) {

    /** The value, or `default` when null (pandas `fillna(default)`). */
    function GetOr(default: T): T {
      match this
      case Some(v) => v
      case None => default
    }
  }
}
