/** The Option datatype used for the values the source leaves as JavaScript `undefined`. */
module Wrappers {

  /** `None` stands for a lookup or segment that does not exist. */
  datatype Option<+T> = None | Some(value: T) {

    /** The held value; `default` stands in when there is none, as JavaScript's
        string concatenation turns `undefined` into the text `undefined`. */
    function GetOr(default: T): T {
      if Some? then value else default
    }
  }
}
