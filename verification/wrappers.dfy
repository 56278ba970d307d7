/** Optional values: PHP `null`/`false` results and JavaScript `undefined`. */
module Wrappers {

  datatype Option<+T> = None | Some(value: T) {

    /** This option when it holds a value, otherwise `other`. */
    function OrElse(other: Option<T>): Option<T> {
      if Some? then this else other
    }
  }
}
