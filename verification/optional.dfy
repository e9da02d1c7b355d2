/** Values that may be missing: an array key that is not set, a request
    header that was not sent, a pattern that does not match. */
module Optional {

  datatype Option<T> = None | Some(value: T) {

    /** The held value, or `fallback` when there is none (the router's
        `isset($x) ? $x : fallback`). */
    function ValueOr(fallback: T): T {
      if Some? then value else fallback
    }
  }
}
