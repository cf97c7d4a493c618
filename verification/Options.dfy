/** Optional values, shared by every module. */
module Options {

  datatype Option<+T> = None | Some(value: T)

  /** The first of the two that is present. */
  function OrElse<T>(a: Option<T>, b: Option<T>): Option<T> {
    if a.Some? then a else b
  }
}
