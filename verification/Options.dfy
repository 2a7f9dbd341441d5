/** Optional values. */
module Options {

  datatype Option<+T> = None | Some(value: T)

  /** The answer of the newer source if it has one, else that of the older. */
  function OrElse<T>(newer: Option<T>, older: Option<T>): Option<T> {
    if newer.Some? then newer else older
  }
}
