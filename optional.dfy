/** Optional values: Python's `None`, JavaScript's `null`, and failed operations. */
module Optional {
  datatype Option<+T> = None | Some(value: T)
}
