/** Optional values: a field or map lookup that may be absent. */
module Options {
  datatype Option<+T> = None | Some(value: T)
}
