/** Optional values, standing for the source's nullable fields. */
module Options {
  datatype Option<+T> = None | Some(value: T)
}
