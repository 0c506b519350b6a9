/** Optional values, for the null pointers of the modelled code. */
module Options {
  datatype Option<+T> = None | Some(value: T)
}
