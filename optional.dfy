/** A value that an outside source may or may not have produced. */
module Optional {
  datatype Option<T> = None | Some(value: T)
}
