/** A value that may be missing: the source's std::optional, and None for its exceptions. */
module Optional {
  datatype Option<+T> = None | Some(value: T)
}
