/** A pointer that may be NULL, for the kernel's optional lists and free functions. */
module Options {
  datatype Option<T> = None | Some(value: T)
}
