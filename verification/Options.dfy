/** A value that may be missing: `std::optional`. */
module Options {
  datatype Option<T> = None | Some(value: T)
}
