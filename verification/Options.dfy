/** A value that may be missing: Go's nil pointers and second results. */
module Options {
  datatype Option<T> = Some(value: T) | None
}
