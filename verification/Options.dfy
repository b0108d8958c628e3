/** A value that may be absent, such as a null pointer of the C code. */
module Options {

  datatype Option<T> = None | Some(value: T)
}
