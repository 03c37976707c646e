/** The optional value used for a pointer that may be absent and a timer slot
    that may be empty. */
module Options {
  datatype Option<T> = None | Some(value: T)
}
