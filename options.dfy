/** The usual optional value, used where the source returns null or "no error yet". */
module Options {
  datatype Option<T> = None | Some(value: T)
}
