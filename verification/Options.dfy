/** An optional value, standing for the source's nil pointers and "ok" results. */
module Options {
  datatype Option<+T> = None | Some(value: T)
}
