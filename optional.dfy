/** The usual Some/None datatype, used for values that may be absent. */
module Optional {

  datatype Option<+T> = None | Some(value: T)
}
