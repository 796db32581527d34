/** A value that may be missing, for the error and absence cases of the modelled code. */
module Options {
  datatype Option<+T> = None | Some(value: T)
}
