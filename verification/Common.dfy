/** The one datatype that every other module shares. */
module Common {
  datatype Option<+T> = None | Some(value: T)
}
