/** Shared by the component models. */
module Common {

  datatype Option<+T> = None | Some(value: T)
}
