/** Value types shared by the modules. */
module Common {
  datatype Option<+T> = None | Some(value: T)
}
