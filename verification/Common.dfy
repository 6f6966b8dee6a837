/** Small types shared by the models of the individual source files. */
module Common {
  datatype Option<+T> = None | Some(value: T)
}
