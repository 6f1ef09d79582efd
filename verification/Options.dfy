/** Small value types shared by the components of the gateway model. */
module Options {
  /** A value that Python spells `None` when it is absent. */
  datatype Option<+T> = None | Some(value: T)
}
