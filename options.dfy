/** The conventional optional value, standing for JavaScript's null / undefined. */
module Options {
  datatype Option<+T> = None | Some(value: T)
}
