/** The conventional optional value; `None` stands for JavaScript's `undefined` or `null` where the source tests for either. */
module Optional {
  datatype Option<+T> = None | Some(value: T)
}
