/** The optional value used throughout the model for JavaScript's `T | null` and `T | undefined`. */
module Options {

  datatype Option<+T> = None | Some(value: T)
}
