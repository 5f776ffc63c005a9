/** Small shared wrapper types. */
module Common {

  /** A value that may be absent (a null reference in the game code). */
  datatype Option<T> = None | Some(value: T)
}
