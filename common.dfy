/** Small shared vocabulary: an optional value stands for JavaScript's `null`/`undefined`. */
module Common {
  datatype Option<T> = None | Some(value: T)
}
