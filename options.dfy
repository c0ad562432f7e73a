/** A value that may be missing: stands for a JavaScript state cell that may hold `null`. */
module Options {
  datatype Option<T> = None | Some(value: T)
}
