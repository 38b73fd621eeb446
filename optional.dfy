/** A value that may be absent: the model's rendering of TypeScript's
    `T | null` and `T | undefined`. */
module Optional {
  datatype Option<T> = None | Some(value: T)
}
