/** Small wrapper types shared by the controllers' models. */
module Common {

  /** A value that may be absent: JavaScript's `undefined` / `null`. */
  datatype Option<+T> = None | Some(value: T)

  /** The outcome of a step that may fail with an error of type E. */
  datatype Result<+R, +E> = Ok(value: R) | Err(error: E)

  /** JavaScript truthiness of an optional string: `undefined` and `""` are falsy. */
  predicate Truthy(s: Option<string>)
  {
    s.Some? && s.value != ""
  }
}
