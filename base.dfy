/** Small value types shared by every module of the model. */
module Base {

  /** A JavaScript value that may be absent (`undefined` / `null`). */
  datatype Option<+T> = None | Some(value: T)

  /** What an awaited network call settles to: fulfilled, or rejected with an
      error whose `message` is carried (the empty string when it has none). */
  datatype Outcome = Ok | Err(message: string)
}
