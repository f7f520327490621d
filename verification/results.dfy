/** Two-variant values shared by every async boundary of the cache engine.

    `Result` is the plain `{ type: "ok", value } | { type: "err", error }`
    object built by `ok`/`err`; `Option` stands for a JavaScript value that
    may be `null`/`undefined` (`hasValue`/`hasNoValue` become `Some?`/`None?`).
    `Fault` names the exceptions the code can throw as written. */
module Results {

  datatype Option<+T> = None | Some(value: T)

  datatype Result<+V, +E> = Ok(value: V) | Err(error: E)

  /** A `TypeError` the JavaScript runtime would throw. */
  datatype Fault =
    | UndefinedProperty   // reading a property of `undefined`
    | NotAFunction        // calling a method the object does not have
}
