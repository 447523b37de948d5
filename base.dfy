/** Small value types shared by the backend controllers and the React client. */
module Base {

  /** A value that may be absent: a missing request field, a SQL NULL, a JavaScript null. */
  datatype Option<T> = None | Some(value: T)

  /** What an Express handler sends back: a status code with a body, or a status code
      with the `{ message }` object every handler uses for its errors. */
  datatype Response<T> = Ok(status: nat, body: T) | Error(status: nat, message: string)

  /** JavaScript truthiness of an optional string: `undefined`, `null` and `""` are falsy. */
  predicate Truthy(s: Option<string>)
  {
    s.Some? && s.value != ""
  }
}
