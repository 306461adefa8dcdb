/** Optional values and validation outcomes shared by both pages. */
module Outcomes {

  /** A value that may be absent: TypeScript's `T | undefined` or `T | null`. */
  datatype Option<+T> = None | Some(value: T)

  /** The outcome of validating a form: the typed values, or the field errors. */
  datatype Result<+T, +E> = Ok(value: T) | Err(error: E)

  /** JavaScript truthiness of a `string | null`: null and the empty string
      are falsy. onSubmit takes its update path exactly when `editId` is
      truthy. */
  predicate Truthy(s: Option<string>)
  {
    s.Some? && s.value != ""
  }
}
