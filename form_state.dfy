/** The error map each form keeps (`errors` in React state): property name
    to message, where an empty message shows nothing. */
module FormState {

  type Errors = map<string, string>

  /** `errors[key]` is truthy: a message is shown for that field. */
  predicate Shown(errors: Errors, key: string)
  {
    key in errors && errors[key] != ""
  }

  /** The error half of every `handleChange`/`handleInputChange`: when the
      edited field shows an error, its message becomes ''; nothing else in the
      map changes and no key is added. */
  function ClearError(errors: Errors, key: string): (r: Errors)
    ensures r.Keys == errors.Keys
    ensures !Shown(r, key)
    ensures forall k :: k in errors && k != key ==> r[k] == errors[k]
    ensures forall k :: Shown(r, k) <==> Shown(errors, k) && k != key
  {
    if Shown(errors, key) then errors[key := ""] else errors
  }

  /** The general error alone: `setErrors({ general: message })`. */
  function General(message: string): Errors
  {
    map["general" := message]
  }
}
