/** What the three sign-in pages share: a form kept as one string per field, an error map
    keyed by field, the `handleChange` rule for it, and the email rule of `handleSubmit`. */
module Forms {
  import opened Base
  import JsText

  const EmailRequired: string := "Email is required"
  const EmailInvalid: string := "Email is invalid"
  const PasswordRequired: string := "Password is required"

  /** The email rule of every `handleSubmit`: an empty email is required, otherwise one the
      unanchored test `/\S+@\S+\.\S+/` rejects is invalid. */
  function EmailError(email: string): (r: Option<string>)
    ensures r.None? <==> JsText.EmailLike(email)
    ensures r == Some(EmailRequired) <==> email == []
    ensures r == Some(EmailInvalid) <==> email != [] && !JsText.EmailLike(email)
  {
    if email == [] then Some(EmailRequired)
    else if !JsText.EmailLike(email) then Some(EmailInvalid)
    else None
  }

  /** An error is shown for `f`: the map holds a non-empty (truthy) message for it. */
  predicate Shown<F>(errors: map<F, string>, f: F) {
    f in errors && errors[f] != []
  }

  /** `if (errors[name]) setErrors(prev => ({ ...prev, [name]: '' }))`: a shown error of the
      changed field is blanked; every other entry, and the set of keys, stays. */
  function ClearError<F>(errors: map<F, string>, name: F): (r: map<F, string>)
    ensures r.Keys == errors.Keys
    ensures !Shown(r, name)
    ensures forall f :: f in errors && f != name ==> r[f] == errors[f]
  {
    if Shown(errors, name) then errors[name := []] else errors
  }
}
