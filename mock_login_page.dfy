/** The earlier sign-in page `src/pages/Login.jsx`, which only validates and navigates: no
    provider is called. */
module MockLoginPage {
  import opened Base
  import JsText
  import Forms

  datatype Field = Email | Password

  const Fields: set<Field> := {Email, Password}

  const PasswordTooShort: string := "Password must be at least 6 characters"

  /** The error `handleSubmit` records for one field, if any. */
  function FieldError(f: Field, email: string, password: string): Option<string>
  {
    match f
    case Email => Forms.EmailError(email)
    case Password =>
      if password == [] then Some(Forms.PasswordRequired)
      else if JsText.Utf16Length(password) < 6 then Some(PasswordTooShort)
      else None
  }

  /** The map `newErrors`. */
  function MockLoginErrors(email: string, password: string): map<Field, string>
  {
    map f | f in Fields && FieldError(f, email, password).Some? :: FieldError(f, email, password).value
  }

  /** The checks of `handleSubmit`, filling `newErrors` field by field. */
  method CollectErrors(email: string, password: string) returns (newErrors: map<Field, string>)
    ensures newErrors == MockLoginErrors(email, password)
  {
    newErrors := map[];
    if email == [] {
      newErrors := newErrors[Email := Forms.EmailRequired];
    } else if !JsText.EmailLike(email) {
      newErrors := newErrors[Email := Forms.EmailInvalid];
    }
    if password == [] {
      newErrors := newErrors[Password := Forms.PasswordRequired];
    } else if JsText.Utf16Length(password) < 6 {
      newErrors := newErrors[Password := PasswordTooShort];
    }
    assert newErrors.Keys == MockLoginErrors(email, password).Keys;
  }

  /** The form passes exactly when the email passes the test and the password has at least
      six UTF-16 code units; an empty password is "required", a short one "too short". */
  lemma MockLoginErrorsShape(email: string, password: string)
    ensures MockLoginErrors(email, password) == map[] <==>
              JsText.EmailLike(email) && JsText.Utf16Length(password) >= 6
    ensures password == [] ==> MockLoginErrors(email, password)[Password] == Forms.PasswordRequired
    ensures password != [] && JsText.Utf16Length(password) < 6 ==>
              MockLoginErrors(email, password)[Password] == PasswordTooShort
    ensures email == [] ==> MockLoginErrors(email, password)[Email] == Forms.EmailRequired
    ensures email != [] && !JsText.EmailLike(email) ==> MockLoginErrors(email, password)[Email] == Forms.EmailInvalid
  {
    var e := MockLoginErrors(email, password);
    if JsText.EmailLike(email) && JsText.Utf16Length(password) >= 6 {
      assert password != [];
      assert e.Keys == {};
    }
    if e == map[] {
      assert Email !in e && Password !in e;
    }
  }

  class MockLogin {
    var form: map<Field, string>
    var errors: map<Field, string>
    /** Where `navigate` sent the user, if anywhere. */
    var route: Option<string>

    ghost predicate Valid()
      reads this
    {
      form.Keys == Fields
    }

    constructor()
      ensures Valid() && form == map[Email := [], Password := []] && errors == map[] && route == None
    {
      form := map[Email := [], Password := []];
      errors := map[];
      route := None;
    }

    /** `handleChange`: set the one field and blank that field's error if shown. */
    method HandleChange(name: Field, value: string)
      requires Valid()
      modifies this
      ensures Valid()
      ensures form == old(form)[name := value]
      ensures errors == Forms.ClearError(old(errors), name)
      ensures route == old(route)
    {
      form := form[name := value];
      if Forms.Shown(errors, name) {
        errors := errors[name := []];
      }
    }

    /** `handleSubmit`: with errors the map replaces `errors`; without, go to /chat. */
    method HandleSubmit()
      requires Valid()
      modifies this
      ensures Valid() && form == old(form)
      ensures var e := MockLoginErrors(form[Email], form[Password]);
        (e != map[] ==> errors == e && route == old(route))
        && (e == map[] ==> errors == old(errors) && route == Some("/chat"))
    {
      var newErrors := CollectErrors(form[Email], form[Password]);
      if |newErrors.Keys| > 0 {
        errors := newErrors;
        return;
      }
      assert newErrors == map[];
      route := Some("/chat");
    }
  }
}
