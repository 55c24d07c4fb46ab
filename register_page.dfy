/** The sign-up page `Front/Frontend/src/pages/Register.jsx`: the password rules, the
    validation of `handleSubmit`, and the page state its handlers update. The
    authentication provider is an input: whether each call throws is a parameter. */
module RegisterPage {
  import opened Base
  import JsText
  import Forms

  datatype Field = Name | Email | Password | ConfirmPassword

  const Fields: set<Field> := {Name, Email, Password, ConfirmPassword}

  const TooShort: string := "Password must be at least 8 characters"
  const NoUpper: string := "Password must contain uppercase letter"
  const NoLower: string := "Password must contain lowercase letter"
  const NoNumber: string := "Password must contain number"
  const NoSpecial: string := "Password must contain special character"
  const NameRequired: string := "Name is required"
  const Mismatch: string := "Passwords do not match"
  const SignupFailed: string := "Failed to create account. Email may already be in use."
  const GuestFailed: string := "Failed to continue as guest. Please try again."

  // ---------------------------------------------------------------------------
  // validatePassword

  /** `validatePassword(password)`: the message of the first rule that fails, or null. */
  function ValidatePassword(password: string): Option<string>
  {
    if JsText.Utf16Length(password) < 8 then Some(TooShort)
    else if !JsText.HasUpper(password) then Some(NoUpper)
    else if !JsText.HasLower(password) then Some(NoLower)
    else if !JsText.HasDigit(password) then Some(NoNumber)
    else if !JsText.HasSpecial(password) then Some(NoSpecial)
    else None
  }

  /** At least eight UTF-16 code units, an upper-case and a lower-case ASCII letter, an
      ASCII digit, and a character that is none of these. */
  predicate Strong(password: string) {
    JsText.Utf16Length(password) >= 8 && JsText.HasUpper(password) && JsText.HasLower(password)
    && JsText.HasDigit(password) && JsText.HasSpecial(password)
  }

  /** The rules are tried in order, and each message is returned exactly when its rule is the
      first to fail; null is returned exactly for a strong password. */
  lemma ValidatePasswordFirstFailing(password: string)
    ensures ValidatePassword(password).None? <==> Strong(password)
    ensures ValidatePassword(password) == Some(TooShort) <==> JsText.Utf16Length(password) < 8
    ensures ValidatePassword(password) == Some(NoUpper) <==>
              JsText.Utf16Length(password) >= 8 && !JsText.HasUpper(password)
    ensures ValidatePassword(password) == Some(NoLower) <==>
              JsText.Utf16Length(password) >= 8 && JsText.HasUpper(password) && !JsText.HasLower(password)
    ensures ValidatePassword(password) == Some(NoNumber) <==>
              JsText.Utf16Length(password) >= 8 && JsText.HasUpper(password) && JsText.HasLower(password)
              && !JsText.HasDigit(password)
    ensures ValidatePassword(password) == Some(NoSpecial) <==>
              JsText.Utf16Length(password) >= 8 && JsText.HasUpper(password) && JsText.HasLower(password)
              && JsText.HasDigit(password) && !JsText.HasSpecial(password)
  {
  }

  /** A strong password is never empty, so the required-rule and the complexity rules agree. */
  lemma StrongNotEmpty(password: string)
    requires Strong(password)
    ensures password != []
  {
  }

  // ---------------------------------------------------------------------------
  // handleSubmit: the error map

  /** The error `handleSubmit` records for one field, if any. */
  function FieldError(f: Field, name: string, email: string, password: string, confirm: string): Option<string>
  {
    match f
    case Name => if name == [] then Some(NameRequired) else None
    case Email => Forms.EmailError(email)
    case Password => if password == [] then Some(Forms.PasswordRequired) else ValidatePassword(password)
    case ConfirmPassword => if password != confirm then Some(Mismatch) else None
  }

  /** The map `newErrors`: one entry per field whose rule fails. */
  function RegistrationErrors(name: string, email: string, password: string, confirm: string): map<Field, string>
  {
    map f | f in Fields && FieldError(f, name, email, password, confirm).Some?
          :: FieldError(f, name, email, password, confirm).value
  }

  /** `m` holds the errors of the fields in `fs` and nothing else. */
  ghost predicate ErrorsOf(m: map<Field, string>, fs: set<Field>,
                           name: string, email: string, password: string, confirm: string)
  {
    forall f :: (f in m <==> f in fs && FieldError(f, name, email, password, confirm).Some?)
                && (f in m ==> m[f] == FieldError(f, name, email, password, confirm).value)
  }

  lemma ErrorsOfAll(m: map<Field, string>, name: string, email: string, password: string, confirm: string)
    requires ErrorsOf(m, Fields, name, email, password, confirm)
    ensures m == RegistrationErrors(name, email, password, confirm)
  {
    assert m.Keys == RegistrationErrors(name, email, password, confirm).Keys;
  }

  /** The checks of `handleSubmit`, filling `newErrors` field by field. */
  method CollectErrors(name: string, email: string, password: string, confirm: string)
    returns (newErrors: map<Field, string>)
    ensures newErrors == RegistrationErrors(name, email, password, confirm)
  {
    newErrors := map[];
    if name == [] {
      newErrors := newErrors[Name := NameRequired];
    }
    assert ErrorsOf(newErrors, {Name}, name, email, password, confirm);
    if email == [] {
      newErrors := newErrors[Email := Forms.EmailRequired];
    } else if !JsText.EmailLike(email) {
      newErrors := newErrors[Email := Forms.EmailInvalid];
    }
    assert ErrorsOf(newErrors, {Name, Email}, name, email, password, confirm);
    if password == [] {
      newErrors := newErrors[Password := Forms.PasswordRequired];
    } else {
      var passwordError := ValidatePassword(password);
      if passwordError.Some? {
        newErrors := newErrors[Password := passwordError.value];
      }
    }
    assert ErrorsOf(newErrors, {Name, Email, Password}, name, email, password, confirm);
    if password != confirm {
      newErrors := newErrors[ConfirmPassword := Mismatch];
    }
    assert ErrorsOf(newErrors, Fields, name, email, password, confirm);
    ErrorsOfAll(newErrors, name, email, password, confirm);
  }

  /** The form passes exactly when the name is set, the email passes the test, the password
      is strong and the confirmation repeats it. The email entry is "required" for an empty
      email and "invalid" for one the test rejects; an empty password is only "required". */
  lemma RegistrationErrorsShape(name: string, email: string, password: string, confirm: string)
    ensures RegistrationErrors(name, email, password, confirm) == map[] <==>
              name != [] && JsText.EmailLike(email) && Strong(password) && password == confirm
    ensures email == [] ==> RegistrationErrors(name, email, password, confirm)[Email] == Forms.EmailRequired
    ensures email != [] && !JsText.EmailLike(email) ==>
              RegistrationErrors(name, email, password, confirm)[Email] == Forms.EmailInvalid
    ensures password == [] ==> RegistrationErrors(name, email, password, confirm)[Password] == Forms.PasswordRequired
    ensures password != confirm ==> RegistrationErrors(name, email, password, confirm)[ConfirmPassword] == Mismatch
  {
    var e := RegistrationErrors(name, email, password, confirm);
    ValidatePasswordFirstFailing(password);
    if name != [] && JsText.EmailLike(email) && Strong(password) && password == confirm {
      assert e.Keys == {};
    }
    if e == map[] {
      assert Name !in e && Email !in e && Password !in e && ConfirmPassword !in e;
    }
  }

  // ---------------------------------------------------------------------------
  // The page state

  /** A call to the authentication provider, with the value of `loading` while it ran. */
  datatype Call = Signup(email: string, password: string, name: string, loading: bool)
                | GuestLogin(loading: bool)

  class Register {
    var form: map<Field, string>
    var errors: map<Field, string>
    var loading: bool
    var authError: string
    /** Where `navigate` sent the user, if anywhere. */
    var route: Option<string>
    /** The provider calls made, in order. */
    var calls: seq<Call>

    ghost predicate Valid()
      reads this
    {
      form.Keys == Fields
    }

    constructor()
      ensures Valid()
      ensures form == map[Name := [], Email := [], Password := [], ConfirmPassword := []]
      ensures errors == map[] && !loading && authError == [] && route == None && calls == []
    {
      form := map[Name := [], Email := [], Password := [], ConfirmPassword := []];
      errors := map[];
      loading := false;
      authError := [];
      route := None;
      calls := [];
    }

    /** `handleChange`: set the one field, blank that field's error if shown, clear the
        provider error. */
    method HandleChange(name: Field, value: string)
      requires Valid()
      modifies this
      ensures Valid()
      ensures form == old(form)[name := value]
      ensures errors == Forms.ClearError(old(errors), name)
      ensures authError == []
      ensures loading == old(loading) && route == old(route) && calls == old(calls)
    {
      form := form[name := value];
      if Forms.Shown(errors, name) {
        errors := errors[name := []];
      }
      authError := [];
    }

    /** `handleSubmit`; `fails` says whether `signup` throws. With errors, the map replaces
        `errors` and nothing else happens. Without, `signup` runs once with loading set;
        success goes to /chat, failure shows the fixed message; loading ends false. */
    method HandleSubmit(fails: bool)
      requires Valid()
      modifies this
      ensures Valid() && form == old(form)
      ensures var e := RegistrationErrors(form[Name], form[Email], form[Password], form[ConfirmPassword]);
        (e != map[] ==> errors == e && loading == old(loading) && authError == old(authError)
                        && route == old(route) && calls == old(calls))
        && (e == map[] ==>
              errors == old(errors) && !loading
              && calls == old(calls) + [Signup(form[Email], form[Password], form[Name], true)]
              && (fails ==> authError == SignupFailed && route == old(route))
              && (!fails ==> authError == old(authError) && route == Some("/chat")))
    {
      var newErrors := CollectErrors(form[Name], form[Email], form[Password], form[ConfirmPassword]);
      if |newErrors.Keys| > 0 {
        errors := newErrors;
        return;
      }
      assert newErrors == map[];
      loading := true;
      calls := calls + [Signup(form[Email], form[Password], form[Name], loading)];
      if fails {
        authError := SignupFailed;
      } else {
        route := Some("/chat");
      }
      loading := false;
    }

    /** `handleGuestLogin`; `fails` says whether `loginAnonymously` throws. */
    method HandleGuestLogin(fails: bool)
      requires Valid()
      modifies this
      ensures Valid() && form == old(form) && errors == old(errors) && !loading
      ensures calls == old(calls) + [GuestLogin(true)]
      ensures fails ==> authError == GuestFailed && route == old(route)
      ensures !fails ==> authError == old(authError) && route == Some("/chat")
    {
      loading := true;
      calls := calls + [GuestLogin(loading)];
      if fails {
        authError := GuestFailed;
      } else {
        route := Some("/chat");
      }
      loading := false;
    }
  }
}
