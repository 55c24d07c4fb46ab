/** The sign-in page `Front/Frontend/src/pages/Login.jsx`: the validation of
    `handleSubmit` and the page state that the change handler and the three sign-in
    handlers (email and password, Google, guest) update. The authentication provider is an
    input: whether each call throws is a parameter. */
module LoginPage {
  import opened Base
  import JsText
  import Forms

  datatype Field = Email | Password

  const Fields: set<Field> := {Email, Password}

  const LoginFailed: string := "Failed to sign in. Please check your credentials."
  const GoogleFailed: string := "Failed to sign in with Google"
  const GuestFailed: string := "Failed to continue as guest. Please try again."

  /** The error `handleSubmit` records for one field, if any: the email rule, and a bare
      presence check on the password. */
  function FieldError(f: Field, email: string, password: string): Option<string>
  {
    match f
    case Email => Forms.EmailError(email)
    case Password => if password == [] then Some(Forms.PasswordRequired) else None
  }

  /** The map `newErrors`. */
  function LoginErrors(email: string, password: string): map<Field, string>
  {
    map f | f in Fields && FieldError(f, email, password).Some? :: FieldError(f, email, password).value
  }

  /** The checks of `handleSubmit`, filling `newErrors` field by field. */
  method CollectErrors(email: string, password: string) returns (newErrors: map<Field, string>)
    ensures newErrors == LoginErrors(email, password)
  {
    newErrors := map[];
    if email == [] {
      newErrors := newErrors[Email := Forms.EmailRequired];
    } else if !JsText.EmailLike(email) {
      newErrors := newErrors[Email := Forms.EmailInvalid];
    }
    if password == [] {
      newErrors := newErrors[Password := Forms.PasswordRequired];
    }
    assert newErrors.Keys == LoginErrors(email, password).Keys;
  }

  /** The form passes exactly when the email passes the test and a password was typed: no
      length or complexity rule applies here. */
  lemma LoginErrorsShape(email: string, password: string)
    ensures LoginErrors(email, password) == map[] <==> JsText.EmailLike(email) && password != []
    ensures email == [] ==> LoginErrors(email, password)[Email] == Forms.EmailRequired
    ensures email != [] && !JsText.EmailLike(email) ==> LoginErrors(email, password)[Email] == Forms.EmailInvalid
    ensures password == [] ==> LoginErrors(email, password)[Password] == Forms.PasswordRequired
    ensures password != [] ==> Password !in LoginErrors(email, password)
  {
    var e := LoginErrors(email, password);
    if JsText.EmailLike(email) && password != [] {
      assert e.Keys == {};
    }
    if e == map[] {
      assert Email !in e && Password !in e;
    }
  }

  /** A call to the authentication provider, with the value of `loading` while it ran. */
  datatype Call = EmailLogin(email: string, password: string, loading: bool)
                | GoogleSignIn(loading: bool)
                | GuestLogin(loading: bool)

  class Login {
    var form: map<Field, string>
    var errors: map<Field, string>
    var loading: bool
    var authError: string
    /** Where `navigate` sent the user, if anywhere. */
    var route: Option<string>
    /** The provider calls made, in order. */
    var calls: seq<Call>

    ghost predicate Valid()
      reads this
    {
      form.Keys == Fields
    }

    constructor()
      ensures Valid()
      ensures form == map[Email := [], Password := []]
      ensures errors == map[] && !loading && authError == [] && route == None && calls == []
    {
      form := map[Email := [], Password := []];
      errors := map[];
      loading := false;
      authError := [];
      route := None;
      calls := [];
    }

    /** `handleChange`: set the one field, blank that field's error if shown, clear the
        provider error. */
    method HandleChange(name: Field, value: string)
      requires Valid()
      modifies this
      ensures Valid()
      ensures form == old(form)[name := value]
      ensures errors == Forms.ClearError(old(errors), name)
      ensures authError == []
      ensures loading == old(loading) && route == old(route) && calls == old(calls)
    {
      form := form[name := value];
      if Forms.Shown(errors, name) {
        errors := errors[name := []];
      }
      authError := [];
    }

    /** The shape shared by the three provider handlers: loading is set for the call and
        cleared afterwards; success goes to /chat, failure shows the handler's one message
        whatever the cause. */
    method RunProvider(call: Call, fails: bool, message: string)
      requires Valid() && call.loading
      modifies this
      ensures Valid() && form == old(form) && errors == old(errors) && !loading
      ensures calls == old(calls) + [call]
      ensures fails ==> authError == message && route == old(route)
      ensures !fails ==> authError == old(authError) && route == Some("/chat")
    {
      loading := true;
      calls := calls + [call];
      if fails {
        authError := message;
      } else {
        route := Some("/chat");
      }
      loading := false;
    }

    /** `handleGoogleSignIn`; `fails` says whether `googleSignIn` throws. */
    method HandleGoogleSignIn(fails: bool)
      requires Valid()
      modifies this
      ensures Valid() && form == old(form) && errors == old(errors) && !loading
      ensures calls == old(calls) + [GoogleSignIn(true)]
      ensures fails ==> authError == GoogleFailed && route == old(route)
      ensures !fails ==> authError == old(authError) && route == Some("/chat")
    {
      RunProvider(GoogleSignIn(true), fails, GoogleFailed);
    }

    /** `handleGuestLogin`; `fails` says whether `loginAnonymously` throws. */
    method HandleGuestLogin(fails: bool)
      requires Valid()
      modifies this
      ensures Valid() && form == old(form) && errors == old(errors) && !loading
      ensures calls == old(calls) + [GuestLogin(true)]
      ensures fails ==> authError == GuestFailed && route == old(route)
      ensures !fails ==> authError == old(authError) && route == Some("/chat")
    {
      RunProvider(GuestLogin(true), fails, GuestFailed);
    }

    /** `handleSubmit`; `fails` says whether `login` throws. With errors, the map replaces
        `errors` and nothing else happens; without, `login` runs once with loading set, and
        any failure shows the same generic message. */
    method HandleSubmit(fails: bool)
      requires Valid()
      modifies this
      ensures Valid() && form == old(form)
      ensures var e := LoginErrors(form[Email], form[Password]);
        (e != map[] ==> errors == e && loading == old(loading) && authError == old(authError)
                        && route == old(route) && calls == old(calls))
        && (e == map[] ==>
              errors == old(errors) && !loading
              && calls == old(calls) + [EmailLogin(form[Email], form[Password], true)]
              && (fails ==> authError == LoginFailed && route == old(route))
              && (!fails ==> authError == old(authError) && route == Some("/chat")))
    {
      var newErrors := CollectErrors(form[Email], form[Password]);
      if |newErrors.Keys| > 0 {
        errors := newErrors;
        return;
      }
      assert newErrors == map[];
      RunProvider(EmailLogin(form[Email], form[Password], true), fails, LoginFailed);
    }
  }
}
