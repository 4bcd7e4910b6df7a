/** The login form: an email that looks like one and any non-empty password. */
module LoginComponent {
  import opened Common
  import opened Patterns
  import opened Forms

  const EMAIL_MESSAGE := "Enter a valid e-mail"
  const SUBMIT_FALLBACK := "Invalid credentials"

  /** The messages `validateForm` records, field by field. */
  function FormErrors(form: FormData): Errors {
    var errors := Put(map[], "email", EmailError(Field(form, "email"), EMAIL_MESSAGE, EMAIL_MESSAGE));
    Put(errors, "password", RequiredError(Field(form, "password"), PASSWORD_REQUIRED))
  }

  /** The form goes through exactly when the email looks like one and a
      password is given; the password's length and content are not looked at. */
  lemma FormAcceptedIff(form: FormData)
    ensures FormErrors(form) == map[] <==>
              && Truthy(Field(form, "email")) && LooksLikeEmail(TestedText(Field(form, "email")))
              && Truthy(Field(form, "password"))
  {
    var errors := FormErrors(form);
    assert "email" in errors <==> EmailError(Field(form, "email"), EMAIL_MESSAGE, EMAIL_MESSAGE).Some?;
    assert "password" in errors <==> RequiredError(Field(form, "password"), PASSWORD_REQUIRED).Some?;
  }

  /** Any password of one character or more is enough, where the sign-up forms would refuse it. */
  lemma ShortPasswordLetThrough(form: FormData)
    requires Field(form, "email") == Some(Text("user@example.com"))
    requires Field(form, "password") == Some(Text("x"))
    ensures FormErrors(form) == map[]
    ensures PasswordError(Field(form, "password")).Some?
  {
    assert LooksLikeEmail("user@example.com") by {
      EmailAccepted();
    }
    FormAcceptedIff(form);
  }

  const INITIAL: FormData := map["email" := Text(""), "password" := Text(""), "rememberMe" := Flag(false)]

  class Login {
    var form: FormData
    var errors: Errors
    var isLoading: bool

    constructor ()
      ensures form == INITIAL && errors == map[] && !isLoading
    {
      form := INITIAL;
      errors := map[];
      isLoading := false;
    }

    /** Records the form's errors, replacing the previous ones, and says whether there were none. */
    method ValidateForm() returns (ok: bool)
      modifies this
      ensures errors == FormErrors(form)
      ensures ok <==> errors == map[]
      ensures form == old(form) && isLoading == old(isLoading)
    {
      var newErrors: Errors := map[];
      var email := Field(form, "email");
      if !Truthy(email) {
        newErrors := newErrors["email" := EMAIL_MESSAGE];
      } else if !LooksLikeEmail(TestedText(email)) {
        newErrors := newErrors["email" := EMAIL_MESSAGE];
      }
      assert newErrors == Put(map[], "email", EmailError(email, EMAIL_MESSAGE, EMAIL_MESSAGE));
      if !Truthy(Field(form, "password")) {
        newErrors := newErrors["password" := PASSWORD_REQUIRED];
      }
      errors := newErrors;
      ok := |newErrors.Keys| == 0;
      assert ok <==> newErrors == map[] by {
        if |newErrors.Keys| == 0 {
          assert newErrors.Keys == {};
        }
      }
    }

    /** Writes the event's value into its field and blanks that field's message. */
    method HandleChange(ev: ChangeEvent)
      modifies this
      ensures form == Changed(old(form), ev)
      ensures errors == Cleared(old(errors), ev.name)
      ensures isLoading == old(isLoading)
    {
      form := form[ev.name := if ev.inputType == "checkbox" then Flag(ev.checked) else Text(ev.value)];
      if ev.name in errors && errors[ev.name] != "" {
        errors := errors[ev.name := ""];
      }
    }

    /** Submits only a valid form. `outcome` is how the login request ended:
        `None` when it succeeded, `Some(m)` when it failed with the server's
        message `m`, if any. Returns whether the request was made. */
    method Submit(outcome: Option<Option<string>>) returns (requested: bool)
      modifies this
      ensures requested <==> FormErrors(old(form)) == map[]
      ensures form == old(form)
      ensures !requested ==> errors == FormErrors(form) && isLoading == old(isLoading)
      ensures requested ==> !isLoading
      ensures requested && outcome.None? ==> errors == map[]
      ensures requested && outcome.Some? ==> errors == map["submit" := SubmitMessage(outcome.value, SUBMIT_FALLBACK)]
    {
      var valid := ValidateForm();
      if !valid {
        return false;
      }
      isLoading := true;
      if outcome.Some? {
        errors := map["submit" := SubmitMessage(outcome.value, SUBMIT_FALLBACK)];
      }
      isLoading := false;
      requested := true;
    }
  }
}
