/** The older sign-up form component: the page's checks with messages of its
    own that tell a missing field from a malformed one, and no strength meter. */
module SignupComponent {
  import opened Common
  import opened Patterns
  import opened Forms

  const EMAIL_REQUIRED := "Email is required"
  const EMAIL_INVALID := "Please enter a valid email"
  const NAME_REQUIRED := "Name is required"
  const NAME_TOO_SHORT := "Name must be at least 3 characters long"
  const PHONE_REQUIRED := "Phone number is required"
  const EULA_MESSAGE := "You must agree to the EULA to continue"
  const SUBMIT_FALLBACK := "An error occurred during sign up"

  /** The messages `validateForm` records, field by field. */
  function FormErrors(form: FormData): Errors {
    var errors := Put(map[], "email", EmailError(Field(form, "email"), EMAIL_REQUIRED, EMAIL_INVALID));
    var errors := Put(errors, "name", MinLengthError(Field(form, "name"), 3, NAME_REQUIRED, NAME_TOO_SHORT));
    var errors := Put(errors, "password", PasswordError(Field(form, "password")));
    var errors := Put(errors, "phoneNumber", RequiredError(Field(form, "phoneNumber"), PHONE_REQUIRED));
    Put(errors, "agreeToEula", RequiredError(Field(form, "agreeToEula"), EULA_MESSAGE))
  }

  /** The component lets a form through exactly when the email looks like one,
      the name has three code units, the password passes, a phone number is
      given and the EULA box is ticked. */
  lemma FormAcceptedIff(form: FormData)
    ensures FormErrors(form) == map[] <==>
              && Truthy(Field(form, "email")) && LooksLikeEmail(TestedText(Field(form, "email")))
              && Truthy(Field(form, "name")) && !ShorterThan(Field(form, "name"), 3)
              && PasswordError(Field(form, "password")) == None
              && Truthy(Field(form, "phoneNumber"))
              && Truthy(Field(form, "agreeToEula"))
  {
    var errors := FormErrors(form);
    assert "email" in errors <==> EmailError(Field(form, "email"), EMAIL_REQUIRED, EMAIL_INVALID).Some?;
    assert "name" in errors <==> MinLengthError(Field(form, "name"), 3, NAME_REQUIRED, NAME_TOO_SHORT).Some?;
    assert "password" in errors <==> PasswordError(Field(form, "password")).Some?;
    assert "phoneNumber" in errors <==> RequiredError(Field(form, "phoneNumber"), PHONE_REQUIRED).Some?;
    assert "agreeToEula" in errors <==> RequiredError(Field(form, "agreeToEula"), EULA_MESSAGE).Some?;
  }

  /** An email that is present but malformed gets its own message, not the "required" one. */
  lemma MalformedEmailMessage(form: FormData)
    requires Truthy(Field(form, "email")) && !LooksLikeEmail(TestedText(Field(form, "email")))
    ensures "email" in FormErrors(form) && FormErrors(form)["email"] == EMAIL_INVALID
  {
  }

  /** The browser's constraint validation, which runs before the submit
      handler because the form does not set `noValidate`: the email, name and
      password inputs are `required`, so their values must be non-empty, and
      the email input's value must be a valid e-mail address. The phone number
      and the EULA box are not `required`. */
  predicate BrowserAllows(form: FormData) {
    var email := EmailInputValue(Field(form, "email"));
    && email != [] && ValidEmailAddress(email)
    && TextInputValue(Field(form, "name")) != []
    && TextInputValue(Field(form, "password")) != []
  }

  /** The email, name and password fields hold text, as the inputs' change events write them. */
  predicate TextFields(form: FormData) {
    forall key :: key in {"email", "name", "password"} && key in form ==> form[key].Text?
  }

  /** Past the browser, the component never reports a missing email, name or password. */
  lemma RequiredNeverReported(form: FormData)
    requires TextFields(form) && BrowserAllows(form)
    ensures Truthy(Field(form, "email")) && Truthy(Field(form, "name")) && Truthy(Field(form, "password"))
    ensures "email" in FormErrors(form) ==> FormErrors(form)["email"] == EMAIL_INVALID
    ensures "name" in FormErrors(form) ==> FormErrors(form)["name"] == NAME_TOO_SHORT
    ensures "password" in FormErrors(form) ==> FormErrors(form)["password"] != PASSWORD_REQUIRED
  {
    assert Truthy(Field(form, "email")) && Truthy(Field(form, "name")) && Truthy(Field(form, "password")) by {
      NonEmptyInputTruthy(form, "email");
      NonEmptyInputTruthy(form, "name");
      NonEmptyInputTruthy(form, "password");
    }
    PresentFieldsMessages(form);
  }

  /** With the email, name and password present, only their other messages can show. */
  lemma PresentFieldsMessages(form: FormData)
    requires Truthy(Field(form, "email")) && Truthy(Field(form, "name")) && Truthy(Field(form, "password"))
    ensures "email" in FormErrors(form) ==> FormErrors(form)["email"] == EMAIL_INVALID
    ensures "name" in FormErrors(form) ==> FormErrors(form)["name"] == NAME_TOO_SHORT
    ensures "password" in FormErrors(form) ==> FormErrors(form)["password"] != PASSWORD_REQUIRED
  {
    var errors := FormErrors(form);
    assert "email" in errors ==> Some(errors["email"]) == EmailError(Field(form, "email"), EMAIL_REQUIRED, EMAIL_INVALID);
    assert "name" in errors ==> Some(errors["name"]) == MinLengthError(Field(form, "name"), 3, NAME_REQUIRED, NAME_TOO_SHORT);
    assert "password" in errors ==> Some(errors["password"]) == PasswordError(Field(form, "password"));
  }

  lemma NonEmptyInputTruthy(form: FormData, key: string)
    requires key in form ==> form[key].Text?
    requires |InputText(Field(form, key))| > 0
    ensures Truthy(Field(form, key))
  {
  }

  const INITIAL: FormData := map[
    "email" := Text(""), "name" := Text(""), "password" := Text(""), "phoneNumber" := Text(""),
    "countryCode" := Text("+20"), "companySize" := Text("1-99 employees"),
    "agreeToEula" := Flag(false), "agreeToMarketing" := Flag(false)]

  /** The checks of `validateForm`, field by field, in the order the component
      runs them; each records at most one message. */
  method CheckForm(form: FormData) returns (newErrors: Errors)
    ensures newErrors == FormErrors(form)
  {
    newErrors := map[];
    var email := Field(form, "email");
    newErrors :=
      if !Truthy(email) then newErrors["email" := EMAIL_REQUIRED]
      else if !LooksLikeEmail(TestedText(email)) then newErrors["email" := EMAIL_INVALID]
      else newErrors;
    assert newErrors == Put(map[], "email", EmailError(email, EMAIL_REQUIRED, EMAIL_INVALID));
    ghost var afterEmail := newErrors;
    var name := Field(form, "name");
    newErrors :=
      if !Truthy(name) then newErrors["name" := NAME_REQUIRED]
      else if ShorterThan(name, 3) then newErrors["name" := NAME_TOO_SHORT]
      else newErrors;
    assert newErrors == Put(afterEmail, "name", MinLengthError(name, 3, NAME_REQUIRED, NAME_TOO_SHORT));
    ghost var afterName := newErrors;
    var password := Field(form, "password");
    newErrors :=
      if !Truthy(password) then newErrors["password" := PASSWORD_REQUIRED]
      else if ShorterThan(password, 8) then newErrors["password" := PASSWORD_TOO_SHORT]
      else if !PasswordPatternUnanchored(TestedText(password)) then newErrors["password" := PASSWORD_TOO_WEAK]
      else newErrors;
    assert newErrors == Put(afterName, "password", PasswordError(password));
    ghost var afterPassword := newErrors;
    newErrors := if !Truthy(Field(form, "phoneNumber")) then newErrors["phoneNumber" := PHONE_REQUIRED] else newErrors;
    assert newErrors == Put(afterPassword, "phoneNumber", RequiredError(Field(form, "phoneNumber"), PHONE_REQUIRED));
    ghost var afterPhone := newErrors;
    newErrors := if !Truthy(Field(form, "agreeToEula")) then newErrors["agreeToEula" := EULA_MESSAGE] else newErrors;
    assert newErrors == Put(afterPhone, "agreeToEula", RequiredError(Field(form, "agreeToEula"), EULA_MESSAGE));
  }

  class Component {
    var form: FormData
    var errors: Errors
    var isLoading: bool

    constructor ()
      ensures form == INITIAL && errors == map[] && !isLoading
    {
      form := INITIAL;
      errors := map[];
      isLoading := false;
    }

    /** Records the form's errors, replacing the previous ones, and says whether there were none. */
    method ValidateForm() returns (ok: bool)
      modifies this
      ensures errors == FormErrors(form)
      ensures ok <==> errors == map[]
      ensures form == old(form) && isLoading == old(isLoading)
    {
      var newErrors := CheckForm(form);
      errors := newErrors;
      ok := |newErrors.Keys| == 0;
      assert ok <==> newErrors == map[] by {
        if |newErrors.Keys| == 0 {
          assert newErrors.Keys == {};
        }
      }
    }

    /** Writes the event's value into its field and blanks that field's message. */
    method HandleChange(ev: ChangeEvent)
      modifies this
      ensures form == Changed(old(form), ev)
      ensures errors == Cleared(old(errors), ev.name)
      ensures isLoading == old(isLoading)
    {
      form := form[ev.name := if ev.inputType == "checkbox" then Flag(ev.checked) else Text(ev.value)];
      if ev.name in errors && errors[ev.name] != "" {
        errors := errors[ev.name := ""];
      }
    }

    /** Submits only a form that the browser lets through and that is valid.
        `outcome` is how the sign-up request ended: `None` when it succeeded,
        `Some(m)` when it failed with the server's message `m`, if any.
        Returns whether the request was made. */
    method Submit(outcome: Option<Option<string>>) returns (requested: bool)
      modifies this
      ensures requested <==> BrowserAllows(old(form)) && FormErrors(old(form)) == map[]
      ensures form == old(form)
      ensures !BrowserAllows(form) ==> errors == old(errors) && isLoading == old(isLoading)
      ensures BrowserAllows(form) && !requested ==> errors == FormErrors(form) && isLoading == old(isLoading)
      ensures requested ==> !isLoading
      ensures requested && outcome.None? ==> errors == map[]
      ensures requested && outcome.Some? ==> errors == map["submit" := SubmitMessage(outcome.value, SUBMIT_FALLBACK)]
    {
      if !BrowserAllows(form) {
        return false;
      }
      var valid := ValidateForm();
      if !valid {
        return false;
      }
      isLoading := true;
      if outcome.Some? {
        errors := map["submit" := SubmitMessage(outcome.value, SUBMIT_FALLBACK)];
      }
      isLoading := false;
      requested := true;
    }
  }
}
