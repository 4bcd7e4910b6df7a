/** The sign-up page: its password-strength meter, its validation of the form
    before submitting, and its handling of change events. */
module SignupPage {
  import opened Common
  import opened Text
  import opened Patterns
  import opened Forms

  // -------------------------------------------------------------- strength

  datatype Strength = Strength(score: nat, message: string, color: string)

  /** Not an ASCII letter or digit: `[^A-Za-z0-9]`. */
  predicate IsSymbol(c: char) {
    !IsLetter(c) && !IsDigit(c)
  }

  /** One point per criterion met: eight or more UTF-16 code units, an
      upper-case letter, a digit, a symbol, twelve or more code units. */
  function Score(password: string): (n: nat)
    ensures n <= 5
    ensures Utf16Length(password) >= 12 ==> n >= 2
  {
    (if Utf16Length(password) >= 8 then 1 else 0)
    + (if Has(password, IsUpper) then 1 else 0)
    + (if Has(password, IsDigit) then 1 else 0)
    + (if Has(password, IsSymbol) then 1 else 0)
    + (if Utf16Length(password) >= 12 then 1 else 0)
  }

  /** The meter's reading for a password. */
  function PasswordStrength(password: string): (r: Strength)
    ensures r.score <= 5
    ensures r.score == 5 <==> Utf16Length(password) >= 12 && Has(password, IsUpper) && Has(password, IsDigit) && Has(password, IsSymbol)
    ensures r.score == 0 <==> Utf16Length(password) < 8 && !Has(password, IsUpper) && !Has(password, IsDigit) && !Has(password, IsSymbol)
    ensures r.message == "Strong" <==> r.score >= 4
    ensures r.message in {"Very weak", "Weak", "Fair", "Good", "Strong"}
  {
    var score := Score(password);
    if score == 0 then Strength(score, "Very weak", "bg-red-500")
    else if score == 1 then Strength(score, "Weak", "bg-red-400")
    else if score == 2 then Strength(score, "Fair", "bg-yellow-500")
    else if score == 3 then Strength(score, "Good", "bg-green-400")
    else Strength(score, "Strong", "bg-green-500")
  }

  lemma {:induction false} Utf16LengthAppend(p: string, q: string)
    ensures Utf16Length(p + q) >= Utf16Length(p)
    decreases |q|
  {
    if q != [] {
      var init := q[..|q| - 1];
      assert (p + q)[..|p + q| - 1] == p + init;
      assert Utf16Length(p + q) >= Utf16Length(p + init);
      Utf16LengthAppend(p, init);
    } else {
      assert p + q == p;
    }
  }

  lemma HasAppend(p: string, q: string, x: char -> bool)
    requires Has(p, x)
    ensures Has(p + q, x)
  {
    var k :| 0 <= k < |p| && x(p[k]);
    assert (p + q)[k] == p[k];
  }

  /** Typing more never lowers the meter. */
  lemma StrengthGrows(p: string, q: string)
    ensures PasswordStrength(p + q).score >= PasswordStrength(p).score
  {
    Utf16LengthAppend(p, q);
    if Has(p, IsUpper) { HasAppend(p, q, IsUpper); }
    if Has(p, IsDigit) { HasAppend(p, q, IsDigit); }
    if Has(p, IsSymbol) { HasAppend(p, q, IsSymbol); }
  }

  /** A password the server admits scores at least "Good": it is long enough
      and holds a digit and a symbol. */
  lemma ServerPasswordIsGood(p: string)
    requires PasswordPattern(p)
    ensures PasswordStrength(p).score >= 3
  {
    PasswordPatternIff(p);
    Utf16LengthOfBmp(p);
    var k :| 0 <= k < |p| && IsSpecial(p[k]);
    assert IsSymbol(p[k]);
  }

  // -------------------------------------------------------------- validation

  const EMAIL_MESSAGE := "Enter a valid e-mail"
  const NAME_MESSAGE := "Full name should include your first and last names"
  const PHONE_MESSAGE := "Please enter a valid phone number"
  const EULA_MESSAGE := "You must agree to the EULA to continue"
  const SUBMIT_FALLBACK := "An error occurred during sign up"

  /** The messages `validateForm` records, field by field. */
  function FormErrors(form: FormData): Errors {
    var errors := Put(map[], "email", EmailError(Field(form, "email"), EMAIL_MESSAGE, EMAIL_MESSAGE));
    var errors := Put(errors, "name", MinLengthError(Field(form, "name"), 3, NAME_MESSAGE, NAME_MESSAGE));
    var errors := Put(errors, "password", PasswordError(Field(form, "password")));
    var errors := Put(errors, "phoneNumber", RequiredError(Field(form, "phoneNumber"), PHONE_MESSAGE));
    Put(errors, "agreeToEula", RequiredError(Field(form, "agreeToEula"), EULA_MESSAGE))
  }

  /** The page lets a form through exactly when the email looks like one, the
      name has three code units, the password passes, a phone number is given
      and the EULA box is ticked. */
  lemma FormAcceptedIff(form: FormData)
    ensures FormErrors(form) == map[] <==>
              && Truthy(Field(form, "email")) && LooksLikeEmail(TestedText(Field(form, "email")))
              && Truthy(Field(form, "name")) && !ShorterThan(Field(form, "name"), 3)
              && PasswordError(Field(form, "password")) == None
              && Truthy(Field(form, "phoneNumber"))
              && Truthy(Field(form, "agreeToEula"))
  {
    var errors := FormErrors(form);
    assert "email" in errors <==> EmailError(Field(form, "email"), EMAIL_MESSAGE, EMAIL_MESSAGE).Some?;
    assert "name" in errors <==> MinLengthError(Field(form, "name"), 3, NAME_MESSAGE, NAME_MESSAGE).Some?;
    assert "password" in errors <==> PasswordError(Field(form, "password")).Some?;
    assert "phoneNumber" in errors <==> RequiredError(Field(form, "phoneNumber"), PHONE_MESSAGE).Some?;
    assert "agreeToEula" in errors <==> RequiredError(Field(form, "agreeToEula"), EULA_MESSAGE).Some?;
  }

  /** Errors are only ever recorded on these five fields. */
  lemma ErrorsOnCheckedFields(form: FormData)
    ensures FormErrors(form).Keys <= {"email", "name", "password", "phoneNumber", "agreeToEula"}
  {
  }

  const INITIAL: FormData := map[
    "email" := Text(""), "name" := Text(""), "password" := Text(""), "phoneNumber" := Text(""),
    "countryCode" := Text("+20"), "companySize" := Text("1-99 employees"),
    "agreeToEula" := Flag(false), "agreeToMarketing" := Flag(false)]

  /** The blank form is refused on every checked field. */
  lemma InitialFormRefused()
    ensures FormErrors(INITIAL).Keys == {"email", "name", "password", "phoneNumber", "agreeToEula"}
  {
    assert Field(INITIAL, "email") == Some(Text(""));
    assert Field(INITIAL, "name") == Some(Text(""));
    assert Field(INITIAL, "password") == Some(Text(""));
    assert Field(INITIAL, "phoneNumber") == Some(Text(""));
    assert Field(INITIAL, "agreeToEula") == Some(Flag(false));
  }

  /** The checks of `validateForm`, field by field, in the order the page runs
      them; each records at most one message. */
  method CheckForm(form: FormData) returns (newErrors: Errors)
    ensures newErrors == FormErrors(form)
  {
    newErrors := map[];
    var email := Field(form, "email");
    newErrors :=
      if !Truthy(email) then newErrors["email" := EMAIL_MESSAGE]
      else if !LooksLikeEmail(TestedText(email)) then newErrors["email" := EMAIL_MESSAGE]
      else newErrors;
    assert newErrors == Put(map[], "email", EmailError(email, EMAIL_MESSAGE, EMAIL_MESSAGE));
    ghost var afterEmail := newErrors;
    var name := Field(form, "name");
    newErrors :=
      if !Truthy(name) then newErrors["name" := NAME_MESSAGE]
      else if ShorterThan(name, 3) then newErrors["name" := NAME_MESSAGE]
      else newErrors;
    assert newErrors == Put(afterEmail, "name", MinLengthError(name, 3, NAME_MESSAGE, NAME_MESSAGE));
    ghost var afterName := newErrors;
    var password := Field(form, "password");
    newErrors :=
      if !Truthy(password) then newErrors["password" := PASSWORD_REQUIRED]
      else if ShorterThan(password, 8) then newErrors["password" := PASSWORD_TOO_SHORT]
      else if !PasswordPatternUnanchored(TestedText(password)) then newErrors["password" := PASSWORD_TOO_WEAK]
      else newErrors;
    assert newErrors == Put(afterName, "password", PasswordError(password));
    ghost var afterPassword := newErrors;
    newErrors := if !Truthy(Field(form, "phoneNumber")) then newErrors["phoneNumber" := PHONE_MESSAGE] else newErrors;
    assert newErrors == Put(afterPassword, "phoneNumber", RequiredError(Field(form, "phoneNumber"), PHONE_MESSAGE));
    ghost var afterPhone := newErrors;
    newErrors := if !Truthy(Field(form, "agreeToEula")) then newErrors["agreeToEula" := EULA_MESSAGE] else newErrors;
    assert newErrors == Put(afterPhone, "agreeToEula", RequiredError(Field(form, "agreeToEula"), EULA_MESSAGE));
  }

  class Page {
    var form: FormData
    var errors: Errors
    var strength: Strength
    var isLoading: bool

    constructor ()
      ensures form == INITIAL && errors == map[] && strength == Strength(0, "", "bg-gray-200") && !isLoading
    {
      form := INITIAL;
      errors := map[];
      strength := Strength(0, "", "bg-gray-200");
      isLoading := false;
    }

    /** Records the form's errors, replacing the previous ones, and says whether there were none. */
    method ValidateForm() returns (ok: bool)
      modifies this
      ensures errors == FormErrors(form)
      ensures ok <==> errors == map[]
      ensures form == old(form) && strength == old(strength) && isLoading == old(isLoading)
    {
      var newErrors := CheckForm(form);
      errors := newErrors;
      ok := |newErrors.Keys| == 0;
      assert ok <==> newErrors == map[] by {
        if |newErrors.Keys| == 0 {
          assert newErrors.Keys == {};
        }
      }
    }

    /** Writes the event's value into its field, re-rates the password when that
        is the field, and blanks that field's message. */
    method HandleChange(ev: ChangeEvent)
      modifies this
      ensures form == Changed(old(form), ev)
      ensures strength == if ev.name == "password" then PasswordStrength(ev.value) else old(strength)
      ensures errors == Cleared(old(errors), ev.name)
      ensures isLoading == old(isLoading)
    {
      form := form[ev.name := if ev.inputType == "checkbox" then Flag(ev.checked) else Text(ev.value)];
      if ev.name == "password" {
        strength := PasswordStrength(ev.value);
      }
      if ev.name in errors && errors[ev.name] != "" {
        errors := errors[ev.name := ""];
      }
    }

    /** Submits only a valid form. `outcome` is how the sign-up request ended:
        `None` when it succeeded, `Some(m)` when it failed with the server's
        message `m`, if any. Returns whether the request was made. */
    method Submit(outcome: Option<Option<string>>) returns (requested: bool)
      modifies this
      ensures requested <==> FormErrors(old(form)) == map[]
      ensures form == old(form) && strength == old(strength)
      ensures !requested ==> errors == FormErrors(form) && isLoading == old(isLoading)
      ensures requested ==> !isLoading
      ensures requested && outcome.None? ==> errors == map[]
      ensures requested && outcome.Some? ==> errors == map["submit" := SubmitMessage(outcome.value, SUBMIT_FALLBACK)]
    {
      var valid := ValidateForm();
      if !valid {
        return false;
      }
      isLoading := true;
      if outcome.Some? {
        errors := map["submit" := SubmitMessage(outcome.value, SUBMIT_FALLBACK)];
      }
      isLoading := false;
      requested := true;
    }
  }
}
