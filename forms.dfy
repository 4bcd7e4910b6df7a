/** What the three browser forms share: their state as a map from field names
    to values, how a change event writes it, how a field's error is cleared, and
    how the values read as JavaScript sees them in a check. */
module Forms {
  import opened Common
  import opened Text
  import opened Patterns

  /** A form field holds the text of an input or the state of a checkbox. */
  datatype FieldValue = Text(s: string) | Flag(b: bool)

  type FormData = map<string, FieldValue>

  /** The messages shown under the fields, by field name. */
  type Errors = map<string, string>

  /** A change event: the input's name, its type, its value and, for a checkbox, whether it is ticked. */
  datatype ChangeEvent = ChangeEvent(name: string, inputType: string, value: string, checked: bool)

  function Field(form: FormData, key: string): Option<FieldValue> {
    if key in form then Some(form[key]) else None
  }

  /** JavaScript truthiness of a field: absent, empty text and `false` are falsy. */
  predicate Truthy(v: Option<FieldValue>) {
    match v
    case None => false
    case Some(Text(s)) => s != ""
    case Some(Flag(b)) => b
  }

  /** The text a regular expression's `test` is run on. */
  function TestedText(v: Option<FieldValue>): string {
    match v
    case None => "undefined"
    case Some(Text(s)) => s
    case Some(Flag(b)) => if b then "true" else "false"
  }

  /** `field.length < n`: only text has a length (in UTF-16 code units); a boolean's is `undefined`, which is never below `n`. */
  predicate ShorterThan(v: Option<FieldValue>, n: nat) {
    v.Some? && v.value.Text? && Utf16Length(v.value.s) < n
  }

  /** The value a change event writes: the tick state of a checkbox, the text of anything else. */
  function EventValue(ev: ChangeEvent): FieldValue {
    if ev.inputType == "checkbox" then Flag(ev.checked) else Text(ev.value)
  }

  /** The form after a change event: only the named field changes, and it
      takes the event's value. */
  function Changed(form: FormData, ev: ChangeEvent): (r: FormData)
    ensures Field(r, ev.name) == Some(EventValue(ev))
    ensures forall k :: k != ev.name ==> Field(r, k) == Field(form, k)
  {
    form[ev.name := EventValue(ev)]
  }

  /** The errors after a change event: a message on the changed field is
      blanked, every other entry is kept. */
  function Cleared(errors: Errors, name: string): (r: Errors)
    ensures name in r ==> r[name] == ""
    ensures name in r <==> name in errors
    ensures forall k :: k != name ==> (k in r <==> k in errors) && (k in errors ==> r[k] == errors[k])
  {
    if name in errors && errors[name] != "" then errors[name := ""] else errors
  }

  /** Adds a message when there is one. */
  function Put(errors: Errors, key: string, message: Option<string>): Errors {
    if message.Some? then errors[key := message.value] else errors
  }

  /** `error.response?.data?.message || fallback`: the server's message when
      there is a non-empty one, the form's own otherwise. */
  function SubmitMessage(serverMessage: Option<string>, fallback: string): (r: string)
    ensures r == fallback || Some(r) == serverMessage
    ensures fallback != "" ==> r != ""
  {
    if serverMessage.Some? && serverMessage.value != "" then serverMessage.value else fallback
  }

  // ------------------------------------------------------- browser values

  /** ASCII white space in the HTML standard's sense: tab, line feed, form feed,
      carriage return and space. */
  predicate IsAsciiSpace(c: char) {
    c == '\t' || c == '\n' || c == '\U{000C}' || c == '\r' || c == ' '
  }

  predicate IsNewline(c: char) {
    c == '\n' || c == '\r'
  }

  /** The text with every line feed and carriage return taken out, the rest in order. */
  function StripNewlines(s: string): (r: string)
    ensures |r| <= |s|
    ensures forall i :: 0 <= i < |r| ==> !IsNewline(r[i])
    ensures (forall i :: 0 <= i < |s| ==> !IsNewline(s[i])) ==> r == s
    ensures s != [] && !IsNewline(s[0]) ==> r != [] && r[0] == s[0]
  {
    if s == [] then []
    else
      var rest := StripNewlines(s[1..]);
      if IsNewline(s[0]) then rest else [s[0]] + rest
  }

  /** Drops leading ASCII white space. */
  function StripLeadingAscii(s: string): (r: string)
    ensures |r| <= |s| && r == s[|s| - |r|..]
    ensures r == [] || !IsAsciiSpace(r[0])
    ensures s == [] || !IsAsciiSpace(s[0]) ==> r == s
  {
    if s != [] && IsAsciiSpace(s[0]) then
      var r := StripLeadingAscii(s[1..]);
      assert s[1..][|s| - 1 - |r|..] == s[|s| - |r|..];
      r
    else s
  }

  /** Drops trailing ASCII white space. */
  function StripTrailingAscii(s: string): (r: string)
    ensures |r| <= |s| && r == s[..|r|]
    ensures r == [] || !IsAsciiSpace(r[|r| - 1])
    ensures s == [] || !IsAsciiSpace(s[|s| - 1]) ==> r == s
  {
    if s != [] && IsAsciiSpace(s[|s| - 1]) then
      var r := StripTrailingAscii(s[..|s| - 1]);
      assert s[..|s| - 1][..|r|] == s[..|r|];
      r
    else s
  }

  /** The text a field shows in a text input, as React writes it: nothing for an
      absent value, the string of a boolean. */
  function InputText(v: Option<FieldValue>): string {
    match v
    case None => ""
    case Some(Text(s)) => s
    case Some(Flag(b)) => if b then "true" else "false"
  }

  /** The value the browser checks for a text or password input: its value
      sanitization takes out line breaks. */
  function TextInputValue(v: Option<FieldValue>): string {
    StripNewlines(InputText(v))
  }

  /** The value the browser checks for a `type="email"` input: line breaks taken
      out, then ASCII white space dropped at both ends. */
  function EmailInputValue(v: Option<FieldValue>): (r: string)
    ensures r == [] || (!IsAsciiSpace(r[0]) && !IsAsciiSpace(r[|r| - 1]))
    ensures forall i :: 0 <= i < |r| ==> !IsNewline(r[i])
    ensures |r| <= |InputText(v)|
  {
    var t := StripNewlines(InputText(v));
    var u := StripLeadingAscii(t);
    var r := StripTrailingAscii(u);
    assert forall i :: 0 <= i < |r| ==> r[i] == t[|t| - |u| + i];
    r
  }

  /** Text the user typed without line breaks or surrounding ASCII white space
      is checked as it is. */
  lemma EmailInputValueOfClean(s: string)
    requires forall i :: 0 <= i < |s| ==> !IsNewline(s[i])
    requires s == [] || (!IsAsciiSpace(s[0]) && !IsAsciiSpace(s[|s| - 1]))
    ensures EmailInputValue(Some(Text(s))) == s
  {
  }

  // -------------------------------------------------------------- checks

  /** An email must be present and pass `\S+@\S+\.\S+`; the two failures may carry different messages. */
  function EmailError(v: Option<FieldValue>, missing: string, invalid: string): (r: Option<string>)
    ensures r.None? <==> Truthy(v) && LooksLikeEmail(TestedText(v))
    ensures !Truthy(v) ==> r == Some(missing)
  {
    if !Truthy(v) then Some(missing)
    else if !LooksLikeEmail(TestedText(v)) then Some(invalid)
    else None
  }

  function RequiredError(v: Option<FieldValue>, missing: string): (r: Option<string>)
    ensures r.None? <==> Truthy(v)
  {
    if !Truthy(v) then Some(missing) else None
  }

  function MinLengthError(v: Option<FieldValue>, n: nat, missing: string, short: string): (r: Option<string>)
    ensures r.None? <==> Truthy(v) && !ShorterThan(v, n)
  {
    if !Truthy(v) then Some(missing)
    else if ShorterThan(v, n) then Some(short)
    else None
  }

  const PASSWORD_REQUIRED := "Password is required"
  const PASSWORD_TOO_SHORT := "Password must be at least 8 characters long"
  const PASSWORD_TOO_WEAK := "Password must contain at least one letter, one number, and one special character"

  /** The sign-up forms' password check: present, then eight UTF-16 code units
      or more, then the unanchored letter/digit/special pattern. Only the first
      failure is reported. */
  function PasswordError(v: Option<FieldValue>): (r: Option<string>)
    ensures r.None? <==> Truthy(v) && !ShorterThan(v, 8) && PasswordPatternUnanchored(TestedText(v))
    ensures r.Some? ==> r.value in {PASSWORD_REQUIRED, PASSWORD_TOO_SHORT, PASSWORD_TOO_WEAK}
  {
    if !Truthy(v) then Some(PASSWORD_REQUIRED)
    else if ShorterThan(v, 8) then Some(PASSWORD_TOO_SHORT)
    else if !PasswordPatternUnanchored(TestedText(v)) then Some(PASSWORD_TOO_WEAK)
    else None
  }

  /** A short password also fails the pattern, which needs eight characters in
      a row, but only the length is reported. */
  lemma ShortPasswordReportsLength(s: string)
    requires s != [] && Utf16Length(s) < 8
    ensures !PasswordPatternUnanchored(s)
    ensures PasswordError(Some(Text(s))) == Some(PASSWORD_TOO_SHORT)
  {
  }

  /** Every password the server's pattern admits passes the forms' check. */
  lemma ServerPasswordPassesForms(s: string)
    requires PasswordPattern(s)
    ensures PasswordError(Some(Text(s))) == None
  {
    PasswordPatternIff(s);
    Utf16LengthOfBmp(s);
    AnchoredImpliesUnanchored(s);
  }

  /** The converse fails: the forms pass a password the server refuses. */
  lemma FormsPassServerRefused()
    ensures PasswordError(Some(Text("Passw0rd! "))) == None
    ensures !PasswordPattern("Passw0rd! ")
  {
    var s := "Passw0rd! ";
    assert Utf16Length(s) >= 8 by {
      assert forall i :: 0 <= i < |s| ==> s[i] as int < 0x1_0000;
      Utf16LengthOfBmp(s);
    }
    assert PasswordPatternUnanchored(s) && !PasswordPattern(s) by {
      TrailingSpaceAcceptedOnlyUnanchored();
    }
  }
}
