/** The reduced `User` record of the users module: email, name, password and the
    verification flag. Its setters and its `toJSON` transform are the same as
    those of the full record, and its email field is declared unique. */
module UsersUserSchema {
  import opened Common
  import opened Text
  import opened Documents
  import UserSchema
  import UniqueIndex

  datatype User = User(
    id: nat,
    email: string,
    name: string,
    password: string,
    isEmailVerified: bool,
    createdAt: int,
    updatedAt: int)

  datatype UserInput = UserInput(
    email: Option<string>,
    name: Option<string>,
    password: Option<string>,
    isEmailVerified: Option<bool>)

  /** The paths that fail validation once the email is trimmed and lowercased
      and the name trimmed. */
  function UserErrors(input: UserInput): (r: set<string>)
    ensures r <= {"email", "name", "password"}
    ensures "email" in r <==> !(input.email.Some? && UserSchema.NormaliseEmail(input.email.value) != "")
    ensures "name" in r <==> !(input.name.Some? && Trim(input.name.value) != "" && Utf16Length(Trim(input.name.value)) >= 3)
    ensures "password" in r <==> !(input.password.Some? && input.password.value != "")
  {
    EmailCheck(input.email);
    NameCheck(input.name);
    Failing(
      !UserSchema.Present(UserSchema.NormalisedEmailText(input.email)),
      !UserSchema.NameAccepted(UserSchema.TrimmedText(input.name)),
      !UserSchema.Present(input.password))
  }

  /** The set of failing paths, from whether each validator failed. */
  function Failing(email: bool, name: bool, password: bool): (r: set<string>)
    ensures r <= {"email", "name", "password"}
    ensures "email" in r <==> email
    ensures "name" in r <==> name
    ensures "password" in r <==> password
  {
    (if email then {"email"} else {}) + (if name then {"name"} else {}) + (if password then {"password"} else {})
  }

  /** The email validator on the normalised email, in terms of the email as given. */
  lemma EmailCheck(email: Option<string>)
    ensures UserSchema.Present(UserSchema.NormalisedEmailText(email)) <==>
              email.Some? && UserSchema.NormaliseEmail(email.value) != ""
  {
  }

  /** The name validator on the trimmed name, in terms of the name as given. */
  lemma NameCheck(name: Option<string>)
    ensures UserSchema.NameAccepted(UserSchema.TrimmedText(name)) <==>
              name.Some? && Trim(name.value) != "" && Utf16Length(Trim(name.value)) >= 3
  {
  }

  /** Building and saving a user: setters, the `false` default, timestamps, validation. */
  function NewUser(input: UserInput, id: nat, now: int): (r: Result<User>)
    ensures r.Fail? <==> UserErrors(input) != {}
    ensures r.Fail? ==> r.error == Invalid(UserErrors(input))
    ensures r.Ok? ==> && r.value.id == id && r.value.createdAt == now && r.value.updatedAt == now
                      && r.value.email == UserSchema.NormaliseEmail(input.email.value)
                      && r.value.name == Trim(input.name.value) && Utf16Length(r.value.name) >= 3
                      && r.value.password == input.password.value
                      && r.value.isEmailVerified == UserSchema.OrFalse(input.isEmailVerified)
  {
    var errors := UserErrors(input);
    if errors != {} then Fail(Invalid(errors))
    else
      Ok(User(id, UserSchema.NormaliseEmail(input.email.value), Trim(input.name.value),
              input.password.value, UserSchema.OrFalse(input.isEmailVerified), now, now))
  }

  /** A missing password is refused; an unverified email is the default. */
  lemma PasswordRequiredAndUnverifiedByDefault(input: UserInput, id: nat, now: int)
    ensures input.password.None? ==> NewUser(input, id, now).Fail?
    ensures NewUser(input, id, now).Ok? && input.isEmailVerified.None? ==> !NewUser(input, id, now).value.isEmailVerified
  {
  }

  function EmailOf(u: User): string { u.email }

  /** `unique: true` on the email, through the shared index: once a user is
      stored, a second sign-up whose email reads the same after the setters
      (however its case and surrounding white space differ) is refused. */
  lemma SecondEqualEmailRefused(users: seq<User>, a: UserInput, b: UserInput, idA: nat, idB: nat, now: int)
    requires NewUser(a, idA, now).Ok? && NewUser(b, idB, now).Ok?
    requires UserSchema.NormaliseEmail(a.email.value) == UserSchema.NormaliseEmail(b.email.value)
    requires UniqueIndex.Insert(users, EmailOf, "email", NewUser(a, idA, now).value).Ok?
    ensures UniqueIndex.Insert(UniqueIndex.Insert(users, EmailOf, "email", NewUser(a, idA, now).value).value,
                               EmailOf, "email", NewUser(b, idB, now).value) == Fail(DuplicateKey("email"))
  {
    var u := NewUser(a, idA, now).value;
    var stored := UniqueIndex.Insert(users, EmailOf, "email", u).value;
    assert stored[|users|] == u;
    assert UniqueIndex.Taken(stored, EmailOf, EmailOf(NewUser(b, idB, now).value));
  }

  /** `toObject()` of a stored user, with the `id` virtual when asked for. */
  function ToObject(u: User, virtuals: bool): (r: Fields)
    ensures IdIsObjectId(r)
  {
    var base := map[
      "_id" := VId(u.id),
      "email" := VText(u.email),
      "name" := VText(u.name),
      "password" := VText(u.password),
      "isEmailVerified" := VBool(u.isEmailVerified),
      "createdAt" := VDate(u.createdAt),
      "updatedAt" := VDate(u.updatedAt),
      "__v" := VNumber(0)
    ];
    if virtuals then base["id" := VText(IdString(u.id))] else base
  }

  /** A user as a client receives one: the id as a string, the email, the name,
      the flag and the timestamps; never the password. */
  lemma UserJsonHidesPassword(u: User)
    ensures UserSchema.UserJson(ToObject(u, true)).Keys ==
            {"id", "email", "name", "isEmailVerified", "createdAt", "updatedAt"}
    ensures UserSchema.UserJson(ToObject(u, true))["id"] == VText(IdString(u.id))
    ensures UserSchema.UserJson(ToObject(u, true))["name"] == VText(u.name)
  {
    JsonKeys(u);
    JsonIdAndName(u);
  }

  lemma JsonKeys(u: User)
    ensures UserSchema.UserJson(ToObject(u, true)).Keys ==
            {"id", "email", "name", "isEmailVerified", "createdAt", "updatedAt"}
  {
    var o := ToObject(u, true);
    var w := WithIdText(o);
    assert w.Keys == o.Keys by {
      assert w == o["id" := VText(IdString(u.id))];
    }
    assert UserSchema.UserJson(o).Keys == o.Keys - {"_id", "__v", "password"};
    ObjectKeys(u);
    KeptKeys();
  }

  lemma ObjectKeys(u: User)
    ensures ToObject(u, true).Keys == {"_id", "email", "name", "password", "isEmailVerified", "createdAt", "updatedAt", "__v", "id"}
  {
  }

  lemma KeptKeys()
    ensures {"_id", "email", "name", "password", "isEmailVerified", "createdAt", "updatedAt", "__v", "id"} - {"_id", "__v", "password"}
            == {"id", "email", "name", "isEmailVerified", "createdAt", "updatedAt"}
  {
  }

  lemma JsonIdAndName(u: User)
    ensures UserSchema.UserJson(ToObject(u, true))["id"] == VText(IdString(u.id))
    ensures UserSchema.UserJson(ToObject(u, true))["name"] == VText(u.name)
  {
    var o := ToObject(u, true);
    assert o["_id"] == VId(u.id) && o["name"] == VText(u.name);
  }
}
