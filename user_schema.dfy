/** The `User` record of the auth service: the setters that normalise input, the
    required fields and their defaults, the unique email index and the `toJSON`
    transform that hides the password. */
module UserSchema {
  import opened Common
  import opened Text
  import opened Documents
  import UniqueIndex

  /** A stored user. `password` holds whatever the user service stores there. */
  datatype User = User(
    id: nat,
    email: string,
    name: string,
    password: string,
    phoneNumber: string,
    countryCode: string,
    companySize: string,
    agreeToEula: bool,
    agreeToMarketing: bool,
    isEmailVerified: bool,
    createdAt: int,
    updatedAt: int)

  /** What the user service hands to the model; `None` is a field left out. */
  datatype UserInput = UserInput(
    email: Option<string>,
    name: Option<string>,
    password: Option<string>,
    phoneNumber: Option<string>,
    countryCode: Option<string>,
    companySize: Option<string>,
    agreeToEula: Option<bool>,
    agreeToMarketing: Option<bool>,
    isEmailVerified: Option<bool>)

  // ------------------------------------------------------------- setters

  /** The email setters, `trim` then `lowercase`. */
  function NormaliseEmail(email: string): string {
    ToLower(Trim(email))
  }

  /** A normalised email neither starts nor ends with white space and holds no
      capital `LowerChar` maps. */
  lemma NormalisedEmailShape(email: string)
    ensures var r := NormaliseEmail(email);
            && (r == [] || (!IsSpace(r[0]) && !IsSpace(r[|r| - 1])))
            && forall i :: 0 <= i < |r| ==> !IsCapital(r[i])
  {
    var t := Trim(email);
    var r := ToLower(t);
    TrimBounds(email);
    ToLowerNormalises(t);
    if t != [] {
      assert !IsSpace(r[0]) by {
        assert r[0] == LowerChar(t[0]);
        LowerCharKeepsSpace(t[0]);
      }
      assert !IsSpace(r[|r| - 1]) by {
        assert r[|r| - 1] == LowerChar(t[|t| - 1]);
        LowerCharKeepsSpace(t[|t| - 1]);
      }
    }
  }

  /** A normalised email is left as it is by normalising again. */
  lemma NormaliseEmailIdempotent(email: string)
    ensures NormaliseEmail(NormaliseEmail(email)) == NormaliseEmail(email)
  {
    var n := NormaliseEmail(email);
    NormalisedEmailShape(email);
    TrimOfTrimmed(n);
    ToLowerNormalises(Trim(email));
  }

  /** Emails that differ only in case or surrounding white space are stored alike. */
  lemma NormaliseEmailIgnoresCaseAndSpace(email: string)
    ensures NormaliseEmail(" " + email + " ") == NormaliseEmail(email)
    ensures NormaliseEmail(ToLower(email)) == NormaliseEmail(email)
  {
    assert Trim(" " + email + " ") == Trim(email) by {
      PaddingTrimmed(email);
    }
    assert NormaliseEmail(ToLower(email)) == NormaliseEmail(email) by {
      TrimOfLower(email);
    }
  }

  /** Capitals beyond ASCII are folded too: an email starting with the Latin-1
      capital E with acute accent is stored as the one starting with its small
      letter. */
  lemma AccentedCapitalsFolded(rest: string)
    requires rest != [] && !IsSpace(rest[|rest| - 1])
    requires forall i :: 0 <= i < |rest| ==> !IsCapital(rest[i])
    ensures NormaliseEmail(['\U{00C9}'] + rest) == NormaliseEmail(['\U{00E9}'] + rest) == ['\U{00E9}'] + rest
  {
    FoldedLocalPart('\U{00C9}', '\U{00E9}', rest);
    FoldedLocalPart('\U{00E9}', '\U{00E9}', rest);
  }

  /** An email that starts with a letter, ends without white space and holds no
      other capital is stored with just that letter lowercased. */
  lemma FoldedLocalPart(letter: char, small: char, rest: string)
    requires !IsSpace(letter) && LowerChar(letter) == small
    requires rest != [] && !IsSpace(rest[|rest| - 1])
    requires forall i :: 0 <= i < |rest| ==> !IsCapital(rest[i])
    ensures NormaliseEmail([letter] + rest) == [small] + rest
  {
    var s := [letter] + rest;
    TrimOfTrimmed(s);
    ToLowerAppend([letter], rest);
    ToLowerOfUncapitalised(rest);
    ToLowerOne(letter);
  }

  /** One space on either side is trimmed away with the rest. */
  lemma PaddingTrimmed(email: string)
    ensures Trim(" " + email + " ") == Trim(email)
  {
    assert TrimStart(" " + email + " ") == TrimStart(email + " ") by {
      assert " " + email + " " == [' '] + (email + " ");
      LeadingSpaceTrimmed(email + " ");
    }
    TrailingSpaceTrimmed(email);
  }

  lemma LeadingSpaceTrimmed(s: string)
    ensures TrimStart([' '] + s) == TrimStart(s)
  {
    assert ([' '] + s)[1..] == s;
  }

  lemma TrailingSpaceTrimmed(email: string)
    ensures TrimEnd(TrimStart(email + " ")) == TrimEnd(TrimStart(email))
  {
    var u := TrimStart(email);
    assert IsSpace(" "[0]);
    TrimStartAppend(email, " ");
    if TrimStart(email + " ") == u + " " {
      TrimEndAppend(u, " ");
    } else {
      assert TrimStart(email + " ") == [] && u == [];
    }
  }

  /** Leading white space is dropped in the same way whatever follows. */
  lemma {:induction false} TrimStartAppend(s: string, spaces: string)
    requires forall i :: 0 <= i < |spaces| ==> IsSpace(spaces[i])
    ensures TrimStart(s + spaces) == TrimStart(s) + spaces || (TrimStart(s) == [] && TrimStart(s + spaces) == [])
    decreases |s|
  {
    if s == [] {
      assert s + spaces == spaces;
      AllSpaceTrimsAway(spaces);
    } else if IsSpace(s[0]) {
      assert (s + spaces)[1..] == s[1..] + spaces;
      TrimStartAppend(s[1..], spaces);
    }
  }

  lemma {:induction false} AllSpaceTrimsAway(s: string)
    requires forall i :: 0 <= i < |s| ==> IsSpace(s[i])
    ensures TrimStart(s) == []
    decreases |s|
  {
    if s != [] {
      AllSpaceTrimsAway(s[1..]);
    }
  }

  /** Trailing white space is dropped together with the string's own. */
  lemma {:induction false} TrimEndAppend(s: string, spaces: string)
    requires forall i :: 0 <= i < |spaces| ==> IsSpace(spaces[i])
    ensures TrimEnd(s + spaces) == TrimEnd(s)
    decreases |spaces|
  {
    if spaces != [] {
      var w := s + spaces;
      assert w[..|w| - 1] == s + spaces[..|spaces| - 1];
      TrimEndAppend(s, spaces[..|spaces| - 1]);
    } else {
      assert s + spaces == s;
    }
  }

  /** Trimming and lowercasing commute. */
  lemma TrimOfLower(s: string)
    ensures ToLower(Trim(ToLower(s))) == ToLower(Trim(s))
  {
    calc {
      ToLower(Trim(ToLower(s)));
      ToLower(TrimEnd(TrimStart(ToLower(s))));
      { TrimStartOfLower(s); }
      ToLower(TrimEnd(ToLower(TrimStart(s))));
      { TrimEndOfLower(TrimStart(s)); }
      ToLower(ToLower(Trim(s)));
      { ToLowerNormalises(Trim(s)); }
      ToLower(Trim(s));
    }
  }

  lemma {:induction false} TrimStartOfLower(s: string)
    ensures TrimStart(ToLower(s)) == ToLower(TrimStart(s))
    decreases |s|
  {
    if s != [] {
      LowerCharKeepsSpace(s[0]);
      assert ToLower(s)[1..] == ToLower(s[1..]);
      TrimStartOfLower(s[1..]);
    }
  }

  lemma {:induction false} TrimEndOfLower(s: string)
    ensures TrimEnd(ToLower(s)) == ToLower(TrimEnd(s))
    decreases |s|
  {
    if s != [] {
      LowerCharKeepsSpace(s[|s| - 1]);
      assert ToLower(s)[..|s| - 1] == ToLower(s[..|s| - 1]);
      TrimEndOfLower(s[..|s| - 1]);
    }
  }

  /** An optional string through the `trim: true` setter. */
  function TrimmedText(v: Option<string>): Option<string> {
    if v.Some? then Some(Trim(v.value)) else None
  }

  /** An optional string through the email's trimming and lowercasing setters. */
  function NormalisedEmailText(v: Option<string>): Option<string> {
    if v.Some? then Some(NormaliseEmail(v.value)) else None
  }

  /** The document after the setters ran: email trimmed and lowercased, name,
      phone number and country code trimmed, the rest as given. */
  function Cast(input: UserInput): (r: UserInput)
    ensures r.email.Some? <==> input.email.Some?
    ensures r.email.Some? ==> r.email.value == NormaliseEmail(input.email.value)
    ensures r.name.Some? <==> input.name.Some?
    ensures r.name.Some? ==> r.name.value == Trim(input.name.value)
    ensures r.password == input.password && r.companySize == input.companySize
  {
    input.(
      email := NormalisedEmailText(input.email),
      name := TrimmedText(input.name),
      phoneNumber := TrimmedText(input.phoneNumber),
      countryCode := TrimmedText(input.countryCode))
  }

  // ---------------------------------------------------------- validation

  /** Mongoose's `required` on a string: present and not empty. */
  predicate Present(v: Option<string>) {
    v.Some? && v.value != ""
  }

  /** `required: true, minlength: 3` on a string already trimmed. */
  predicate NameAccepted(v: Option<string>) {
    Present(v) && Utf16Length(v.value) >= 3
  }

  /** The paths with a validator that can fail. */
  const USER_PATHS: set<string> := {"email", "name", "password", "phoneNumber", "countryCode", "companySize"}

  /** Whether the validator of `path` fails on a document whose setters ran. */
  predicate PathFails(c: UserInput, path: string) {
    if path == "email" then !Present(c.email)
    else if path == "name" then !NameAccepted(c.name)
    else if path == "password" then !Present(c.password)
    else if path == "phoneNumber" then !Present(c.phoneNumber)
    else if path == "countryCode" then !Present(c.countryCode)
    else if path == "companySize" then !Present(c.companySize)
    else false
  }

  /** The paths that fail validation after the setters ran. `agreeToEula` is
      required but defaults to false, so it never fails. */
  function UserErrors(input: UserInput): (r: set<string>)
    ensures r <= USER_PATHS
    ensures "email" in r <==> !Present(Cast(input).email)
    ensures "name" in r <==> !NameAccepted(Cast(input).name)
    ensures "password" in r <==> !Present(input.password)
    ensures "phoneNumber" in r <==> !Present(Cast(input).phoneNumber)
    ensures "countryCode" in r <==> !Present(Cast(input).countryCode)
    ensures "companySize" in r <==> !Present(input.companySize)
  {
    var c := Cast(input);
    var r := set path | path in USER_PATHS && PathFails(c, path);
    assert "email" in r <==> !Present(c.email) by { assert "email" in USER_PATHS; }
    assert "name" in r <==> !NameAccepted(c.name) by { assert "name" in USER_PATHS; }
    assert "password" in r <==> !Present(c.password) by { assert "password" in USER_PATHS; }
    assert "phoneNumber" in r <==> !Present(c.phoneNumber) by { assert "phoneNumber" in USER_PATHS; }
    assert "countryCode" in r <==> !Present(c.countryCode) by { assert "countryCode" in USER_PATHS; }
    assert "companySize" in r <==> !Present(c.companySize) by { assert "companySize" in USER_PATHS; }
    r
  }

  /** A boolean with a `false` default. */
  function OrFalse(v: Option<bool>): bool {
    v.Some? && v.value
  }

  /** Building and saving a user: setters, defaults, timestamps, then validation. */
  function NewUser(input: UserInput, id: nat, now: int): (r: Result<User>)
    ensures r.Fail? <==> UserErrors(input) != {}
    ensures r.Fail? ==> r.error == Invalid(UserErrors(input))
    ensures r.Ok? ==> && r.value.id == id && r.value.createdAt == now && r.value.updatedAt == now
                      && r.value.email == NormaliseEmail(input.email.value) && r.value.email != ""
                      && r.value.name == Trim(input.name.value) && Utf16Length(r.value.name) >= 3
                      && r.value.password == input.password.value
                      && r.value.phoneNumber == Trim(input.phoneNumber.value)
                      && r.value.countryCode == Trim(input.countryCode.value)
                      && r.value.companySize == input.companySize.value
    ensures r.Ok? ==> && r.value.agreeToEula == OrFalse(input.agreeToEula)
                      && r.value.agreeToMarketing == OrFalse(input.agreeToMarketing)
                      && r.value.isEmailVerified == OrFalse(input.isEmailVerified)
  {
    var errors := UserErrors(input);
    if errors != {} then Fail(Invalid(errors))
    else
      var c := Cast(input);
      Ok(User(id, c.email.value, c.name.value, c.password.value, c.phoneNumber.value,
              c.countryCode.value, c.companySize.value, OrFalse(c.agreeToEula),
              OrFalse(c.agreeToMarketing), OrFalse(c.isEmailVerified), now, now))
  }

  /** A name of fewer than three characters once trimmed is refused, however much
      white space surrounds it; so is a missing email, phone number or country code. */
  lemma ShortNameRejected(input: UserInput, id: nat, now: int)
    requires input.name.Some? && Utf16Length(Trim(input.name.value)) < 3
    ensures NewUser(input, id, now).Fail?
    ensures "name" in NewUser(input, id, now).error.paths
  {
  }

  /** Stored emails never differ from their own normal form. */
  lemma StoredEmailIsNormal(input: UserInput, id: nat, now: int)
    requires NewUser(input, id, now).Ok?
    ensures NormaliseEmail(NewUser(input, id, now).value.email) == NewUser(input, id, now).value.email
  {
    NormaliseEmailIdempotent(input.email.value);
  }

  // ------------------------------------------------------------ the index

  function EmailOf(u: User): string { u.email }

  /** `UserSchema.index({ email: 1 }, { unique: true })`: the users collection. */
  function InsertUser(users: seq<User>, u: User): (r: Result<seq<User>>)
    ensures r.Fail? <==> exists i :: 0 <= i < |users| && users[i].email == u.email
    ensures r.Fail? ==> r.error == DuplicateKey("email")
    ensures r.Ok? ==> r.value == users + [u]
  {
    UniqueIndex.Insert(users, EmailOf, "email", u)
  }

  /** The index keeps emails unique: two stored users never share one, so two
      emails equal up to case and surrounding space never both get in. */
  lemma InsertUserKeepsEmailsUnique(users: seq<User>, u: User)
    requires UniqueIndex.Unique(users, EmailOf)
    ensures InsertUser(users, u).Ok? ==> UniqueIndex.Unique(InsertUser(users, u).value, EmailOf)
  {
    UniqueIndex.InsertKeepsUnique(users, EmailOf, "email", u);
  }

  // ------------------------------------------------------------- toJSON

  /** The fields every user document has. */
  function AccountFields(u: User): Fields {
    map[
      "_id" := VId(u.id),
      "email" := VText(u.email),
      "name" := VText(u.name),
      "password" := VText(u.password),
      "isEmailVerified" := VBool(u.isEmailVerified),
      "createdAt" := VDate(u.createdAt),
      "updatedAt" := VDate(u.updatedAt),
      "__v" := VNumber(0)
    ]
  }

  /** The sign-up profile fields. */
  function ProfileFields(u: User): Fields {
    map[
      "phoneNumber" := VText(u.phoneNumber),
      "countryCode" := VText(u.countryCode),
      "companySize" := VText(u.companySize),
      "agreeToEula" := VBool(u.agreeToEula),
      "agreeToMarketing" := VBool(u.agreeToMarketing)
    ]
  }

  /** `toObject()` of a stored user, with the `id` virtual when asked for. */
  function ToObject(u: User, virtuals: bool): (r: Fields)
    ensures IdIsObjectId(r)
  {
    var base := AccountFields(u) + ProfileFields(u);
    if virtuals then base["id" := VText(IdString(u.id))] else base
  }

  /** The `toJSON.transform` of both user schemas as a function of what it
      receives: `id` becomes the string of `_id`; `_id`, `__v` and `password` go;
      every other field stays. */
  function UserJson(ret: Fields): (r: Fields)
    requires IdIsObjectId(ret)
    ensures "_id" !in r && "__v" !in r && "password" !in r
    ensures "id" in r <==> "_id" in ret
    ensures "_id" in ret ==> r["id"] == VText(IdString(ret["_id"].id))
    ensures forall k :: k in ret && k !in {"id", "_id", "__v", "password"} ==> k in r && r[k] == ret[k]
    ensures forall k :: k in r ==> k == "id" || k in ret
  {
    WithIdText(ret) - {"_id", "__v", "password"}
  }

  /** The transform as the source runs it: four in-place edits of `ret`. */
  method TransformUser(ret: PlainObject)
    requires IdIsObjectId(ret.fields)
    modifies ret
    ensures ret.fields == UserJson(old(ret.fields))
  {
    if "_id" in ret.fields {
      ret.fields := ret.fields["id" := VText(IdString(ret.fields["_id"].id))];
    } else {
      ret.fields := ret.fields - {"id"};
    }
    ret.fields := ret.fields - {"_id"};
    ret.fields := ret.fields - {"__v"};
    ret.fields := ret.fields - {"password"};
  }

  /** The keys of the object `toJSON` hands to the transform. */
  lemma ToObjectKeys(u: User)
    ensures ToObject(u, true).Keys ==
            ProfileFields(u).Keys + {"_id", "email", "name", "password", "isEmailVerified", "createdAt", "updatedAt", "__v", "id"}
  {
    assert AccountFields(u).Keys == {"_id", "email", "name", "password", "isEmailVerified", "createdAt", "updatedAt", "__v"};
  }

  /** A user as a client receives one: the string id, the profile fields and the
      account fields but the password and the version key. */
  lemma UserJsonHidesPassword(u: User)
    ensures UserJson(ToObject(u, true)).Keys == ToObject(u, true).Keys - {"_id", "__v", "password"}
    ensures UserJson(ToObject(u, true))["id"] == VText(IdString(u.id))
    ensures UserJson(ToObject(u, true))["email"] == VText(u.email)
  {
    JsonKeys(u);
    JsonIdAndEmail(u);
  }

  lemma JsonKeys(u: User)
    ensures UserJson(ToObject(u, true)).Keys == ToObject(u, true).Keys - {"_id", "__v", "password"}
  {
    var o := ToObject(u, true);
    var w := WithIdText(o);
    assert w.Keys == o.Keys by {
      assert w == o["id" := VText(IdString(u.id))];
    }
  }

  lemma JsonIdAndEmail(u: User)
    ensures UserJson(ToObject(u, true))["id"] == VText(IdString(u.id))
    ensures UserJson(ToObject(u, true))["email"] == VText(u.email)
  {
    var o := ToObject(u, true);
    assert o["_id"] == VId(u.id) && o["email"] == VText(u.email);
  }
}
