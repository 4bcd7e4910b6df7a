/** The `Session` record: one signed-in device. Fields, defaults, required-field
    validation, automatic timestamps and the `toJSON` transform. */
module SessionSchema {
  import opened Common
  import opened Documents

  /** A stored session. Times are milliseconds; `id` and `userId` are ObjectIds. */
  datatype Session = Session(
    id: nat,
    userId: nat,
    token: string,
    userAgent: string,
    ipAddress: string,
    lastActivity: int,
    expiresAt: int,
    isActive: bool,
    createdAt: int,
    updatedAt: int)

  /** What a caller hands to `new sessionModel({...})`; `None` is a field left out. */
  datatype SessionInput = SessionInput(
    userId: Option<nat>,
    token: Option<string>,
    userAgent: Option<string>,
    ipAddress: Option<string>,
    lastActivity: Option<int>,
    expiresAt: Option<int>,
    isActive: Option<bool>)

  /** Mongoose's `required` check on a string: present and not the empty string. */
  predicate RequiredText(v: Option<string>) {
    v.Some? && v.value != ""
  }

  /** The largest distance from the epoch, in milliseconds, a JavaScript `Date`
      holds; `setTime` beyond it gives an Invalid Date. */
  const MAX_TIME: int := 8_640_000_000_000_000

  predicate InDateRange(t: int) {
    -MAX_TIME <= t <= MAX_TIME
  }

  /** The paths that fail validation: a `required` check, or the cast of a Date
      path, which fails on an Invalid Date. */
  function FailedPaths(input: SessionInput): (r: set<string>)
    ensures r <= {"userId", "token", "userAgent", "ipAddress", "expiresAt", "lastActivity"}
    ensures "userId" in r <==> input.userId.None?
    ensures "token" in r <==> !RequiredText(input.token)
    ensures "userAgent" in r <==> !RequiredText(input.userAgent)
    ensures "ipAddress" in r <==> !RequiredText(input.ipAddress)
    ensures "expiresAt" in r <==> input.expiresAt.None? || !InDateRange(input.expiresAt.value)
    ensures "lastActivity" in r <==> input.lastActivity.Some? && !InDateRange(input.lastActivity.value)
  {
    (if input.userId.None? then {"userId"} else {})
    + (if !RequiredText(input.token) then {"token"} else {})
    + (if !RequiredText(input.userAgent) then {"userAgent"} else {})
    + (if !RequiredText(input.ipAddress) then {"ipAddress"} else {})
    + (if input.expiresAt.None? || !InDateRange(input.expiresAt.value) then {"expiresAt"} else {})
    + (if input.lastActivity.Some? && !InDateRange(input.lastActivity.value) then {"lastActivity"} else {})
  }

  /** Building and saving a document: defaults applied (`lastActivity` = now,
      `isActive` = true), timestamps set, then validation. */
  function NewSession(input: SessionInput, id: nat, now: int): (r: Result<Session>)
    ensures r.Fail? <==> FailedPaths(input) != {}
    ensures r.Fail? ==> r.error == Invalid(FailedPaths(input))
    ensures r.Ok? ==> r.value.id == id && r.value.createdAt == now && r.value.updatedAt == now
    ensures r.Ok? ==> r.value.userId == input.userId.value && r.value.token == input.token.value
                      && r.value.userAgent == input.userAgent.value && r.value.ipAddress == input.ipAddress.value
                      && r.value.expiresAt == input.expiresAt.value
    ensures r.Ok? ==> r.value.lastActivity == (if input.lastActivity.Some? then input.lastActivity.value else now)
    ensures r.Ok? ==> r.value.isActive == (input.isActive.None? || input.isActive.value)
  {
    var missing := FailedPaths(input);
    if missing != {} then Fail(Invalid(missing))
    else
      Ok(Session(
        id,
        input.userId.value,
        input.token.value,
        input.userAgent.value,
        input.ipAddress.value,
        if input.lastActivity.Some? then input.lastActivity.value else now,
        input.expiresAt.value,
        if input.isActive.Some? then input.isActive.value else true,
        now,
        now))
  }

  /** A record missing any required field is rejected; a stored record's
      strings are never empty. */
  lemma RequiredFieldsEnforced(input: SessionInput, id: nat, now: int)
    ensures NewSession(input, id, now).Ok? ==>
              NewSession(input, id, now).value.token != "" &&
              NewSession(input, id, now).value.userAgent != "" &&
              NewSession(input, id, now).value.ipAddress != ""
    ensures input.token.None? || input.userId.None? || input.expiresAt.None? ==>
              NewSession(input, id, now).Fail?
  {
  }

  /** `toObject({virtuals: true})`: the stored fields, the version key and the `id` virtual. */
  function ToObject(s: Session): (r: Fields)
    ensures "_id" in r && IdIsObjectId(r)
  {
    map[
      "_id" := VId(s.id),
      "userId" := VId(s.userId),
      "token" := VText(s.token),
      "userAgent" := VText(s.userAgent),
      "ipAddress" := VText(s.ipAddress),
      "lastActivity" := VDate(s.lastActivity),
      "expiresAt" := VDate(s.expiresAt),
      "isActive" := VBool(s.isActive),
      "createdAt" := VDate(s.createdAt),
      "updatedAt" := VDate(s.updatedAt),
      "__v" := VNumber(0),
      "id" := VText(IdString(s.id))
    ]
  }

  /** The schema's `toJSON.transform` as a function of the object it receives:
      `id` becomes the string of `_id`, `_id` and `__v` are removed, and every other
      field is kept as it is. */
  function SessionJson(ret: Fields): (r: Fields)
    requires IdIsObjectId(ret)
    ensures "_id" !in r && "__v" !in r
    ensures "id" in r <==> "_id" in ret
    ensures "_id" in ret ==> r["id"] == VText(IdString(ret["_id"].id))
    ensures forall k :: k in ret && k != "id" && k != "_id" && k != "__v" ==> k in r && r[k] == ret[k]
    ensures forall k :: k in r ==> k == "id" || k in ret
  {
    WithIdText(ret) - {"_id", "__v"}
  }

  /** The transform as the source runs it: three in-place edits of `ret`. */
  method TransformSession(ret: PlainObject)
    requires IdIsObjectId(ret.fields)
    modifies ret
    ensures ret.fields == SessionJson(old(ret.fields))
  {
    if "_id" in ret.fields {
      ret.fields := ret.fields["id" := VText(IdString(ret.fields["_id"].id))];
    } else {
      ret.fields := ret.fields - {"id"};
    }
    ret.fields := ret.fields - {"_id"};
    ret.fields := ret.fields - {"__v"};
  }

  /** What a client receives for a session: the id as a string and every stored
      field, the bearer token included; no `_id` and no `__v`. */
  lemma SessionJsonShowsToken(s: Session)
    ensures SessionJson(ToObject(s)).Keys ==
            {"id", "userId", "token", "userAgent", "ipAddress", "lastActivity", "expiresAt",
             "isActive", "createdAt", "updatedAt"}
    ensures SessionJson(ToObject(s))["id"] == VText(IdString(s.id))
    ensures SessionJson(ToObject(s))["token"] == VText(s.token)
  {
    JsonKeys(s);
    JsonIdAndToken(s);
  }

  lemma JsonKeys(s: Session)
    ensures SessionJson(ToObject(s)).Keys ==
            {"id", "userId", "token", "userAgent", "ipAddress", "lastActivity", "expiresAt",
             "isActive", "createdAt", "updatedAt"}
  {
    var kept := {"userId", "token", "userAgent", "ipAddress", "lastActivity", "expiresAt",
                 "isActive", "createdAt", "updatedAt"};
    ObjectKeys(s);
    KeptKeys(ToObject(s), kept);
  }

  lemma JsonIdAndToken(s: Session)
    ensures SessionJson(ToObject(s))["id"] == VText(IdString(s.id))
    ensures SessionJson(ToObject(s))["token"] == VText(s.token)
  {
    ObjectToken(s);
  }

  lemma ObjectKeys(s: Session)
    ensures ToObject(s).Keys == {"userId", "token", "userAgent", "ipAddress", "lastActivity", "expiresAt",
                                 "isActive", "createdAt", "updatedAt"} + {"_id", "__v", "id"}
  {
  }

  lemma ObjectToken(s: Session)
    ensures ToObject(s)["token"] == VText(s.token) && ToObject(s)["_id"] == VId(s.id)
  {
  }

  lemma KeptKeys(o: Fields, kept: set<string>)
    requires IdIsObjectId(o)
    requires o.Keys == kept + {"_id", "__v", "id"}
    requires "id" !in kept && "_id" !in kept && "__v" !in kept
    ensures SessionJson(o).Keys == kept + {"id"}
  {
  }
}
