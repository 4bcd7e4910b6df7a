/** Sign-up and login: each ends by signing a token for the user, recording one
    new session for that token and answering the token with the user minus the
    password. The user service, the password check and the token signer are not
    part of this model: their answers are parameters. */
module AuthService {
  import opened Common
  import opened Documents
  import opened SessionSchema
  import opened SessionTable
  import opened SessionsService
  import opened JwtStrategy
  import UserSchema
  import opened Text

  /** The parts of the HTTP request the service reads. */
  datatype Request = Request(userAgent: Option<string>, ip: Option<string>, remoteAddress: Option<string>)

  /** What sign-up and login answer. */
  datatype AuthResponse = AuthResponse(token: string, user: Fields)

  /** JavaScript's `v || fallback` on an optional string: an absent or empty
      value gives the fallback. */
  function Or(v: Option<string>, fallback: string): (r: string)
    ensures v.Some? && v.value != "" ==> r == v.value
    ensures v.None? || v.value == "" ==> r == fallback
  {
    if v.Some? && v.value != "" then v.value else fallback
  }

  /** `req.headers['user-agent'] || 'Unknown'` */
  function DeviceOf(req: Request): (r: string)
    ensures r != ""
  {
    Or(req.userAgent, "Unknown")
  }

  /** `req.ip || req.socket.remoteAddress || 'Unknown'` */
  function AddressOf(req: Request): (r: string)
    ensures r != ""
    ensures req.ip.Some? && req.ip.value != "" ==> r == req.ip.value
    ensures (req.ip.None? || req.ip.value == "") && req.remoteAddress.Some? && req.remoteAddress.value != "" ==>
              r == req.remoteAddress.value
  {
    Or(req.ip, Or(req.remoteAddress, "Unknown"))
  }

  /** The claims `generateToken` signs: the user's email, and the user's id as subject. */
  function TokenPayload(user: UserSchema.User): Payload {
    Payload(user.email, IdString(user.id))
  }

  /** The subject of a token names the user it was issued to. */
  lemma TokenSubjectNamesUser(user: UserSchema.User)
    ensures ParseId(TokenPayload(user).sub) == Some(user.id)
    ensures TokenPayload(user).email == user.email
  {
    ParseIdString(user.id);
  }

  /** `user.toObject()` after `delete userObj.password`. */
  function PublicUser(user: UserSchema.User): (r: Fields)
    ensures "password" !in r
    ensures "email" in r && r["email"] == VText(user.email)
    ensures "_id" in r && r["_id"] == VId(user.id)
  {
    assert UserSchema.ProfileFields(user).Keys == {"phoneNumber", "countryCode", "companySize", "agreeToEula", "agreeToMarketing"};
    assert "email" in UserSchema.AccountFields(user) && "_id" in UserSchema.AccountFields(user);
    UserSchema.ToObject(user, false) - {"password"}
  }

  /** The session a successful sign-up or login records. */
  function IssuedSession(id: nat, user: UserSchema.User, token: string, req: Request, now: int, lifetime: nat): Session {
    Session(id, user.id, token, DeviceOf(req), AddressOf(req), now, now + lifetime, true, now, now)
  }

  class Service {
    const sessions: SessionStore

    constructor (sessions: SessionStore)
      ensures this.sessions == sessions
    {
      this.sessions := sessions;
    }

    /** The common tail of `signup` and `login`: sign, record the session, answer
        the token and the user without the password. A token the session schema
        refuses (an empty one), or an expiry beyond the range of a `Date`, fails
        the save and nothing is recorded. */
    method Issue(user: UserSchema.User, sign: Payload -> string, req: Request, now: int) returns (r: Result<AuthResponse>)
      requires sessions.Valid()
      modifies sessions
      ensures sessions.Valid()
      ensures var token := sign(TokenPayload(user));
              if token == "" || !InDateRange(now + sessions.Lifetime()) then
                r.Fail? && r.error.Invalid? && sessions.sessions == old(sessions.sessions)
              else
                && r == Ok(AuthResponse(token, PublicUser(user)))
                && sessions.sessions == old(sessions.sessions)
                     + [IssuedSession(old(sessions.nextId), user, token, req, now, sessions.Lifetime())]
    {
      var token := sign(TokenPayload(user));
      ghost var id := sessions.nextId;
      var created := sessions.CreateSession(user.id, token, DeviceOf(req), AddressOf(req), now);
      if created.Fail? {
        return Fail(created.error);
      }
      assert created.value == IssuedSession(id, user, token, req, now, sessions.Lifetime());
      var userObj := new PlainObject(UserSchema.ToObject(user, false));
      userObj.fields := userObj.fields - {"password"};
      r := Ok(AuthResponse(token, userObj.fields));
    }

    /** `signup`: the user service's answer to `create` (a stored user, or the
        error it raised) is passed in; an error ends the sign-up before any token
        is signed. */
    method Signup(created: Result<UserSchema.User>, sign: Payload -> string, req: Request, now: int)
      returns (r: Result<AuthResponse>)
      requires sessions.Valid()
      modifies sessions
      ensures sessions.Valid()
      ensures created.Fail? ==> r == Fail(created.error) && sessions.sessions == old(sessions.sessions)
      ensures created.Ok? && (sign(TokenPayload(created.value)) == "" || !InDateRange(now + sessions.Lifetime())) ==>
                r.Fail? && r.error.Invalid? && sessions.sessions == old(sessions.sessions)
      ensures created.Ok? && sign(TokenPayload(created.value)) != "" && InDateRange(now + sessions.Lifetime()) ==>
                && r == Ok(AuthResponse(sign(TokenPayload(created.value)), PublicUser(created.value)))
                && sessions.sessions == old(sessions.sessions)
                     + [IssuedSession(old(sessions.nextId), created.value, r.value.token, req, now, sessions.Lifetime())]
      ensures r.Ok? ==> "password" !in r.value.user
    {
      if created.Fail? {
        return Fail(created.error);
      }
      r := Issue(created.value, sign, req, now);
    }

    /** `login`: `found` is what the user service's lookup by email answered and
        `passwordValid` what its password check answered. A failed check answers
        "Invalid credentials" before any token is signed or session recorded; a
        passed check on no user fails when the missing user is read. */
    method Login(found: Option<UserSchema.User>, passwordValid: bool, sign: Payload -> string, req: Request, now: int)
      returns (r: Result<AuthResponse>)
      requires sessions.Valid()
      modifies sessions
      ensures sessions.Valid()
      ensures !passwordValid ==> r == Fail(Unauthorized("Invalid credentials"))
      ensures passwordValid && found.None? ==> r.Fail? && r.error.Internal?
      ensures !passwordValid || found.None? ==> sessions.sessions == old(sessions.sessions)
      ensures passwordValid && found.Some? && (sign(TokenPayload(found.value)) == "" || !InDateRange(now + sessions.Lifetime())) ==>
                r.Fail? && r.error.Invalid? && sessions.sessions == old(sessions.sessions)
      ensures passwordValid && found.Some? && sign(TokenPayload(found.value)) != "" && InDateRange(now + sessions.Lifetime()) ==>
                && r == Ok(AuthResponse(sign(TokenPayload(found.value)), PublicUser(found.value)))
                && sessions.sessions == old(sessions.sessions)
                     + [IssuedSession(old(sessions.nextId), found.value, r.value.token, req, now, sessions.Lifetime())]
      ensures r.Ok? ==> "password" !in r.value.user
    {
      if !passwordValid {
        return Fail(Unauthorized("Invalid credentials"));
      }
      if found.None? {
        return Fail(Internal("Cannot read properties of null"));
      }
      r := Issue(found.value, sign, req, now);
    }

    /** `validateToken`: true exactly when the signature verifies and a live
        session carries the token; an exception from either answers false. */
    method ValidateToken(token: string, verify: string -> Option<Payload>, now: int) returns (valid: bool)
      requires sessions.Valid()
      modifies sessions
      ensures sessions.Valid() && sessions.nextId == old(sessions.nextId)
      ensures valid <==> verify(token).Some? && FirstValid(old(sessions.sessions), token, now).Some?
      ensures !valid ==> sessions.sessions == old(sessions.sessions)
      ensures valid ==> var k := FirstValid(old(sessions.sessions), token, now).value;
                        sessions.sessions == Touch(old(sessions.sessions), old(sessions.sessions)[k].id, now)
    {
      if verify(token).None? {
        return false;
      }
      var session := sessions.ValidateSession(token, now);
      valid := session.Some?;
    }
  }

  /** A session recorded by sign-up or login, with a positive lifetime, makes its
      token validate until it expires, whatever sessions came before it; and the
      sessions that came before are left exactly as they were. */
  lemma IssuedTokenValidates(t: seq<Session>, id: nat, user: UserSchema.User, token: string, req: Request,
                             issuedAt: int, lifetime: nat, now: int)
    requires token != "" && issuedAt <= now < issuedAt + lifetime
    ensures FirstValid(t + [IssuedSession(id, user, token, req, issuedAt, lifetime)], token, now).Some?
    ensures (t + [IssuedSession(id, user, token, req, issuedAt, lifetime)])[..|t|] == t
  {
    var s := IssuedSession(id, user, token, req, issuedAt, lifetime);
    var u := t + [s];
    assert u[|t|] == s && IsValid(s, now);
  }
}
