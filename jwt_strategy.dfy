/** The request gate: a bearer token is taken from the Authorization header, its
    signature is checked, and `validate` then demands a known user and a live
    session for that very token, refreshing the session's last use. */
module JwtStrategy {
  import opened Common
  import opened Text
  import opened SessionSchema
  import opened SessionTable
  import opened SessionsService

  /** The claims a token carries: the user's email and, as subject, the user's id. */
  datatype Payload = Payload(email: string, sub: string)

  // ------------------------------------------- the Authorization header

  /** The first position at or after `i` that is not white space. */
  function SkipSpaces(s: string, i: nat): (r: nat)
    requires i <= |s|
    ensures i <= r <= |s|
    ensures forall k :: i <= k < r ==> IsSpace(s[k])
    ensures r < |s| ==> !IsSpace(s[r])
    decreases |s| - i
  {
    if i < |s| && IsSpace(s[i]) then SkipSpaces(s, i + 1) else i
  }

  /** The first position at or after `i` that is white space. */
  function RunEnd(s: string, i: nat): (r: nat)
    requires i <= |s|
    ensures i <= r <= |s|
    ensures forall k :: i <= k < r ==> !IsSpace(s[k])
    ensures r < |s| ==> IsSpace(s[r])
    decreases |s| - i
  {
    if i < |s| && !IsSpace(s[i]) then RunEnd(s, i + 1) else i
  }

  /** `ExtractJwt.fromAuthHeaderAsBearerToken()`: the header is matched against
      `(\S+)\s+(\S+)`, which finds its first two runs of non-space characters;
      when the first, lowercased, is "bearer", the second is the token. */
  function FromAuthHeaderAsBearerToken(authorization: Option<string>): (r: Option<string>)
    ensures r.Some? ==> r.value != [] && forall k :: 0 <= k < |r.value| ==> !IsSpace(r.value[k])
  {
    if authorization.None? then None
    else
      var h := authorization.value;
      var a := SkipSpaces(h, 0);
      var b := RunEnd(h, a);
      var c := SkipSpaces(h, b);
      var d := RunEnd(h, c);
      if a < b && c < d && ToLower(h[a..b]) == "bearer" then Some(h[c..d]) else None
  }

  /** A header of a scheme spelled "bearer" in any case, one or more white-space
      characters and a token yields the token. */
  lemma BearerHeaderYieldsToken(scheme: string, gap: string, token: string)
    requires ToLower(scheme) == "bearer"
    requires gap != [] && forall k :: 0 <= k < |gap| ==> IsSpace(gap[k])
    requires token != [] && forall k :: 0 <= k < |token| ==> !IsSpace(token[k])
    ensures FromAuthHeaderAsBearerToken(Some(scheme + gap + token)) == Some(token)
  {
    var h := scheme + gap + token;
    var c := 6 + |gap|;
    assert |scheme| == 6;
    SchemeWord(h, scheme, gap, token);
    GapSpaces(h, scheme, gap, token);
    TokenWord(h, scheme + gap, token);
    assert h[0..6] == scheme && h[c..|h|] == token;
  }

  lemma SchemeWord(h: string, scheme: string, gap: string, token: string)
    requires ToLower(scheme) == "bearer" && gap != [] && IsSpace(gap[0])
    requires h == scheme + gap + token
    ensures SkipSpaces(h, 0) == 0 && RunEnd(h, 0) == 6
  {
    assert |scheme| == 6;
    assert h[..6] == scheme && h[6..][0] == gap[0];
    forall k | 0 <= k < 6 ensures !IsSpace(h[k]) {
      assert h[k] == h[..6][k];
      assert LowerChar(scheme[k]) == "bearer"[k];
    }
    RunOver(h, 0, 6);
  }

  lemma GapSpaces(h: string, scheme: string, gap: string, token: string)
    requires |scheme| == 6
    requires gap != [] && forall k :: 0 <= k < |gap| ==> IsSpace(gap[k])
    requires token != [] && !IsSpace(token[0])
    requires h == scheme + gap + token
    ensures SkipSpaces(h, 6) == 6 + |gap|
  {
    var c := 6 + |gap|;
    assert h[6..c] == gap && h[c..] == token;
    forall k | 6 <= k < c ensures IsSpace(h[k]) {
      assert h[k] == h[6..c][k - 6];
    }
    assert h[c] == h[c..][0];
    SpacesOver(h, 6, c);
  }

  lemma TokenWord(h: string, front: string, token: string)
    requires forall k :: 0 <= k < |token| ==> !IsSpace(token[k])
    requires h == front + token
    ensures RunEnd(h, |front|) == |h|
  {
    var c := |front|;
    assert h[c..] == token;
    forall k | c <= k < |h| ensures !IsSpace(h[k]) {
      assert h[k] == h[c..][k - c];
    }
    RunOver(h, c, |h|);
  }

  /** White space ending at `j`. */
  lemma {:induction false} SpacesOver(s: string, i: nat, j: nat)
    requires i <= j <= |s|
    requires forall k :: i <= k < j ==> IsSpace(s[k])
    requires j == |s| || !IsSpace(s[j])
    ensures SkipSpaces(s, i) == j
    decreases j - i
  {
    if i < j {
      SpacesOver(s, i + 1, j);
    }
  }

  /** A run of non-space characters ending at `j`. */
  lemma {:induction false} RunOver(s: string, i: nat, j: nat)
    requires i <= j <= |s|
    requires forall k :: i <= k < j ==> !IsSpace(s[k])
    requires j == |s| || IsSpace(s[j])
    ensures RunEnd(s, i) == j
    decreases j - i
  {
    if i < j {
      RunOver(s, i + 1, j);
    }
  }

  // ------------------------------------------------------------ the strategy

  /** The configured secret as the constructor checks it: a missing or empty
      secret throws before the strategy exists. */
  function SecretCheck(configured: Option<string>): (r: Result<string>)
    ensures r.Ok? <==> configured.Some? && configured.value != ""
    ensures r.Ok? ==> r.value == configured.value
    ensures r.Fail? ==> r.error == Internal("JWT_SECRET is not defined")
  {
    if configured.Some? && configured.value != "" then Ok(configured.value)
    else Fail(Internal("JWT_SECRET is not defined"))
  }

  class Strategy {
    /** The key tokens are verified with. */
    const secret: string
    const sessions: SessionStore

    constructor (secret: string, sessions: SessionStore)
      requires secret != ""
      ensures this.secret == secret && this.sessions == sessions
    {
      this.secret := secret;
      this.sessions := sessions;
    }

    /** `validate(req, payload)`: the user named by the payload's email (not its
        subject), then a token in the request, then a live session for that token,
        in this order; the first check that fails answers 401 and leaves the store
        as it was. On success the user is returned and the session refreshed. */
    method Validate<User>(authorization: Option<string>, payload: Payload,
                          findByEmail: string -> Option<User>, now: int) returns (r: Result<User>)
      requires sessions.Valid()
      modifies sessions
      ensures sessions.Valid() && sessions.nextId == old(sessions.nextId)
      ensures findByEmail(payload.email).None? ==>
                r == Fail(Unauthorized("User not found")) && sessions.sessions == old(sessions.sessions)
      ensures findByEmail(payload.email).Some? && FromAuthHeaderAsBearerToken(authorization).None? ==>
                r == Fail(Unauthorized("No token provided")) && sessions.sessions == old(sessions.sessions)
      ensures findByEmail(payload.email).Some? && FromAuthHeaderAsBearerToken(authorization).Some? ==>
                var token := FromAuthHeaderAsBearerToken(authorization).value;
                match FirstValid(old(sessions.sessions), token, now)
                case None =>
                  r == Fail(Unauthorized("Session is not active")) && sessions.sessions == old(sessions.sessions)
                case Some(k) =>
                  r == Ok(findByEmail(payload.email).value)
                  && sessions.sessions == Touch(old(sessions.sessions), old(sessions.sessions)[k].id, now)
    {
      var user := findByEmail(payload.email);
      if user.None? {
        return Fail(Unauthorized("User not found"));
      }
      var token := FromAuthHeaderAsBearerToken(authorization);
      if token.None? {
        return Fail(Unauthorized("No token provided"));
      }
      var session := sessions.ValidateSession(token.value, now);
      if session.None? {
        return Fail(Unauthorized("Session is not active"));
      }
      r := Ok(user.value);
    }

    /** The guard as it runs: the token is extracted, its signature verified
        (`verify` answers the payload of a well-signed token), and only then is
        `validate` called. The header therefore always holds a token by the time
        `validate` looks, and "No token provided" is never the answer. */
    method Authenticate<User>(authorization: Option<string>, verify: string -> Option<Payload>,
                              findByEmail: string -> Option<User>, now: int) returns (r: Result<User>)
      requires sessions.Valid()
      modifies sessions
      ensures sessions.Valid() && sessions.nextId == old(sessions.nextId)
      ensures r.Fail? ==> r.error.Unauthorized? && r.error != Unauthorized("No token provided")
      ensures r.Fail? ==> sessions.sessions == old(sessions.sessions)
      ensures r.Ok? <==>
                && FromAuthHeaderAsBearerToken(authorization).Some?
                && verify(FromAuthHeaderAsBearerToken(authorization).value).Some?
                && findByEmail(verify(FromAuthHeaderAsBearerToken(authorization).value).value.email).Some?
                && FirstValid(old(sessions.sessions), FromAuthHeaderAsBearerToken(authorization).value, now).Some?
    {
      var token := FromAuthHeaderAsBearerToken(authorization);
      if token.None? {
        return Fail(Unauthorized("Unauthorized"));
      }
      var payload := verify(token.value);
      if payload.None? {
        return Fail(Unauthorized("Unauthorized"));
      }
      r := Validate(authorization, payload.value, findByEmail, now);
    }
  }

  /** `new JwtStrategy(...)`: the strategy exists exactly when a secret is configured. */
  method NewStrategy(configured: Option<string>, sessions: SessionStore) returns (r: Result<Strategy>)
    ensures r.Ok? <==> SecretCheck(configured).Ok?
    ensures r.Fail? ==> r.error == Internal("JWT_SECRET is not defined")
    ensures r.Ok? ==> fresh(r.value) && r.value.secret == configured.value && r.value.sessions == sessions
  {
    var secret := SecretCheck(configured);
    if secret.Fail? {
      return Fail(secret.error);
    }
    var strategy := new Strategy(secret.value, sessions);
    r := Ok(strategy);
  }
}
