/** The `/sessions` endpoints: list, revoke one, revoke all but the current one.
    Every handler runs behind the request gate, so the caller is a known user and
    every store call is scoped to the caller's id. */
module SessionsController {
  import opened Common
  import opened Text
  import opened Documents
  import opened SessionSchema
  import opened SessionTable
  import opened SessionsService
  import opened JwtStrategy

  /** The status both delete endpoints answer with on success. */
  const NO_CONTENT: int := 204

  /** `req.headers.authorization?.split(' ')[1]`: the second piece of the header
      split at single spaces, if there is a header with a second piece. */
  function SecondWord(authorization: Option<string>): (r: Option<string>)
    ensures authorization.None? ==> r.None?
    ensures r.Some? ==> ' ' !in r.value
  {
    if authorization.None? then None
    else
      var parts := Split(authorization.value, ' ');
      if |parts| >= 2 then Some(parts[1]) else None
  }

  /** The position of the session the header's token designates, if it is valid. */
  function CurrentIndex(t: seq<Session>, authorization: Option<string>, now: int): (r: Option<nat>)
    ensures r.Some? ==> r.value < |t| && IsValid(t[r.value], now) && Some(t[r.value].token) == SecondWord(authorization)
  {
    match SecondWord(authorization)
    case None => None
    case Some(token) => FirstValid(t, token, now)
  }

  class Controller {
    const service: SessionStore

    constructor (service: SessionStore)
      ensures this.service == service
    {
      this.service := service;
    }

    /** `GET /sessions`: the caller's valid sessions and nobody else's, most recent first. */
    method GetUserSessions(callerId: nat, now: int) returns (r: seq<Session>)
      ensures forall x :: x in r ==> x.userId == callerId && IsValid(x, now) && x in service.sessions
      ensures forall x :: x in service.sessions && x.userId == callerId && IsValid(x, now) ==> x in r
      ensures multiset(r) == multiset(ActiveOf(service.sessions, callerId, now))
      ensures SortedByActivity(r)
    {
      r := service.GetUserSessions(callerId, now);
    }

    /** `DELETE /sessions/:sessionId`: revokes that session only when the caller owns
        it; 204 on success. */
    method RevokeSession(sessionId: string, callerId: nat, now: int) returns (r: Result<int>)
      requires service.Valid()
      modifies service
      ensures service.Valid() && service.nextId == old(service.nextId)
      ensures r.Ok? ==> r.value == NO_CONTENT
      ensures r.Ok? <==> ParseId(sessionId).Some? && HasOwned(old(service.sessions), ParseId(sessionId).value, callerId)
      ensures r.Fail? ==> service.sessions == old(service.sessions)
      ensures r.Ok? ==> service.sessions == RevokeOne(old(service.sessions), ParseId(sessionId).value, callerId, now)
    {
      var done := service.RevokeSession(sessionId, callerId, now);
      if done.Fail? {
        return Fail(done.error);
      }
      r := Ok(NO_CONTENT);
    }

    /** `DELETE /sessions`: looks up the session of the header's token, which
        refreshes it, then revokes every other active session of the caller; with
        no such session, all of them. Always 204. */
    method RevokeAllSessions(authorization: Option<string>, callerId: nat, now: int) returns (r: Result<int>)
      requires service.Valid()
      modifies service
      ensures service.Valid() && service.nextId == old(service.nextId)
      ensures r == Ok(NO_CONTENT)
      ensures match CurrentIndex(old(service.sessions), authorization, now)
              case None =>
                service.sessions == RevokeAll(old(service.sessions), callerId, None, now)
              case Some(k) =>
                var id := old(service.sessions)[k].id;
                service.sessions == RevokeAll(Touch(old(service.sessions), id, now), callerId, Some(id), now)
    {
      var current: Option<Session> := None;
      var token := SecondWord(authorization);
      // Without a second word the source looks up an `undefined` token, taken here to match nothing.
      if token.Some? {
        current := service.ValidateSession(token.value, now);
      }
      var except: Option<string> := None;
      if current.Some? {
        except := Some(IdString(current.value.id));
        ExceptedOwnId(current.value.id);
      }
      var done := service.RevokeAllUserSessions(callerId, except, now);
      r := Ok(NO_CONTENT);
    }
  }

  /** When the header designates a valid session of the caller's, that session is
      the only one of the caller's left valid. */
  lemma {:induction false} RevokeAllKeepsCurrent(t: seq<Session>, nextId: nat, callerId: nat, k: nat, now: int)
    requires WellFormed(t, nextId)
    requires k < |t| && t[k].userId == callerId && IsValid(t[k], now)
    ensures ActiveOf(RevokeAll(Touch(t, t[k].id, now), callerId, Some(t[k].id), now), callerId, now)
            == [t[k].(lastActivity := now, updatedAt := now)]
  {
    var u := Touch(t, t[k].id, now);
    TouchOnly(t, nextId, k, now);
    UpdatesEvolve(t, callerId, t[k].id, None, now);
    EvolvesKeepsWellFormed(t, u, nextId);
    RevokeAllLeavesOne(u, nextId, callerId, k, now);
  }

  /** When the header designates no valid session, none of the caller's sessions stays valid. */
  lemma RevokeAllWithoutCurrent(t: seq<Session>, callerId: nat, now: int)
    ensures ActiveOf(RevokeAll(t, callerId, None, now), callerId, now) == []
  {
    RevokeAllLeavesNone(t, callerId, now);
  }

  /** For `Bearer <token>` with one space, the controller reads the same token as the gate. */
  lemma SecondWordOfBearer(token: string)
    requires token != [] && forall k :: 0 <= k < |token| ==> !IsSpace(token[k])
    ensures SecondWord(Some("Bearer " + token)) == Some(token)
    ensures FromAuthHeaderAsBearerToken(Some("Bearer " + token)) == Some(token)
  {
    assert ' ' !in token by {
      forall k | 0 <= k < |token| ensures token[k] != ' ' {
        assert !IsSpace(token[k]);
      }
    }
    assert ' ' !in "Bearer";
    SplitSecond("Bearer", ' ', token);
    assert "Bearer " + token == "Bearer" + [' '] + token;
    BearerHeaderYieldsToken("Bearer", " ", token);
  }

  /** With two spaces after the scheme the gate still finds the token, but the
      controller reads the empty piece between the spaces; no session carries the
      empty token, so every session of the caller is revoked, the current one
      included. */
  lemma DoubleSpaceRevokesCurrent(t: seq<Session>, nextId: nat, token: string, now: int)
    requires WellFormed(t, nextId)
    requires token != [] && forall k :: 0 <= k < |token| ==> !IsSpace(token[k])
    ensures FromAuthHeaderAsBearerToken(Some("Bearer  " + token)) == Some(token)
    ensures SecondWord(Some("Bearer  " + token)) == Some("")
    ensures CurrentIndex(t, Some("Bearer  " + token), now).None?
  {
    DoubleSpaceToken(token);
    DoubleSpaceSecondWord(token);
    DoubleSpaceNoCurrent(t, nextId, token, now);
  }

  /** The strategy skips both spaces and reads the token. */
  lemma DoubleSpaceToken(token: string)
    requires token != [] && forall k :: 0 <= k < |token| ==> !IsSpace(token[k])
    ensures FromAuthHeaderAsBearerToken(Some("Bearer  " + token)) == Some(token)
  {
    assert "Bearer  " + token == "Bearer" + "  " + token;
    BearerHeaderYieldsToken("Bearer", "  ", token);
  }

  /** The empty piece designates no session. */
  lemma DoubleSpaceNoCurrent(t: seq<Session>, nextId: nat, token: string, now: int)
    requires WellFormed(t, nextId)
    ensures CurrentIndex(t, Some("Bearer  " + token), now).None?
  {
    DoubleSpaceSecondWord(token);
    UnknownTokenFindsNothing(t, nextId, "", now);
  }

  /** After "Bearer" and two spaces, the second space-separated piece is empty. */
  lemma DoubleSpaceSecondWord(token: string)
    ensures SecondWord(Some("Bearer  " + token)) == Some("")
  {
    var h := "Bearer  " + token;
    assert h[6] == ' ';
    assert IndexOf(h, ' ') == 6;
    var rest := h[7..];
    assert rest[0] == ' ';
    assert IndexOf(rest, ' ') == 0;
    assert Split(h, ' ')[1..] == Split(rest, ' ');
    assert Split(rest, ' ')[0] == [];
  }
}
