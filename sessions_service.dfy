/** The server-side session store: one record per signed-in device, created at
    sign-up or login, looked up on every authenticated request, revoked by its
    owner and swept once it has expired. Each operation is one conditional
    update or query of the collection at a given time `now`. */
module SessionsService {
  import opened Common
  import opened Duration
  import opened SessionSchema
  import opened SessionTable
  import opened Documents
  import Text

  /** `if (exceptSessionId) query._id = { $ne: new Types.ObjectId(exceptSessionId) }`:
      an absent or empty text excepts nothing, a well-formed one excepts its id,
      and any other text makes the ObjectId constructor throw. */
  function Excepted(exceptSessionId: Option<string>): (r: Result<Option<nat>>)
    ensures exceptSessionId.None? || exceptSessionId.value == "" ==> r == Ok(None)
    ensures r.Ok? && r.value.Some? ==> exceptSessionId.Some? && IdString(r.value.value) == exceptSessionId.value
    ensures r.Fail? ==> r.error.Internal?
  {
    if exceptSessionId.None? || exceptSessionId.value == "" then Ok(None)
    else
      match ParseId(exceptSessionId.value)
      case Some(id) =>
        IdStringOfParse(exceptSessionId.value);
        Ok(Some(id))
      case None => Fail(Internal("input must be a valid ObjectId"))
  }

  /** An id's own string always excepts that id. */
  lemma ExceptedOwnId(id: nat)
    ensures Excepted(Some(IdString(id))) == Ok(Some(id))
  {
    ParseIdString(id);
  }

  /** A configured lifetime of a hundred million days or more puts the expiry
      of a session created after the epoch beyond the range of a `Date`, so
      `createSession` fails for it. */
  lemma OverlongLifetimeOutOfRange(amount: nat, now: int)
    requires amount >= 100_000_000 && now > 0
    ensures !InDateRange(now + DurationMs(Text.Decimal(amount) + ['d']))
  {
    DurationOfNumeral(amount, 'd');
  }

  class SessionStore {
    /** The `sessions` collection, in insertion order. */
    var sessions: seq<Session>
    /** The next ObjectId to be handed out. */
    var nextId: nat
    /** The `auth.jwtExpiration` setting, if any. */
    const jwtExpiration: Option<string>

    ghost predicate Valid()
      reads this
    {
      WellFormed(sessions, nextId)
    }

    constructor (jwtExpiration: Option<string>)
      ensures Valid()
      ensures sessions == [] && this.jwtExpiration == jwtExpiration
    {
      sessions := [];
      nextId := 0;
      this.jwtExpiration := jwtExpiration;
    }

    /** The in-place updates keep the store's guarantees. */
    lemma KeepWellFormed(sessionId: nat, userId: nat, except: Option<nat>, now: int)
      requires Valid()
      ensures WellFormed(RevokeOne(sessions, sessionId, userId, now), nextId)
      ensures WellFormed(RevokeAll(sessions, userId, except, now), nextId)
      ensures WellFormed(Touch(sessions, sessionId, now), nextId)
      ensures WellFormed(Sweep(sessions, now), nextId)
    {
      UpdatesEvolve(sessions, userId, sessionId, except, now);
      EvolvesKeepsWellFormed(sessions, RevokeOne(sessions, sessionId, userId, now), nextId);
      EvolvesKeepsWellFormed(sessions, RevokeAll(sessions, userId, except, now), nextId);
      EvolvesKeepsWellFormed(sessions, Touch(sessions, sessionId, now), nextId);
      EvolvesKeepsWellFormed(sessions, Sweep(sessions, now), nextId);
    }

    /** The lifetime of a session created now. */
    function Lifetime(): (r: nat)
      reads this
    {
      DurationMs(ExpiresIn(jwtExpiration))
    }

    /** `createSession`: the owner, token, user agent and address verbatim, expiry
        `now` plus the configured lifetime, active, last used now. A required string
        that is empty, or an expiry beyond the range of a `Date`, makes the save
        fail and nothing is stored. */
    method CreateSession(userId: nat, token: string, userAgent: string, ipAddress: string, now: int)
      returns (r: Result<Session>)
      requires Valid()
      modifies this
      ensures Valid()
      ensures r.Fail? <==> token == "" || userAgent == "" || ipAddress == "" || !InDateRange(now + Lifetime())
      ensures r.Ok? ==>
                && r.value.id == old(nextId)
                && r.value.userId == userId && r.value.token == token
                && r.value.userAgent == userAgent && r.value.ipAddress == ipAddress
                && r.value.expiresAt == now + Lifetime() && r.value.isActive
                && r.value.lastActivity == now && r.value.createdAt == now && r.value.updatedAt == now
      ensures r.Ok? ==> sessions == old(sessions) + [r.value] && nextId == old(nextId) + 1
      ensures r.Fail? ==> sessions == old(sessions) && nextId == old(nextId)
      ensures r.Fail? ==> r.error.Invalid?
    {
      var expiresIn := ExpiresIn(jwtExpiration);
      var expiresAt := now;
      expiresAt := expiresAt + DurationMs(expiresIn);
      var input := SessionInput(Some(userId), Some(token), Some(userAgent), Some(ipAddress), None, Some(expiresAt), None);
      r := NewSession(input, nextId, now);
      if r.Ok? {
        sessions := sessions + [r.value];
        nextId := nextId + 1;
      }
    }

    /** `getUserSessions`: exactly the owner's valid sessions, most recently used first. */
    method GetUserSessions(userId: nat, now: int) returns (r: seq<Session>)
      ensures forall x :: x in r <==> x in sessions && x.userId == userId && IsValid(x, now)
      ensures multiset(r) == multiset(ActiveOf(sessions, userId, now))
      ensures SortedByActivity(r)
    {
      r := SortByActivity(ActiveOf(sessions, userId, now));
    }

    /** `revokeSession`: a text that is no ObjectId fails before the store is
        touched; otherwise the record with that id and owner is deactivated, active
        or not, and without one the answer is "Session not found". */
    method RevokeSession(sessionId: string, userId: nat, now: int) returns (r: Result<()>)
      requires Valid()
      modifies this
      ensures Valid() && nextId == old(nextId)
      ensures ParseId(sessionId).None? ==> r.Fail? && r.error.Internal? && sessions == old(sessions)
      ensures ParseId(sessionId).Some? ==>
                && sessions == RevokeOne(old(sessions), ParseId(sessionId).value, userId, now)
                && (r.Ok? <==> HasOwned(old(sessions), ParseId(sessionId).value, userId))
                && (r.Fail? ==> r.error == NotFound("Session not found") && sessions == old(sessions))
    {
      var id := ParseId(sessionId);
      if id.None? {
        return Fail(Internal("input must be a valid ObjectId"));
      }
      var found := HasOwned(sessions, id.value, userId);
      KeepWellFormed(id.value, userId, None, now);
      if !found {
        RevokeOneMissing(sessions, id.value, userId, now);
      }
      sessions := RevokeOne(sessions, id.value, userId, now);
      if found {
        r := Ok(());
      } else {
        r := Fail(NotFound("Session not found"));
      }
    }

    /** `revokeAllUserSessions`: deactivates every active record of the user, expired
        or not, except the one a non-empty `exceptSessionId` names; a text that is no
        ObjectId fails before the store is touched. */
    method RevokeAllUserSessions(userId: nat, exceptSessionId: Option<string>, now: int) returns (r: Result<()>)
      requires Valid()
      modifies this
      ensures Valid() && nextId == old(nextId)
      ensures r.Fail? <==> Excepted(exceptSessionId).Fail?
      ensures r.Fail? ==> r.error.Internal? && sessions == old(sessions)
      ensures r.Ok? ==> sessions == RevokeAll(old(sessions), userId, Excepted(exceptSessionId).value, now)
    {
      var except := Excepted(exceptSessionId);
      if except.Fail? {
        return Fail(except.error);
      }
      KeepWellFormed(0, userId, except.value, now);
      sessions := RevokeAll(sessions, userId, except.value, now);
      r := Ok(());
    }

    /** `updateSessionActivity`: refreshes the last use of the record with that id. */
    method UpdateSessionActivity(sessionId: nat, now: int)
      requires Valid()
      modifies this
      ensures Valid() && nextId == old(nextId)
      ensures sessions == Touch(old(sessions), sessionId, now)
    {
      KeepWellFormed(sessionId, 0, None, now);
      sessions := Touch(sessions, sessionId, now);
    }

    /** `cleanupExpiredSessions`: deactivates the active records with `expiresAt <= now`,
        stamps their last activity with now, and answers how many it deactivated. */
    method CleanupExpiredSessions(now: int) returns (deactivated: nat)
      requires Valid()
      modifies this
      ensures Valid() && nextId == old(nextId)
      ensures sessions == Sweep(old(sessions), now)
      ensures deactivated == Deactivated(old(sessions), sessions)
      ensures deactivated == ExpiredCount(old(sessions), now)
    {
      KeepWellFormed(0, 0, None, now);
      SweepCountIsModified(sessions, now);
      deactivated := ExpiredCount(sessions, now);
      sessions := Sweep(sessions, now);
    }

    /** `handleExpiredSessions`, the hourly job: the sweep, with its count only logged. */
    method HandleExpiredSessions(now: int)
      requires Valid()
      modifies this
      ensures Valid() && nextId == old(nextId)
      ensures sessions == Sweep(old(sessions), now)
    {
      var _ := CleanupExpiredSessions(now);
    }

    /** `validateSession`: the first valid record with that token, as it was read,
        after which its last use is refreshed; nothing changes when there is none. */
    method ValidateSession(token: string, now: int) returns (r: Option<Session>)
      requires Valid()
      modifies this
      ensures Valid() && nextId == old(nextId)
      ensures r.Some? <==> exists i :: 0 <= i < |old(sessions)| && old(sessions)[i].token == token && IsValid(old(sessions)[i], now)
      ensures r.None? ==> sessions == old(sessions)
      ensures r.Some? ==> && r.value.token == token && IsValid(r.value, now)
                          && r.value == old(sessions)[FirstValid(old(sessions), token, now).value]
                          && sessions == Touch(old(sessions), r.value.id, now)
    {
      var k := FirstValid(sessions, token, now);
      if k.Some? {
        var session := sessions[k.value];
        UpdateSessionActivity(session.id, now);
        r := Some(session);
      } else {
        r := None;
      }
    }
  }
}
