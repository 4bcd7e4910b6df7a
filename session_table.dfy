/** The session collection as a value: the conditional updates and queries the
    service issues against it, each written as a function of the table, and what
    they guarantee. The table keeps records in insertion order. MongoDB promises
    no natural order for `findOne`; the model assumes it scans the table in this
    order, so `FirstValid` picks the first match in table order. */
module SessionTable {
  import opened Common
  import opened SessionSchema

  type Table = seq<Session>

  /** A session that still authenticates at time `now`. Exactly at `expiresAt` it no longer does. */
  predicate IsValid(s: Session, now: int) {
    s.isActive && s.expiresAt > now
  }

  /** A session the expiry sweep picks up at time `now`: active, and `expiresAt <= now`. */
  predicate IsExpired(s: Session, now: int) {
    s.isActive && s.expiresAt <= now
  }

  /** The fields fixed at creation: id, owner, token, device, expiry, creation time. */
  predicate SameIdentity(a: Session, b: Session) {
    && a.id == b.id && a.userId == b.userId && a.token == b.token
    && a.userAgent == b.userAgent && a.ipAddress == b.ipAddress
    && a.expiresAt == b.expiresAt && a.createdAt == b.createdAt
  }

  /** `after` is a possible later state of `before`: existing records stay in place
      with their identity fields, and none of them becomes active again. */
  predicate Evolves(before: Table, after: Table) {
    && |before| <= |after|
    && forall i :: 0 <= i < |before| ==>
         SameIdentity(before[i], after[i]) && (after[i].isActive ==> before[i].isActive)
  }

  lemma EvolvesTransitive(a: Table, b: Table, c: Table)
    requires Evolves(a, b) && Evolves(b, c)
    ensures Evolves(a, c)
  {
  }

  /** The store's guarantees: ids are distinct and below the next id to be handed
      out, and every token is non-empty (a required string). */
  predicate WellFormed(t: Table, nextId: nat) {
    && (forall i :: 0 <= i < |t| ==> t[i].id < nextId && t[i].token != "")
    && (forall i, j :: 0 <= i < j < |t| ==> t[i].id != t[j].id)
  }

  /** Same-length evolution keeps the store's guarantees. */
  lemma EvolvesKeepsWellFormed(before: Table, after: Table, nextId: nat)
    requires WellFormed(before, nextId) && Evolves(before, after) && |after| == |before|
    ensures WellFormed(after, nextId)
  {
  }

  // ------------------------------------------------------------ the updates

  /** `updateMany({isActive: true, expiresAt: {$lte: now}}, {isActive: false, lastActivity: now})` */
  function Sweep(t: Table, now: int): (r: Table)
    ensures |r| == |t|
    ensures forall i :: 0 <= i < |r| ==> !IsExpired(r[i], now)
  {
    seq(|t|, i requires 0 <= i < |t| =>
      if IsExpired(t[i], now) then t[i].(isActive := false, lastActivity := now, updatedAt := now) else t[i])
  }

  /** The filter of `revokeAllUserSessions`: the owner's active records, minus the excepted id. */
  predicate RevokeAllMatches(s: Session, userId: nat, except: Option<nat>) {
    s.userId == userId && s.isActive && (except.None? || s.id != except.value)
  }

  /** `updateMany({userId, isActive: true, _id: {$ne: except}}, {isActive: false})` */
  function RevokeAll(t: Table, userId: nat, except: Option<nat>, now: int): (r: Table)
    ensures |r| == |t|
    ensures forall i :: 0 <= i < |r| ==> !RevokeAllMatches(r[i], userId, except)
  {
    seq(|t|, i requires 0 <= i < |t| =>
      if RevokeAllMatches(t[i], userId, except) then t[i].(isActive := false, updatedAt := now) else t[i])
  }

  /** `findOneAndUpdate({_id, userId}, {isActive: false})`: ids are unique, so at most one record matches. */
  function RevokeOne(t: Table, sessionId: nat, userId: nat, now: int): (r: Table)
    ensures |r| == |t|
    ensures forall i :: 0 <= i < |r| && r[i].id == sessionId && r[i].userId == userId ==> !r[i].isActive
  {
    seq(|t|, i requires 0 <= i < |t| =>
      if t[i].id == sessionId && t[i].userId == userId then t[i].(isActive := false, updatedAt := now) else t[i])
  }

  /** `findByIdAndUpdate(id, {lastActivity: now})` */
  function Touch(t: Table, sessionId: nat, now: int): (r: Table)
    ensures |r| == |t|
    ensures forall i :: 0 <= i < |r| && r[i].id == sessionId ==> r[i].lastActivity == now
  {
    seq(|t|, i requires 0 <= i < |t| =>
      if t[i].id == sessionId then t[i].(lastActivity := now, updatedAt := now) else t[i])
  }

  /** Every update the store makes only deactivates or touches: the table
      evolves, so no session is ever re-activated and no identity field is ever
      rewritten. */
  lemma UpdatesEvolve(t: Table, userId: nat, sessionId: nat, except: Option<nat>, now: int)
    ensures Evolves(t, Sweep(t, now))
    ensures Evolves(t, RevokeAll(t, userId, except, now))
    ensures Evolves(t, RevokeOne(t, sessionId, userId, now))
    ensures Evolves(t, Touch(t, sessionId, now))
  {
  }

  // ------------------------------------------------------------ the queries

  /** Whether some record has this id and this owner. */
  predicate HasOwned(t: Table, sessionId: nat, userId: nat) {
    exists i :: 0 <= i < |t| && t[i].id == sessionId && t[i].userId == userId
  }

  /** `findOne({token, isActive: true, expiresAt: {$gt: now}})`: the position of
      the first valid record carrying the token. */
  function FirstValid(t: Table, token: string, now: int): (r: Option<nat>)
    ensures r.Some? ==> r.value < |t| && t[r.value].token == token && IsValid(t[r.value], now)
    ensures r.Some? ==> forall j :: 0 <= j < r.value ==> !(t[j].token == token && IsValid(t[j], now))
    ensures r.None? ==> forall j :: 0 <= j < |t| ==> !(t[j].token == token && IsValid(t[j], now))
  {
    if t == [] then None
    else if t[0].token == token && IsValid(t[0], now) then Some(0)
    else
      match FirstValid(t[1..], token, now)
      case None => None
      case Some(k) => Some(k + 1)
  }

  /** The query of `getUserSessions`: the owner's valid records, in table order. */
  function ActiveOf(t: Table, userId: nat, now: int): (r: Table)
    ensures |r| <= |t|
    ensures forall x :: x in r <==> x in t && x.userId == userId && IsValid(x, now)
    ensures forall x :: multiset(r)[x] == if x.userId == userId && IsValid(x, now) then multiset(t)[x] else 0
  {
    if t == [] then []
    else
      var rest := ActiveOf(t[..|t| - 1], userId, now);
      var last := t[|t| - 1];
      assert t == t[..|t| - 1] + [last];
      if last.userId == userId && IsValid(last, now) then rest + [last] else rest
  }

  /** `.sort({lastActivity: -1})`: most recently used first. */
  predicate SortedByActivity(xs: Table) {
    forall i, j :: 0 <= i < j < |xs| ==> xs[i].lastActivity >= xs[j].lastActivity
  }

  function Insert(x: Session, xs: Table): (r: Table)
    requires SortedByActivity(xs)
    ensures |r| == |xs| + 1
    ensures r[0] == x || (xs != [] && r[0] == xs[0])
    ensures SortedByActivity(r)
    ensures multiset(r) == multiset(xs) + multiset{x}
  {
    if xs == [] then [x]
    else if x.lastActivity >= xs[0].lastActivity then
      ConsSorted(x, xs);
      [x] + xs
    else
      var rest := Insert(x, xs[1..]);
      InsertBehind(x, xs, rest);
      [xs[0]] + rest
  }

  /** The recursive step of `Insert`: the head stays in front of the rest. */
  lemma InsertBehind(x: Session, xs: Table, rest: Table)
    requires xs != [] && SortedByActivity(xs) && x.lastActivity < xs[0].lastActivity
    requires rest != [] && (rest[0] == x || (|xs| > 1 && rest[0] == xs[1]))
    requires SortedByActivity(rest)
    requires multiset(rest) == multiset(xs[1..]) + multiset{x}
    ensures SortedByActivity([xs[0]] + rest)
    ensures multiset([xs[0]] + rest) == multiset(xs) + multiset{x}
  {
    assert xs == [xs[0]] + xs[1..];
    ConsSorted(xs[0], rest);
  }

  lemma ConsSorted(h: Session, xs: Table)
    requires SortedByActivity(xs)
    requires xs == [] || h.lastActivity >= xs[0].lastActivity
    ensures SortedByActivity([h] + xs)
  {
    var r := [h] + xs;
    forall i, j | 0 <= i < j < |r| ensures r[i].lastActivity >= r[j].lastActivity {
      if i > 0 {
        assert r[i] == xs[i - 1] && r[j] == xs[j - 1];
      } else {
        assert r[j] == xs[j - 1];
      }
    }
  }

  /** The sort the database applies; ties keep no particular order, which the
      specification of `getUserSessions` leaves open as well. */
  function SortByActivity(xs: Table): (r: Table)
    ensures SortedByActivity(r)
    ensures multiset(r) == multiset(xs)
  {
    if xs == [] then []
    else
      assert xs == [xs[0]] + xs[1..];
      Insert(xs[0], SortByActivity(xs[1..]))
  }

  // ------------------------------------------------------------ counting

  /** How many records the sweep matches, its `modifiedCount`. */
  function ExpiredCount(t: Table, now: int): nat {
    if t == [] then 0
    else ExpiredCount(t[..|t| - 1], now) + (if IsExpired(t[|t| - 1], now) then 1 else 0)
  }

  /** How many records went from active to inactive between two states of the table. */
  function Deactivated(before: Table, after: Table): nat
    requires |before| == |after|
  {
    if before == [] then 0
    else
      Deactivated(before[..|before| - 1], after[..|after| - 1])
      + (if before[|before| - 1].isActive && !after[|after| - 1].isActive then 1 else 0)
  }

  /** No record is left for the sweep exactly when the count is zero. */
  lemma {:induction false} ExpiredCountZero(t: Table, now: int)
    ensures ExpiredCount(t, now) == 0 <==> forall i :: 0 <= i < |t| ==> !IsExpired(t[i], now)
  {
    if t != [] {
      var init := t[..|t| - 1];
      ExpiredCountZero(init, now);
      assert forall i :: 0 <= i < |init| ==> init[i] == t[i];
    }
  }

  lemma SweepPrefix(t: Table, now: int)
    requires t != []
    ensures Sweep(t, now)[..|t| - 1] == Sweep(t[..|t| - 1], now)
  {
  }

  /** The count the sweep returns is the number of records it deactivated. */
  lemma {:induction false} SweepCountIsModified(t: Table, now: int)
    ensures ExpiredCount(t, now) == Deactivated(t, Sweep(t, now))
  {
    if t != [] {
      SweepPrefix(t, now);
      SweepCountIsModified(t[..|t| - 1], now);
    }
  }

  /** The sweep deactivates exactly the active records with `expiresAt <= now`, and
      leaves every record's validity at `now` as it was: it never ends a valid session. */
  lemma SweepExactly(t: Table, now: int, i: int)
    requires 0 <= i < |t|
    ensures Sweep(t, now)[i].isActive <==> t[i].isActive && t[i].expiresAt > now
    ensures IsValid(Sweep(t, now)[i], now) <==> IsValid(t[i], now)
    ensures !IsExpired(t[i], now) ==> Sweep(t, now)[i] == t[i]
  {
  }

  /** Sweeping twice at the same time changes nothing the second time, and the
      second count is zero. */
  lemma SweepIdempotent(t: Table, now: int)
    ensures Sweep(Sweep(t, now), now) == Sweep(t, now)
    ensures ExpiredCount(Sweep(t, now), now) == 0
  {
    ExpiredCountZero(Sweep(t, now), now);
  }

  /** The number of the owner's valid records. */
  function ValidCount(t: Table, userId: nat, now: int): nat {
    |ActiveOf(t, userId, now)|
  }

  /** Revoking all of a user's sessions except a valid one of theirs leaves exactly
      that one valid among their sessions. */
  lemma {:induction false} RevokeAllLeavesOne(t: Table, nextId: nat, userId: nat, k: nat, now: int)
    requires WellFormed(t, nextId)
    requires k < |t| && t[k].userId == userId && IsValid(t[k], now)
    ensures ActiveOf(RevokeAll(t, userId, Some(t[k].id), now), userId, now) == [t[k]]
  {
    var r := RevokeAll(t, userId, Some(t[k].id), now);
    forall i | 0 <= i < |r| && r[i].userId == userId && IsValid(r[i], now)
      ensures i == k
    {
      assert t[i].id == t[k].id;
    }
    OnlyOneValid(r, userId, now, k);
  }

  /** When the only valid owned record sits at `k`, the owner's valid records are that one. */
  lemma {:induction false} OnlyOneValid(t: Table, userId: nat, now: int, k: nat)
    requires k < |t| && t[k].userId == userId && IsValid(t[k], now)
    requires forall i :: 0 <= i < |t| && t[i].userId == userId && IsValid(t[i], now) ==> i == k
    ensures ActiveOf(t, userId, now) == [t[k]]
  {
    var init := t[..|t| - 1];
    assert t == init + [t[|t| - 1]];
    if k == |t| - 1 {
      NoneValid(init, userId, now);
    } else {
      OnlyOneValid(init, userId, now, k);
    }
  }

  /** With no valid owned record, the query is empty. */
  lemma {:induction false} NoneValid(t: Table, userId: nat, now: int)
    requires forall i :: 0 <= i < |t| ==> !(t[i].userId == userId && IsValid(t[i], now))
    ensures ActiveOf(t, userId, now) == []
  {
    if t != [] {
      NoneValid(t[..|t| - 1], userId, now);
    }
  }

  /** Revoking with no exception leaves the user with no valid session. */
  lemma RevokeAllLeavesNone(t: Table, userId: nat, now: int)
    ensures ActiveOf(RevokeAll(t, userId, None, now), userId, now) == []
  {
    NoneValid(RevokeAll(t, userId, None, now), userId, now);
  }

  /** The touch refreshes exactly the record with that id, when ids are unique. */
  lemma TouchOnly(t: Table, nextId: nat, k: nat, now: int)
    requires WellFormed(t, nextId) && k < |t|
    ensures Touch(t, t[k].id, now)[k] == t[k].(lastActivity := now, updatedAt := now)
    ensures forall i :: 0 <= i < |t| && i != k ==> Touch(t, t[k].id, now)[i] == t[i]
  {
  }

  /** With unique ids, revoking one session deactivates exactly the record that
      has that id and that owner, and no other. */
  lemma RevokeOneOnly(t: Table, nextId: nat, k: nat, now: int)
    requires WellFormed(t, nextId) && k < |t|
    ensures RevokeOne(t, t[k].id, t[k].userId, now)[k] == t[k].(isActive := false, updatedAt := now)
    ensures forall i :: 0 <= i < |t| && i != k ==> RevokeOne(t, t[k].id, t[k].userId, now)[i] == t[i]
  {
  }

  /** Without a record of that id and owner (another user's session, an unknown
      id), revoking one changes nothing. */
  lemma RevokeOneMissing(t: Table, sessionId: nat, userId: nat, now: int)
    requires !HasOwned(t, sessionId, userId)
    ensures RevokeOne(t, sessionId, userId, now) == t
  {
  }

  /** Revoking all of a user's sessions leaves other users' records and the
      excepted record as they were, whether or not they have expired, and
      deactivates every other active record of the user. */
  lemma RevokeAllScope(t: Table, userId: nat, except: Option<nat>, now: int, i: nat)
    requires i < |t|
    ensures t[i].userId != userId ==> RevokeAll(t, userId, except, now)[i] == t[i]
    ensures except.Some? && t[i].id == except.value ==> RevokeAll(t, userId, except, now)[i] == t[i]
    ensures !RevokeAll(t, userId, except, now)[i].isActive <==>
              !t[i].isActive || (t[i].userId == userId && (except.None? || t[i].id != except.value))
  {
  }

  /** Every stored token is non-empty, so neither an empty token nor any token
      that no session carries finds a session. */
  lemma UnknownTokenFindsNothing(t: Table, nextId: nat, token: string, now: int)
    requires WellFormed(t, nextId)
    requires token == "" || forall i :: 0 <= i < |t| ==> t[i].token != token
    ensures FirstValid(t, token, now).None?
  {
  }
}
