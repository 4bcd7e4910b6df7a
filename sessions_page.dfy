/** The sessions page: how long ago a session was last active, which icon
    stands for its browser, which session is the browser's own, what is listed
    and which buttons are offered, and the page state its handlers update. */
module SessionsPage {
  import opened Common
  import opened Text

  /** A session as the page receives it; dates stay text. */
  datatype Session = Session(id: string, userAgent: string, ipAddress: string,
                             lastActivity: string, expiresAt: string, isActive: bool)

  // -------------------------------------------------------------- time ago

  const MINUTE_MS := 60_000
  const HOUR_MS := 3_600_000
  const DAY_MS := 86_400_000

  /** Dividing by `b` and then by `c`, rounding down each time, is dividing by `b * c` once. */
  lemma FloorTwice(a: int, b: int, c: int)
    requires b > 0 && c > 0
    ensures (a / b) / c == a / (b * c)
  {
    var q1, r1 := a / b, a % b;
    var q2, r2 := q1 / c, q1 % c;
    Regrouped(b, c, q2, r2);
    ScaledRemainder(b, c, r1, r2);
    DivisionUnique(a, b * c, q2, b * r2 + r1);
  }

  /** `b * (c * q + r) == (b * c) * q + b * r` */
  lemma Regrouped(b: int, c: int, q: int, r: int)
    ensures b * (c * q + r) == (b * c) * q + b * r
  {
    assert b * (c * q + r) == b * (c * q) + b * r;
  }

  /** A remainder of `b` plus `b` times a remainder of `c` is a remainder of `b * c`. */
  lemma ScaledRemainder(b: int, c: int, r1: int, r2: int)
    requires b > 0 && 0 <= r1 < b && 0 <= r2 < c
    ensures 0 <= b * r2 + r1 < b * c
  {
    assert b * r2 <= b * (c - 1) by {
      assert b * (c - 1) - b * r2 == b * (c - 1 - r2);
    }
  }

  lemma DivisionUnique(a: int, d: int, q: int, r: int)
    requires d > 0 && 0 <= r < d && a == d * q + r
    ensures a / d == q
  {
    var q', r' := a / d, a % d;
    if q' > q {
      Shifted(d, q, q' - q);
    } else if q' < q {
      Shifted(d, q', q - q');
    }
  }

  /** Raising the quotient by `k >= 1` raises the product by at least `d`. */
  lemma Shifted(d: int, q: int, k: int)
    requires d > 0 && k >= 1
    ensures d * (q + k) >= d * q + d
  {
    assert d * (q + k) == d * q + d * k;
    assert d * k >= d;
  }

  /** `formatTimeAgo` for `elapsed` milliseconds between the last activity and
      now; `None` is an unreadable date, whose arithmetic gives NaN. Seconds,
      minutes and hours are each rounded down from the previous unit, as
      `Math.floor` does. */
  function FormatTimeAgo(elapsed: Option<int>): (r: string)
    ensures elapsed.None? ==> r == "NaNd ago"
    ensures elapsed.Some? && elapsed.value < MINUTE_MS ==> r == "just now"
    ensures elapsed.Some? && MINUTE_MS <= elapsed.value < HOUR_MS ==>
              1 <= elapsed.value / MINUTE_MS < 60 && r == IntText(elapsed.value / MINUTE_MS) + "m ago"
    ensures elapsed.Some? && HOUR_MS <= elapsed.value < DAY_MS ==>
              1 <= elapsed.value / HOUR_MS < 24 && r == IntText(elapsed.value / HOUR_MS) + "h ago"
    ensures elapsed.Some? && DAY_MS <= elapsed.value ==>
              1 <= elapsed.value / DAY_MS && r == IntText(elapsed.value / DAY_MS) + "d ago"
  {
    if elapsed.None? then "NaNd ago"
    else
      var seconds := elapsed.value / 1000;
      if seconds < 60 then "just now"
      else
        var minutes := seconds / 60;
        FloorTwice(elapsed.value, 1000, 60);
        if minutes < 60 then IntText(minutes) + "m ago"
        else
          var hours := minutes / 60;
          FloorTwice(elapsed.value, MINUTE_MS, 60);
          if hours < 24 then IntText(hours) + "h ago"
          else
            var days := hours / 24;
            FloorTwice(elapsed.value, HOUR_MS, 24);
            IntText(days) + "d ago"
  }

  // -------------------------------------------------------------- icons

  const FIREFOX_ICON := "\U{1F98A}"
  const CHROME_ICON := "\U{1F310}"
  const SAFARI_ICON := "\U{1F9ED}"
  const EDGE_ICON := "\U{1F4F1}"
  const OTHER_ICON := "\U{1F30D}"

  /** `getBrowserIcon`: the first of Firefox, Chrome, Safari, Edge named in the user agent decides. */
  function BrowserIcon(userAgent: string): (r: string)
    ensures Contains(userAgent, "Firefox") ==> r == FIREFOX_ICON
    ensures !Contains(userAgent, "Firefox") && Contains(userAgent, "Chrome") ==> r == CHROME_ICON
    ensures !Contains(userAgent, "Firefox") && !Contains(userAgent, "Chrome") && Contains(userAgent, "Safari") ==> r == SAFARI_ICON
    ensures r == EDGE_ICON <==>
              !Contains(userAgent, "Firefox") && !Contains(userAgent, "Chrome") && !Contains(userAgent, "Safari") && Contains(userAgent, "Edge")
    ensures r == OTHER_ICON <==>
              !Contains(userAgent, "Firefox") && !Contains(userAgent, "Chrome") && !Contains(userAgent, "Safari") && !Contains(userAgent, "Edge")
  {
    if Contains(userAgent, "Firefox") then FIREFOX_ICON
    else if Contains(userAgent, "Chrome") then CHROME_ICON
    else if Contains(userAgent, "Safari") then SAFARI_ICON
    else if Contains(userAgent, "Edge") then EDGE_ICON
    else OTHER_ICON
  }

  /** A user agent naming Edge next to Chrome, as Chromium-based Edge does, gets the Chrome icon. */
  lemma EdgeWithChromeShownAsChrome(userAgent: string)
    requires Contains(userAgent, "Edge") && Contains(userAgent, "Chrome") && !Contains(userAgent, "Firefox")
    ensures BrowserIcon(userAgent) == CHROME_ICON
  {
  }

  // -------------------------------------------------------------- listing

  /** The position of the first active session with this user agent. */
  function FirstOwn(sessions: seq<Session>, userAgent: string): (r: Option<nat>)
    ensures r.Some? ==> r.value < |sessions| && sessions[r.value].userAgent == userAgent && sessions[r.value].isActive
    ensures r.Some? ==> forall j :: 0 <= j < r.value ==> !(sessions[j].userAgent == userAgent && sessions[j].isActive)
    ensures r.None? ==> forall j :: 0 <= j < |sessions| ==> !(sessions[j].userAgent == userAgent && sessions[j].isActive)
  {
    if sessions == [] then None
    else if sessions[0].userAgent == userAgent && sessions[0].isActive then Some(0)
    else
      match FirstOwn(sessions[1..], userAgent)
      case Some(k) => Some(k + 1)
      case None => None
  }

  /** The id remembered as the current session after a load: the first active
      session with the browser's user agent, or the previous id when there is none. */
  function CurrentSessionId(sessions: seq<Session>, userAgent: string, previous: string): (r: string)
    ensures (exists j :: 0 <= j < |sessions| && sessions[j].userAgent == userAgent && sessions[j].isActive)
              ==> exists j :: 0 <= j < |sessions| && sessions[j].userAgent == userAgent && sessions[j].isActive && sessions[j].id == r
    ensures (forall j :: 0 <= j < |sessions| ==> !(sessions[j].userAgent == userAgent && sessions[j].isActive))
              ==> r == previous
  {
    match FirstOwn(sessions, userAgent)
    case Some(k) => sessions[k].id
    case None => previous
  }

  /** The sessions listed: the active ones, in the order received. Every active
      session is kept as often as it was received, and nothing else is kept. */
  function ActiveSessions(sessions: seq<Session>): (r: seq<Session>)
    ensures |r| <= |sessions|
    ensures forall s :: s in r <==> s in sessions && s.isActive
    ensures forall s :: multiset(r)[s] == if s.isActive then multiset(sessions)[s] else 0
  {
    if sessions == [] then []
    else
      var rest := ActiveSessions(sessions[1..]);
      assert sessions == [sessions[0]] + sessions[1..];
      if sessions[0].isActive then [sessions[0]] + rest
      else rest
  }

  /** The filter works piece by piece: filtering a list received in two parts
      lists the first part's active sessions, in order, before the second's.
      With the multiplicities above this fixes the listed order as the order
      received. */
  lemma {:induction false} ActiveSessionsAppend(a: seq<Session>, b: seq<Session>)
    ensures ActiveSessions(a + b) == ActiveSessions(a) + ActiveSessions(b)
  {
    if a == [] {
      assert a + b == b;
    } else {
      assert (a + b)[1..] == a[1..] + b;
      assert (a + b)[0] == a[0];
      ActiveSessionsAppend(a[1..], b);
    }
  }

  /** The server only sends active sessions; for those the filter keeps everything. */
  lemma {:induction false} ActiveSessionsOfActive(sessions: seq<Session>)
    requires forall j :: 0 <= j < |sessions| ==> sessions[j].isActive
    ensures ActiveSessions(sessions) == sessions
  {
    if sessions != [] {
      ActiveSessionsOfActive(sessions[1..]);
      assert [sessions[0]] + sessions[1..] == sessions;
    }
  }

  /** The "No active sessions found" message shows exactly when no loaded session is active. */
  predicate ShowsEmptyMessage(sessions: seq<Session>) {
    |ActiveSessions(sessions)| == 0
  }

  lemma EmptyMessageIff(sessions: seq<Session>)
    ensures ShowsEmptyMessage(sessions) <==> forall j :: 0 <= j < |sessions| ==> !sessions[j].isActive
  {
    var listed := ActiveSessions(sessions);
    if listed != [] {
      assert listed[0] in listed;
    }
    if exists j :: 0 <= j < |sessions| && sessions[j].isActive {
      var j :| 0 <= j < |sessions| && sessions[j].isActive;
      assert sessions[j] in listed;
    }
  }

  /** A listed session has its own "Sign out" button unless it is the current one. */
  predicate ShowsSignOut(session: Session, currentSessionId: string) {
    session.id != currentSessionId
  }

  /** "Sign out all other devices" is offered when more than one session was
      loaded, inactive ones counted. */
  predicate ShowsSignOutAll(sessions: seq<Session>) {
    |sessions| > 1
  }

  /** The offer can show beside a single listed session, when another loaded one is inactive. */
  lemma SignOutAllBesideOneListed(a: Session, b: Session)
    requires a.isActive && !b.isActive
    ensures ShowsSignOutAll([a, b]) && |ActiveSessions([a, b])| == 1
  {
    assert ActiveSessions([a, b]) == [a] + ActiveSessions([b]) by {
      assert [a, b][1..] == [b];
    }
    assert ActiveSessions([b]) == ActiveSessions([b][1..]);
  }

  // -------------------------------------------------------------- page state

  datatype ActionKind = Single | All

  /** What the page is doing: `kind` is `None` when idle. */
  datatype ActionState = ActionState(loading: bool, sessionId: Option<string>, kind: Option<ActionKind>)

  const IDLE := ActionState(false, None, None)

  class Page {
    var sessions: seq<Session>
    var loading: bool
    var error: string
    var actionState: ActionState
    var showConfirmDialog: bool
    var currentSessionId: string

    constructor ()
      ensures sessions == [] && loading && error == "" && actionState == IDLE
      ensures !showConfirmDialog && currentSessionId == ""
    {
      sessions := [];
      loading := true;
      error := "";
      actionState := IDLE;
      showConfirmDialog := false;
      currentSessionId := "";
    }

    /** `loadSessions`: `fetched` is what the sessions request returned, and
        `browserAgent` the browser's user agent. A failure is caught and shown. */
    method LoadSessions(fetched: Result<seq<Session>>, browserAgent: string)
      modifies this
      ensures !loading
      ensures fetched.Ok? ==> sessions == fetched.value && error == old(error)
      ensures fetched.Ok? ==> currentSessionId == CurrentSessionId(fetched.value, browserAgent, old(currentSessionId))
      ensures fetched.Fail? ==> sessions == old(sessions) && error == "Failed to load sessions"
      ensures fetched.Fail? ==> currentSessionId == old(currentSessionId)
      ensures actionState == old(actionState) && showConfirmDialog == old(showConfirmDialog)
    {
      loading := true;
      if fetched.Ok? {
        var data := fetched.value;
        sessions := data;
        var own := FirstOwn(data, browserAgent);
        if own.Some? {
          currentSessionId := data[own.value].id;
        }
      } else {
        error := "Failed to load sessions";
      }
      loading := false;
    }

    /** `handleRevokeSession`: `revoked` is whether the revoke request
        succeeded, `fetched` what the reload returned. A reload failure is shown
        by the reload and then cleared, since the reload never throws. */
    method HandleRevokeSession(sessionId: string, revoked: bool, fetched: Result<seq<Session>>, browserAgent: string)
      modifies this
      ensures actionState == IDLE
      ensures revoked ==> error == "" && !loading
      ensures revoked && fetched.Ok? ==> sessions == fetched.value
      ensures revoked && fetched.Ok? ==> currentSessionId == CurrentSessionId(fetched.value, browserAgent, old(currentSessionId))
      ensures revoked && fetched.Fail? ==> sessions == old(sessions) && currentSessionId == old(currentSessionId)
      ensures !revoked ==> error == "Failed to revoke session"
      ensures !revoked ==> sessions == old(sessions) && loading == old(loading) && currentSessionId == old(currentSessionId)
      ensures showConfirmDialog == old(showConfirmDialog)
    {
      actionState := ActionState(true, Some(sessionId), Some(Single));
      if revoked {
        LoadSessions(fetched, browserAgent);
        error := "";
      } else {
        error := "Failed to revoke session";
      }
      actionState := IDLE;
    }

    /** `handleRevokeAllSessions`: as for one session, and the confirmation
        dialog closes only on success. */
    method HandleRevokeAllSessions(revoked: bool, fetched: Result<seq<Session>>, browserAgent: string)
      modifies this
      ensures actionState == IDLE
      ensures revoked ==> error == "" && !loading && !showConfirmDialog
      ensures revoked && fetched.Ok? ==> sessions == fetched.value
      ensures revoked && fetched.Ok? ==> currentSessionId == CurrentSessionId(fetched.value, browserAgent, old(currentSessionId))
      ensures revoked && fetched.Fail? ==> sessions == old(sessions) && currentSessionId == old(currentSessionId)
      ensures !revoked ==> error == "Failed to revoke all sessions" && showConfirmDialog == old(showConfirmDialog)
      ensures !revoked ==> sessions == old(sessions) && loading == old(loading) && currentSessionId == old(currentSessionId)
    {
      actionState := ActionState(true, None, Some(All));
      if revoked {
        LoadSessions(fetched, browserAgent);
        error := "";
        showConfirmDialog := false;
      } else {
        error := "Failed to revoke all sessions";
      }
      actionState := IDLE;
    }
  }
}
