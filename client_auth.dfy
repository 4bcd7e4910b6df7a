/** The browser's auth client: it keeps the token and the JSON-encoded user in
    local storage, a map from keys to strings, and reads them back. */
module ClientAuth {
  import opened Common
  import opened Json

  const TOKEN_KEY := "token"
  const USER_KEY := "user"

  type Storage = map<string, string>

  /** The body of a signup or login answer; a missing user is `undefined`. */
  datatype AuthData = AuthData(token: string, user: Option<Obj>)

  function Get(s: Storage, key: string): Option<string> {
    if key in s then Some(s[key]) else None
  }

  /** `JSON.stringify(user)` as `setItem` stores it: `undefined` becomes the text "undefined". */
  function UserText(user: Option<Obj>): string {
    match user
    case Some(obj) => Stringify(obj)
    case None => "undefined"
  }

  /** What `getToken` returns: the stored token, or null. */
  function TokenIn(s: Storage): Option<string> {
    Get(s, TOKEN_KEY)
  }

  /** `isAuthenticated`: a stored token that is not empty. */
  predicate AuthenticatedIn(s: Storage) {
    TokenIn(s).Some? && TokenIn(s).value != ""
  }

  /** What `getCurrentUser` returns: null when nothing (or the empty text) is
      stored, the parsed object otherwise; text that does not parse throws. */
  function CurrentUserIn(s: Storage): (r: Result<Option<Obj>>)
    ensures r == Ok(None) <==> USER_KEY !in s || s[USER_KEY] == ""
    ensures r.Fail? <==> USER_KEY in s && s[USER_KEY] != "" && Parse(s[USER_KEY]).None?
    ensures r.Ok? && r.value.Some? ==> Some(r.value.value) == Parse(s[USER_KEY])
  {
    if USER_KEY !in s || s[USER_KEY] == "" then Ok(None)
    else
      var parsed := Parse(s[USER_KEY]);
      if parsed.Some? then Ok(parsed) else Fail(Internal("SyntaxError"))
  }

  /** Storage after a signup or login answer: both keys are written when the
      answer carries a token, nothing changes otherwise or when the request
      failed. What is written reads back as the token and the user. */
  function AfterResponse(s: Storage, response: Result<AuthData>): (r: Storage)
    ensures forall k :: k != TOKEN_KEY && k != USER_KEY ==> Get(r, k) == Get(s, k)
    ensures !(response.Ok? && response.value.token != "") ==> r == s
    ensures response.Ok? && response.value.token != "" ==>
              && AuthenticatedIn(r)
              && TokenIn(r) == Some(response.value.token)
              && (response.value.user.Some? ==> CurrentUserIn(r) == Ok(response.value.user))
              && (response.value.user.None? ==> CurrentUserIn(r).Fail?)
  {
    if response.Ok? && response.value.token != "" then
      var data := response.value;
      var r := s[TOKEN_KEY := data.token][USER_KEY := UserText(data.user)];
      assert Get(r, USER_KEY) == Some(UserText(data.user));
      if data.user.Some? then
        ParseStringify(data.user.value);
        assert Stringify(data.user.value) != "" by {
          assert Stringify(data.user.value)[0] == '{';
        }
        r
      else
        assert Parse("undefined") == None;
        r
    else s
  }

  /** Storage after `logout`: both keys gone, everything else kept. */
  function AfterLogout(s: Storage): (r: Storage)
    ensures !AuthenticatedIn(r) && CurrentUserIn(r) == Ok(None)
    ensures forall k :: k != TOKEN_KEY && k != USER_KEY ==> Get(r, k) == Get(s, k)
  {
    s - {TOKEN_KEY, USER_KEY}
  }

  /** Logging out twice is logging out once. */
  lemma LogoutIdempotent(s: Storage)
    ensures AfterLogout(AfterLogout(s)) == AfterLogout(s)
  {
    assert AfterLogout(AfterLogout(s)).Keys == AfterLogout(s).Keys;
  }

  /** A login followed by a logout leaves storage as a logout alone would. */
  lemma LoginThenLogout(s: Storage, response: Result<AuthData>)
    ensures AfterLogout(AfterResponse(s, response)) == AfterLogout(s)
  {
    var r := AfterResponse(s, response);
    assert AfterLogout(r).Keys == AfterLogout(s).Keys by {
      forall k | k != TOKEN_KEY && k != USER_KEY ensures (k in r <==> k in s) {
        assert Get(r, k) == Get(s, k);
      }
    }
    forall k | k in AfterLogout(s) ensures AfterLogout(r)[k] == AfterLogout(s)[k] {
      assert Get(r, k) == Get(s, k);
    }
  }

  class AuthClient {
    var storage: Storage

    constructor (initial: Storage)
      ensures storage == initial
    {
      storage := initial;
    }

    /** The answer of the signup request, or its failure, is passed through unchanged. */
    method Signup(response: Result<AuthData>) returns (r: Result<AuthData>)
      modifies this
      ensures r == response
      ensures storage == AfterResponse(old(storage), response)
    {
      if response.Ok? && response.value.token != "" {
        storage := storage[TOKEN_KEY := response.value.token];
        storage := storage[USER_KEY := UserText(response.value.user)];
      }
      r := response;
    }

    method Login(response: Result<AuthData>) returns (r: Result<AuthData>)
      modifies this
      ensures r == response
      ensures storage == AfterResponse(old(storage), response)
    {
      if response.Ok? && response.value.token != "" {
        storage := storage[TOKEN_KEY := response.value.token];
        storage := storage[USER_KEY := UserText(response.value.user)];
      }
      r := response;
    }

    method Logout()
      modifies this
      ensures storage == AfterLogout(old(storage))
    {
      storage := storage - {TOKEN_KEY};
      storage := storage - {USER_KEY};
    }

    method GetCurrentUser() returns (r: Result<Option<Obj>>)
      ensures r == CurrentUserIn(storage)
    {
      if USER_KEY in storage && storage[USER_KEY] != "" {
        var parsed := Parse(storage[USER_KEY]);
        if parsed.Some? {
          r := Ok(parsed);
        } else {
          r := Fail(Internal("SyntaxError"));
        }
      } else {
        r := Ok(None);
      }
    }

    method GetToken() returns (r: Option<string>)
      ensures r == TokenIn(storage)
    {
      r := if TOKEN_KEY in storage then Some(storage[TOKEN_KEY]) else None;
    }

    method IsAuthenticated() returns (b: bool)
      ensures b <==> AuthenticatedIn(storage)
    {
      var token := GetToken();
      b := token.Some? && token.value != "";
    }
  }
}
