/** The configuration namespaces `app`, `database` and `auth`, each read from the
    process environment with a fallback per key, and the environment schema
    that checks the environment and supplies defaults for absent keys. */
module Configuration {
  import opened Common
  import opened Text
  import Duration
  import JwtStrategy

  /** The process environment: every present variable holds a string. */
  type Env = map<string, string>

  /** `process.env[key] || fallback`: an absent or empty variable gives the fallback. */
  function EnvOr(env: Env, key: string, fallback: string): (r: string)
    ensures key in env && env[key] != "" ==> r == env[key]
    ensures key !in env || env[key] == "" ==> r == fallback
  {
    if key in env && env[key] != "" then env[key] else fallback
  }

  // ------------------------------------------------------------- parseInt

  /** The text after an optional leading sign. */
  function Unsigned(t: string): (u: string)
    ensures |u| <= |t|
  {
    if t != [] && (t[0] == '-' || t[0] == '+') then t[1..] else t
  }

  /** The value of the leading digits of `u`, or NaN when there are none. */
  function LeadingValue(u: string): (r: Option<nat>)
    ensures r.None? <==> DigitRun(u) == 0
  {
    var n := DigitRun(u);
    if n == 0 then None else Some(DigitsValue(u[..n]))
  }

  /** `parseInt(s, 10)`: leading white space skipped, an optional sign, then the
      longest run of digits; no digit at all is NaN, here `None`. */
  function ParseInt(s: string): (r: Option<int>)
    ensures r.None? <==> DigitRun(Unsigned(TrimStart(s))) == 0
    ensures r.Some? && r.value < 0 ==> TrimStart(s) != [] && TrimStart(s)[0] == '-'
  {
    var t := TrimStart(s);
    match LeadingValue(Unsigned(t))
    case None => None
    case Some(v) =>
      var x: int := v;
      Some(if t != [] && t[0] == '-' then -x else x)
  }

  /** `parseInt` reads the digits of `d + rest`, after an optional sign. */
  lemma ParseUnsigned(d: string, rest: string)
    requires d != [] && AllDigits(d) && (rest == [] || !IsDigit(rest[0]))
    ensures LeadingValue(d + rest) == Some(DigitsValue(d))
  {
    DigitRunOfDigits(d, rest);
    assert (d + rest)[..|d|] == d;
  }

  lemma NoLeadingSpace(t: string)
    requires t != [] && !IsSpace(t[0])
    ensures TrimStart(t) == t
  {
  }

  /** An unsigned numeral followed by anything that is not a digit. */
  lemma ParseNonNegative(d: string, rest: string)
    requires d != [] && AllDigits(d) && (rest == [] || !IsDigit(rest[0]))
    ensures ParseInt(d + rest) == Some(DigitsValue(d))
  {
    var t := d + rest;
    ParseUnsigned(d, rest);
    assert t[0] == d[0];
    NoLeadingSpace(t);
    assert Unsigned(t) == t;
  }

  /** A numeral after a minus sign, followed by anything that is not a digit. */
  lemma ParseNegative(d: string, rest: string)
    requires d != [] && AllDigits(d) && (rest == [] || !IsDigit(rest[0]))
    ensures ParseInt(['-'] + (d + rest)) == Some(-(DigitsValue(d) as int))
  {
    var t := ['-'] + (d + rest);
    assert t[0] == '-';
    assert TrimStart(t) == t by { NoLeadingSpace(t); }
    assert Unsigned(t) == d + rest by { assert t[1..] == d + rest; }
    assert LeadingValue(d + rest) == Some(DigitsValue(d)) by { ParseUnsigned(d, rest); }
  }

  /** `parseInt` reads back what `String(k)` writes, for every integer, and
      ignores whatever follows the number when it does not start with a digit. */
  lemma ParseIntOfIntText(k: int, rest: string)
    requires rest == [] || !IsDigit(rest[0])
    ensures ParseInt(IntText(k) + rest) == Some(k)
  {
    var m: nat := if k < 0 then -k else k;
    DigitsValueOfDecimal(m);
    if k < 0 {
      NegativeIntText(k, rest);
      ParseNegative(Decimal(m), rest);
    } else {
      assert IntText(k) == Decimal(m);
      ParseNonNegative(Decimal(m), rest);
    }
  }

  /** A text that does not start with white space and holds no digit, such as
      "px", "-" or "", reads as NaN. */
  lemma ParseIntWithoutDigits(s: string)
    requires s == [] || !IsSpace(s[0])
    requires forall k :: 0 <= k < |s| ==> !IsDigit(s[k])
    ensures ParseInt(s) == None
  {
    if s != [] {
      NoLeadingSpace(s);
    }
    var u := Unsigned(s);
    assert u == [] || !IsDigit(u[0]) by {
      if u != [] {
        assert u[0] == s[|s| - |u|];
      }
    }
  }

  // --------------------------------------------------------- namespaces

  datatype Throttle = Throttle(ttl: Option<int>, limit: Option<int>)

  /** The `app` namespace. A port or throttle setting that does not start with a
      number reads as NaN (`None`). */
  datatype AppConfig = AppConfig(port: Option<int>, nodeEnv: string, corsOrigin: string, throttle: Throttle)

  const DEFAULT_PORT: int := 3000

  function AppConfigOf(env: Env): (c: AppConfig)
    ensures "PORT" !in env || env["PORT"] == "" ==> c.port == Some(DEFAULT_PORT)
    ensures "PORT" in env && env["PORT"] != "" ==> c.port == ParseInt(env["PORT"])
  {
    var port := if "PORT" in env && env["PORT"] != "" then ParseInt(env["PORT"]) else Some(DEFAULT_PORT);
    AppConfig(
      port,
      EnvOr(env, "NODE_ENV", "development"),
      EnvOr(env, "CORS_ORIGIN", "http://localhost:80"),
      Throttle(ParseInt(EnvOr(env, "THROTTLE_TTL", "60")), ParseInt(EnvOr(env, "THROTTLE_LIMIT", "10"))))
  }

  /** The `database` namespace. */
  datatype DatabaseConfig = DatabaseConfig(uri: string)

  function DatabaseConfigOf(env: Env): (c: DatabaseConfig)
    ensures c.uri != ""
  {
    DatabaseConfig(EnvOr(env, "MONGODB_URI", "mongodb://localhost:27017/easy-generator"))
  }

  /** The `auth` namespace. */
  datatype AuthConfig = AuthConfig(jwtSecret: string, jwtExpiration: string)

  function AuthConfigOf(env: Env): (c: AuthConfig)
    ensures c.jwtSecret != "" && c.jwtExpiration != ""
  {
    AuthConfig(EnvOr(env, "JWT_SECRET", "your-super-secret-key-change-in-production"),
               EnvOr(env, "JWT_EXPIRATION", "15d"))
  }

  /** With nothing set, every namespace takes its fallback: port 3000, the
      development environment, the local origin and database. */
  lemma EmptyEnvironmentDefaults()
    ensures AppConfigOf(map[]).port == Some(3000)
    ensures AppConfigOf(map[]).nodeEnv == "development"
    ensures AppConfigOf(map[]).corsOrigin == "http://localhost:80"
    ensures DatabaseConfigOf(map[]).uri == "mongodb://localhost:27017/easy-generator"
  {
  }

  /** With nothing set, the throttle window is 60 ... */
  lemma ThrottleTtlDefault(env: Env)
    requires "THROTTLE_TTL" !in env
    ensures AppConfigOf(env).throttle.ttl == Some(60)
  {
    ParseTwoDigits('6', '0');
  }

  /** ... and the throttle limit 10. */
  lemma ThrottleLimitDefault(env: Env)
    requires "THROTTLE_LIMIT" !in env
    ensures AppConfigOf(env).throttle.limit == Some(10)
  {
    ParseTwoDigits('1', '0');
  }

  lemma ParseTwoDigits(a: char, b: char)
    requires IsDigit(a) && IsDigit(b)
    ensures ParseInt([a, b]) == Some(DigitValue(a) * 10 + DigitValue(b))
  {
    var d := [a, b];
    assert DigitsValue([a]) == DigitValue(a) by {
      assert [a][..0] == [];
    }
    assert DigitsValue(d) == DigitValue(a) * 10 + DigitValue(b) by {
      assert d[..1] == [a];
    }
    assert d + [] == d;
    ParseNonNegative(d, []);
  }

  /** With no expiration set, the `auth` namespace gives tokens, and the sessions
      made for them, fifteen days. */
  lemma DefaultExpirationIsFifteenDays(env: Env)
    requires "JWT_EXPIRATION" !in env
    ensures AuthConfigOf(env).jwtExpiration == "15d"
    ensures Duration.DurationMs(Duration.ExpiresIn(Some(AuthConfigOf(env).jwtExpiration))) == 15 * Duration.DAY_MS
  {
    assert Duration.DurationMs("15d") == 15 * Duration.DAY_MS by {
      Duration.DurationOfNumeral(15, 'd');
      assert Decimal(15) + ['d'] == "15d";
    }
  }

  /** The `auth` namespace always yields a secret, so the strategy's check for a
      missing one never fires; with no secret set, the published fallback signs. */
  lemma SecretAlwaysConfigured(env: Env)
    ensures JwtStrategy.SecretCheck(Some(AuthConfigOf(env).jwtSecret)).Ok?
    ensures "JWT_SECRET" !in env ==>
              JwtStrategy.SecretCheck(Some(AuthConfigOf(env).jwtSecret)).value == "your-super-secret-key-change-in-production"
  {
  }

  // ---------------------------------------------------------- the schema

  const NODE_ENVS: set<string> := {"development", "production", "test"}

  /** The keys the schema declares. */
  const SCHEMA_KEYS: set<string> :=
    {"PORT", "MONGODB_URI", "JWT_SECRET", "JWT_EXPIRATION", "NODE_ENV", "THROTTLE_TTL", "THROTTLE_LIMIT"}

  /** Whether the schema accepts what the environment holds under `key`.
      `isNumber` is the schema's number test, which is not part of this model; a
      string key refuses the empty string; the two required keys must be present. */
  predicate KeyAccepted(env: Env, key: string, isNumber: string -> bool) {
    if key in {"PORT", "THROTTLE_TTL", "THROTTLE_LIMIT"} then key !in env || isNumber(env[key])
    else if key in {"MONGODB_URI", "JWT_SECRET"} then key in env && env[key] != ""
    else if key == "JWT_EXPIRATION" then key !in env || env[key] != ""
    else if key == "NODE_ENV" then key !in env || env[key] in NODE_ENVS
    else true
  }

  /** The declared keys the environment fails on. */
  function SchemaErrors(env: Env, isNumber: string -> bool): (r: set<string>)
    ensures r <= SCHEMA_KEYS
    ensures "MONGODB_URI" !in env ==> "MONGODB_URI" in r
    ensures "JWT_SECRET" !in env ==> "JWT_SECRET" in r
  {
    set key | key in SCHEMA_KEYS && !KeyAccepted(env, key, isNumber)
  }

  /** The schema's defaults, written as strings. The throttle defaults read the
      variable they default, which is absent whenever its default applies. */
  function SchemaDefaults(env: Env): Env {
    map[
      "PORT" := "3000",
      "JWT_EXPIRATION" := "1d",
      "NODE_ENV" := "development",
      "THROTTLE_TTL" := EnvOr(env, "THROTTLE_TTL", "60"),
      "THROTTLE_LIMIT" := EnvOr(env, "THROTTLE_LIMIT", "10")
    ]
  }

  /** The environment the namespaces are read from once the schema has passed:
      its defaults are added for the keys that were absent, and present keys keep
      their own strings. A failing schema stops the start-up. */
  function ValidatedEnv(env: Env, isNumber: string -> bool): (r: Result<Env>)
    ensures r.Fail? <==> SchemaErrors(env, isNumber) != {}
    ensures r.Ok? ==> forall key :: key in env ==> key in r.value && r.value[key] == env[key]
  {
    if SchemaErrors(env, isNumber) != {} then Fail(Internal("Config validation error"))
    else Ok(map key | key in env.Keys + SchemaDefaults(env).Keys ::
              if key in env then env[key] else SchemaDefaults(env)[key])
  }

  lemma AcceptedWithoutErrors(env: Env, isNumber: string -> bool, key: string)
    requires key in SCHEMA_KEYS
    ensures SchemaErrors(env, isNumber) == {} ==> KeyAccepted(env, key, isNumber)
  {
    if !KeyAccepted(env, key, isNumber) {
      assert key in SchemaErrors(env, isNumber);
    }
  }

  /** After validation the fallbacks of the `auth` namespace are never taken: the
      secret is the configured one, and an absent expiration reads as the
      schema's one day, not the namespace's fifteen. */
  lemma ValidatedAuthConfig(env: Env, isNumber: string -> bool)
    requires ValidatedEnv(env, isNumber).Ok?
    ensures AuthConfigOf(ValidatedEnv(env, isNumber).value).jwtSecret == env["JWT_SECRET"]
    ensures "JWT_EXPIRATION" !in env ==> AuthConfigOf(ValidatedEnv(env, isNumber).value).jwtExpiration == "1d"
    ensures "JWT_EXPIRATION" in env ==> AuthConfigOf(ValidatedEnv(env, isNumber).value).jwtExpiration == env["JWT_EXPIRATION"]
  {
    AcceptedWithoutErrors(env, isNumber, "JWT_SECRET");
    AcceptedWithoutErrors(env, isNumber, "JWT_EXPIRATION");
    var e := ValidatedEnv(env, isNumber).value;
    assert "JWT_EXPIRATION" in SchemaDefaults(env);
  }

  /** After validation the environment name is one of the three the schema allows. */
  lemma ValidatedNodeEnv(env: Env, isNumber: string -> bool)
    requires ValidatedEnv(env, isNumber).Ok?
    ensures AppConfigOf(ValidatedEnv(env, isNumber).value).nodeEnv in NODE_ENVS
  {
    AcceptedWithoutErrors(env, isNumber, "NODE_ENV");
    assert "NODE_ENV" in SchemaDefaults(env);
  }
}
