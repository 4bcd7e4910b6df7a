/** The session lifetime computed by `createSession`: the configured
    `auth.jwtExpiration` string, read as `<digits><unit>` with unit d, h, m or s,
    turned into milliseconds, with one day as the fallback. */
module Duration {
  import opened Common
  import opened Text

  const SECOND_MS: nat := 1000
  const MINUTE_MS: nat := 60 * SECOND_MS
  const HOUR_MS: nat := 60 * MINUTE_MS
  const DAY_MS: nat := 24 * HOUR_MS

  /** The lifetime the service falls back to when no expiration is configured. */
  const DEFAULT_EXPIRES_IN: string := "1d"

  /** A unit the pattern `[dhms]` admits. */
  predicate IsUnit(c: char) {
    c == 'd' || c == 'h' || c == 'm' || c == 's'
  }

  /** The literal table `multipliers`: milliseconds per unit, and nothing for any other key. */
  function Multiplier(unit: char): (r: Option<nat>)
    ensures r.Some? <==> IsUnit(unit)
    ensures r.Some? ==> r.value > 0
  {
    if unit == 'd' then Some(DAY_MS)
    else if unit == 'h' then Some(HOUR_MS)
    else if unit == 'm' then Some(MINUTE_MS)
    else if unit == 's' then Some(SECOND_MS)
    else None
  }

  /** `expiresIn.match(/^(\d+)([dhms])$/)`: one or more ASCII digits, then one unit,
      then the end of the string; on a match, the amount as `parseInt` reads it and the unit. */
  function MatchDuration(expiresIn: string): (r: Option<(nat, char)>)
    ensures r.Some? <==> |expiresIn| >= 2 && AllDigits(expiresIn[..|expiresIn| - 1])
                         && IsUnit(expiresIn[|expiresIn| - 1])
  {
    var n := |expiresIn|;
    if n >= 2 && AllDigits(expiresIn[..n - 1]) && IsUnit(expiresIn[n - 1])
    then Some((DigitsValue(expiresIn[..n - 1]), expiresIn[n - 1]))
    else None
  }

  /** `configService.get('auth.jwtExpiration') || '1d'`: a missing or empty setting reads as one day. */
  function ExpiresIn(configured: Option<string>): (r: string)
    ensures r != []
    ensures configured.Some? && configured.value != [] ==> r == configured.value
  {
    if configured.Some? && configured.value != [] then configured.value else DEFAULT_EXPIRES_IN
  }

  /** The milliseconds `createSession` adds to the current time, branch for branch
      as the source has them: a matched amount times its unit's multiplier, and
      one day both when the unit has no multiplier and when the pattern does not match. */
  function DurationMs(expiresIn: string): (r: nat)
    ensures r % SECOND_MS == 0
    ensures MatchDuration(expiresIn).None? ==> r == DAY_MS
  {
    match MatchDuration(expiresIn)
    case Some((amount, unit)) =>
      (match Multiplier(unit)
       case Some(multiplier) => amount * multiplier
       case None => DAY_MS)
    case None => DAY_MS
  }

  /** The unit-has-no-multiplier branch is dead: every unit the pattern admits is in the table. */
  lemma InnerFallbackUnreachable(expiresIn: string)
    requires MatchDuration(expiresIn).Some?
    ensures Multiplier(MatchDuration(expiresIn).value.1).Some?
  {
  }

  /** Writing an amount and a unit gives back exactly amount times the unit's length. */
  lemma DurationOfNumeral(amount: nat, unit: char)
    requires IsUnit(unit)
    ensures DurationMs(Decimal(amount) + [unit]) == amount * Multiplier(unit).value
  {
    var s := Decimal(amount) + [unit];
    assert s[..|s| - 1] == Decimal(amount);
    DigitsValueOfDecimal(amount);
  }

  /** Any string that is not `<digits><unit>` gets exactly one day. */
  lemma DurationFallback(expiresIn: string)
    requires !(|expiresIn| >= 2 && AllDigits(expiresIn[..|expiresIn| - 1]) && IsUnit(expiresIn[|expiresIn| - 1]))
    ensures DurationMs(expiresIn) == DAY_MS
  {
  }

  /** The duration is zero exactly for a zero amount ("0s", "00d", ...), so the
      expiry of a new session is never before its creation and equals it only then. */
  lemma DurationZeroIff(expiresIn: string)
    ensures DurationMs(expiresIn) == 0 <==>
            MatchDuration(expiresIn).Some? && MatchDuration(expiresIn).value.0 == 0
  {
  }

  /** The unset setting means one day. */
  lemma MissingSettingIsOneDay()
    ensures DurationMs(ExpiresIn(None)) == DAY_MS
    ensures DurationMs(ExpiresIn(Some(""))) == DAY_MS
  {
    DurationOfNumeral(1, 'd');
  }

  /** The worked examples "1d", "2h", "30m", "45s" and "15d". */
  lemma DurationExamples()
    ensures DurationMs("1d") == 86400000
    ensures DurationMs("2h") == 7200000
    ensures DurationMs("30m") == 1800000
    ensures DurationMs("45s") == 45000
    ensures DurationMs("15d") == 15 * 86400000
  {
    DurationOfNumeral(1, 'd');
    DurationOfNumeral(2, 'h');
    TwoDigitExample(3, 0, 'm');
    assert [DigitChar(3), DigitChar(0), 'm'] == "30m";
    TwoDigitExample(4, 5, 's');
    assert [DigitChar(4), DigitChar(5), 's'] == "45s";
    TwoDigitExample(1, 5, 'd');
    assert [DigitChar(1), DigitChar(5), 'd'] == "15d";
  }

  lemma TwoDigitExample(tens: nat, ones: nat, unit: char)
    requires 1 <= tens < 10 && ones < 10 && IsUnit(unit)
    ensures DurationMs([DigitChar(tens), DigitChar(ones), unit]) == (10 * tens + ones) * Multiplier(unit).value
  {
    var n := 10 * tens + ones;
    assert n / 10 == tens && n % 10 == ones;
    assert Decimal(n) == Decimal(tens) + [DigitChar(ones)] == [DigitChar(tens), DigitChar(ones)];
    assert Decimal(n) + [unit] == [DigitChar(tens), DigitChar(ones), unit];
    DurationOfNumeral(n, unit);
  }

  /** Malformed settings fall back to one day. */
  lemma MalformedExamples()
    ensures DurationMs("garbage") == DAY_MS
    ensures DurationMs("1w") == DAY_MS
    ensures DurationMs("d") == DAY_MS
    ensures DurationMs("1.5h") == DAY_MS
  {
    assert "garbage"[|"garbage"| - 1] == 'e';
    assert "1w"[1] == 'w';
    assert "1.5h"[..3][1] == '.';
  }
}
