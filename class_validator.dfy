/** The decorator checks the request DTOs use, as the validation pipe applies
    them to a parsed JSON body: every declared check runs, a missing property
    included, and each failed one is reported as (property, constraint). */
module ClassValidator {
  import opened Common
  import opened Text
  import opened Patterns

  /** A JSON value as the checks see it: numbers, arrays and objects are told
      apart from strings, booleans and null and from nothing else. */
  datatype JsonValue = JString(s: string) | JBool(b: bool) | JNull | JOther

  /** A request body; an absent key is `undefined`. */
  type Body = map<string, JsonValue>

  datatype Check = IsEmail | IsString | MinLength(min: nat) | MatchesPassword | IsNotEmpty | IsBoolean

  /** A decorator on a property. */
  datatype Rule = Rule(property: string, check: Check)

  /** The constraint name a failure is reported under. */
  function ConstraintName(c: Check): string {
    match c
    case IsEmail => "isEmail"
    case IsString => "isString"
    case MinLength(_) => "minLength"
    case MatchesPassword => "matches"
    case IsNotEmpty => "isNotEmpty"
    case IsBoolean => "isBoolean"
  }

  function Get(body: Body, property: string): Option<JsonValue> {
    if property in body then Some(body[property]) else None
  }

  /** The variation selectors U+FE0E and U+FE0F in `s`. */
  function Selectors(s: string): (n: nat)
    ensures n <= |s|
  {
    if s == [] then 0
    else Selectors(s[..|s| - 1]) + (if s[|s| - 1] in {'\U{FE0E}', '\U{FE0F}'} then 1 else 0)
  }

  /** The length `MinLength` compares: code points, not counting the variation
      selectors. */
  function ValidatorLength(s: string): nat {
    |s| - Selectors(s)
  }

  /** A string of allowed password characters is measured by its plain length. */
  lemma {:induction false} AllowedLength(s: string)
    requires AllAllowed(s)
    ensures ValidatorLength(s) == |s|
  {
    if s != [] {
      var init := s[..|s| - 1];
      assert AllAllowed(init) by {
        forall k | 0 <= k < |init| ensures IsAllowed(init[k]) {
          assert init[k] == s[k];
        }
      }
      AllowedLength(init);
      assert IsAllowed(s[|s| - 1]);
    }
  }

  /** Whether one check accepts the value found (or not found) under its property. */
  predicate Holds(check: Check, v: Option<JsonValue>, isEmail: string -> bool) {
    match check
    case IsEmail => v.Some? && v.value.JString? && isEmail(v.value.s)
    case IsString => v.Some? && v.value.JString?
    case MinLength(min) => v.Some? && v.value.JString? && ValidatorLength(v.value.s) >= min
    case MatchesPassword => v.Some? && v.value.JString? && PasswordPattern(v.value.s)
    case IsNotEmpty => v.Some? && v.value != JNull && v.value != JString("")
    case IsBoolean => v.Some? && v.value.JBool?
  }

  /** The failures of a body against a set of rules. */
  function Validate(rules: set<Rule>, body: Body, isEmail: string -> bool): set<Violation> {
    set rule | rule in rules && !Holds(rule.check, Get(body, rule.property), isEmail) ::
      Violation(rule.property, ConstraintName(rule.check))
  }

  /** A body passes exactly when every rule holds. */
  lemma ValidateEmptyIff(rules: set<Rule>, body: Body, isEmail: string -> bool)
    ensures Validate(rules, body, isEmail) == {} <==>
              forall rule :: rule in rules ==> Holds(rule.check, Get(body, rule.property), isEmail)
  {
    if exists rule :: rule in rules && !Holds(rule.check, Get(body, rule.property), isEmail) {
      var rule :| rule in rules && !Holds(rule.check, Get(body, rule.property), isEmail);
      assert Violation(rule.property, ConstraintName(rule.check)) in Validate(rules, body, isEmail);
    }
  }

  /** Every failure names a declared property and one of its checks. */
  lemma ViolationsAreDeclared(rules: set<Rule>, body: Body, isEmail: string -> bool, v: Violation)
    requires v in Validate(rules, body, isEmail)
    ensures exists rule :: rule in rules && rule.property == v.property && ConstraintName(rule.check) == v.constraint
  {
  }

  /** Fewer rules, fewer failures. */
  lemma ValidateMonotone(fewer: set<Rule>, more: set<Rule>, body: Body, isEmail: string -> bool)
    requires fewer <= more
    ensures Validate(fewer, body, isEmail) <= Validate(more, body, isEmail)
  {
  }

  /** Properties no rule names do not change the outcome. */
  lemma UndeclaredIgnored(rules: set<Rule>, body: Body, isEmail: string -> bool, key: string, v: JsonValue)
    requires forall rule :: rule in rules ==> rule.property != key
    ensures Validate(rules, body[key := v], isEmail) == Validate(rules, body, isEmail)
  {
    forall rule | rule in rules ensures Get(body[key := v], rule.property) == Get(body, rule.property) {
    }
  }
}
