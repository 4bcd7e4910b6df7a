/** The sign-up body of the auth module: an email, a name of three or more
    characters, a password of the server's pattern, three non-empty profile
    strings and two booleans. */
module CreateUserDto {
  import opened Common
  import opened Text
  import opened Patterns
  import opened ClassValidator

  /** The decorators, property by property. */
  const RULES: set<Rule> := {
    Rule("email", IsEmail),
    Rule("name", IsString), Rule("name", MinLength(3)),
    Rule("password", IsString), Rule("password", MinLength(8)), Rule("password", MatchesPassword),
    Rule("phoneNumber", IsString), Rule("phoneNumber", IsNotEmpty),
    Rule("countryCode", IsString), Rule("countryCode", IsNotEmpty),
    Rule("companySize", IsString), Rule("companySize", IsNotEmpty),
    Rule("agreeToEula", IsBoolean), Rule("agreeToEula", IsNotEmpty),
    Rule("agreeToMarketing", IsBoolean)
  }

  predicate TextAt(body: Body, key: string) {
    key in body && body[key].JString?
  }

  predicate FilledAt(body: Body, key: string) {
    TextAt(body, key) && body[key].s != ""
  }

  predicate FlagAt(body: Body, key: string) {
    key in body && body[key].JBool?
  }

  /** What the validation pipe reports for a sign-up body. */
  function ValidateSignup(body: Body, isEmail: string -> bool): (r: set<Violation>)
    ensures forall v :: v in r ==> v.property in {"email", "name", "password", "phoneNumber", "countryCode",
                                                  "companySize", "agreeToEula", "agreeToMarketing"}
  {
    Validate(RULES, body, isEmail)
  }

  /** A sign-up body passes exactly when it carries all eight properties, each
      of the kind and shape its decorators demand. The booleans need only be
      booleans: `false` for the EULA passes. */
  lemma SignupAcceptedIff(body: Body, isEmail: string -> bool)
    ensures ValidateSignup(body, isEmail) == {} <==>
              && TextAt(body, "email") && isEmail(body["email"].s)
              && TextAt(body, "name") && ValidatorLength(body["name"].s) >= 3
              && TextAt(body, "password") && PasswordPattern(body["password"].s)
              && FilledAt(body, "phoneNumber") && FilledAt(body, "countryCode") && FilledAt(body, "companySize")
              && FlagAt(body, "agreeToEula") && FlagAt(body, "agreeToMarketing")
  {
    ValidateEmptyIff(RULES, body, isEmail);
    if forall rule :: rule in RULES ==> Holds(rule.check, Get(body, rule.property), isEmail) {
      ShapedWhenRulesHold(body, isEmail);
    }
    if Shaped(body, isEmail) {
      RulesHoldWhenShaped(body, isEmail);
    }
  }

  /** The conditions of `SignupAcceptedIff`, property by property. */
  predicate Shaped(body: Body, isEmail: string -> bool) {
    && TextAt(body, "email") && isEmail(body["email"].s)
    && TextAt(body, "name") && ValidatorLength(body["name"].s) >= 3
    && TextAt(body, "password") && PasswordPattern(body["password"].s)
    && FilledAt(body, "phoneNumber") && FilledAt(body, "countryCode") && FilledAt(body, "companySize")
    && FlagAt(body, "agreeToEula") && FlagAt(body, "agreeToMarketing")
  }

  lemma ShapedWhenRulesHold(body: Body, isEmail: string -> bool)
    requires forall rule :: rule in RULES ==> Holds(rule.check, Get(body, rule.property), isEmail)
    ensures Shaped(body, isEmail)
  {
    assert Rule("email", IsEmail) in RULES;
    assert Rule("name", MinLength(3)) in RULES;
    assert Rule("password", MatchesPassword) in RULES;
    assert Rule("phoneNumber", IsNotEmpty) in RULES;
    assert Rule("countryCode", IsNotEmpty) in RULES;
    assert Rule("companySize", IsNotEmpty) in RULES;
    assert Rule("phoneNumber", IsString) in RULES;
    assert Rule("countryCode", IsString) in RULES;
    assert Rule("companySize", IsString) in RULES;
    assert Rule("agreeToEula", IsBoolean) in RULES;
    assert Rule("agreeToMarketing", IsBoolean) in RULES;
  }

  lemma RulesHoldWhenShaped(body: Body, isEmail: string -> bool)
    requires Shaped(body, isEmail)
    ensures forall rule :: rule in RULES ==> Holds(rule.check, Get(body, rule.property), isEmail)
  {
    AllowedLength(body["password"].s);
  }

  /** `MinLength(8)` on the password adds nothing: a too-short password also
      fails the pattern. */
  lemma PatternImpliesMinLength(body: Body, isEmail: string -> bool)
    ensures Violation("password", "minLength") in ValidateSignup(body, isEmail) ==>
              Violation("password", "matches") in ValidateSignup(body, isEmail)
  {
    var pattern := Rule("password", MatchesPassword);
    if TextAt(body, "password") && PasswordPattern(body["password"].s) {
      AllowedLength(body["password"].s);
      assert Holds(MinLength(8), Get(body, "password"), isEmail);
    } else {
      assert pattern in RULES && !Holds(pattern.check, Get(body, pattern.property), isEmail);
    }
  }

  /** The EULA flag must be a boolean, not `true`: declining it raises no
      failure on that property. */
  lemma DeclinedEulaAccepted(body: Body, isEmail: string -> bool)
    requires Get(body, "agreeToEula") == Some(JBool(false))
    ensures forall v :: v in ValidateSignup(body, isEmail) ==> v.property != "agreeToEula"
  {
    forall v | v in ValidateSignup(body, isEmail) ensures v.property != "agreeToEula" {
      var rule :| rule in RULES && !Holds(rule.check, Get(body, rule.property), isEmail)
                  && v == Violation(rule.property, ConstraintName(rule.check));
      assert rule.property == "agreeToEula" ==> rule.check in {IsBoolean, IsNotEmpty};
    }
  }
}
