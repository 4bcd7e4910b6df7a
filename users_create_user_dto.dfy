/** The reduced sign-up body of the users module: only the email, the name and
    the password are declared, with the same checks as the auth module's body. */
module UsersCreateUserDto {
  import opened Common
  import opened ClassValidator
  import CreateUserDto

  const RULES: set<Rule> := {
    Rule("email", IsEmail),
    Rule("name", IsString), Rule("name", MinLength(3)),
    Rule("password", IsString), Rule("password", MinLength(8)), Rule("password", MatchesPassword)
  }

  function ValidateUser(body: Body, isEmail: string -> bool): (r: set<Violation>)
    ensures forall v :: v in r ==> v.property in {"email", "name", "password"}
  {
    Validate(RULES, body, isEmail)
  }

  /** Profile properties are not looked at: whatever they hold, the outcome is the same. */
  lemma ProfileIgnored(body: Body, isEmail: string -> bool, key: string, v: JsonValue)
    requires key !in {"email", "name", "password"}
    ensures ValidateUser(body[key := v], isEmail) == ValidateUser(body, isEmail)
  {
    UndeclaredIgnored(RULES, body, isEmail, key, v);
  }

  /** Every failure of the reduced body is a failure of the full one, on the
      same three properties: the reduced body is the full one's restriction. */
  lemma ReducedIsRestriction(body: Body, isEmail: string -> bool)
    ensures ValidateUser(body, isEmail) ==
            set v | v in CreateUserDto.ValidateSignup(body, isEmail) && v.property in {"email", "name", "password"}
  {
    ValidateMonotone(RULES, CreateUserDto.RULES, body, isEmail);
    forall v | v in CreateUserDto.ValidateSignup(body, isEmail) && v.property in {"email", "name", "password"}
      ensures v in ValidateUser(body, isEmail)
    {
      var rule :| rule in CreateUserDto.RULES && !Holds(rule.check, Get(body, rule.property), isEmail)
                  && v == Violation(rule.property, ConstraintName(rule.check));
      assert rule in RULES;
    }
  }
}
