/** The regular expressions the validators use, stated as what a match means.
    Without the `m` flag `^` and `$` stand for the ends of the string; `.`
    matches any character but a line terminator; `\d` is an ASCII digit and `\S`
    anything outside the white-space set. */
module Patterns {
  import opened Text

  /** `[@$!%*#?&]` */
  predicate IsSpecial(c: char) {
    c in {'@', '$', '!', '%', '*', '#', '?', '&'}
  }

  /** `[A-Za-z\d@$!%*#?&]` */
  predicate IsAllowed(c: char) {
    IsLetter(c) || IsDigit(c) || IsSpecial(c)
  }

  predicate AllAllowed(s: string) {
    forall k :: 0 <= k < |s| ==> IsAllowed(s[k])
  }

  predicate Has(s: string, p: char -> bool) {
    exists k :: 0 <= k < |s| && p(s[k])
  }

  /** `(?=.*X)` tried at position `p`: some character of class X follows, with no
      line terminator before it. */
  predicate LookAhead(s: string, p: nat, x: char -> bool) {
    exists k :: p <= k < |s| && x(s[k]) && forall m :: p <= m < k ==> !IsLineTerminator(s[m])
  }

  /** The three look-aheads of the password pattern at position `p`. */
  predicate LookAheads(s: string, p: nat) {
    LookAhead(s, p, IsLetter) && LookAhead(s, p, IsDigit) && LookAhead(s, p, IsSpecial)
  }

  /** `/^(?=.*[A-Za-z])(?=.*\d)(?=.*[@$!%*#?&])[A-Za-z\d@$!%*#?&]{8,}$/`, the
      server's password rule: the look-aheads at the start, then eight or more
      allowed characters running to the end. */
  predicate PasswordPattern(s: string) {
    LookAheads(s, 0) && |s| >= 8 && AllAllowed(s)
  }

  /** The same pattern without `^` and `$`, as the sign-up forms test it: some
      position where the look-aheads hold and eight allowed characters follow
      (the greedy `{8,}` needs no more than eight to succeed). */
  predicate PasswordPatternUnanchored(s: string) {
    exists p :: 0 <= p && p + 8 <= |s| && LookAheads(s, p) && AllAllowed(s[p..p + 8])
  }

  /** The anchored pattern accepts exactly the strings of eight or more allowed
      characters that hold a letter, a digit and a special character. */
  lemma PasswordPatternIff(s: string)
    ensures PasswordPattern(s) <==>
              && |s| >= 8 && AllAllowed(s)
              && Has(s, IsLetter) && Has(s, IsDigit) && Has(s, IsSpecial)
  {
    if |s| >= 8 && AllAllowed(s) && Has(s, IsLetter) && Has(s, IsDigit) && Has(s, IsSpecial) {
      AllowedHasNoLineTerminator(s);
      HasLooksAhead(s, IsLetter);
      HasLooksAhead(s, IsDigit);
      HasLooksAhead(s, IsSpecial);
    }
  }

  lemma AllowedHasNoLineTerminator(s: string)
    requires AllAllowed(s)
    ensures forall m :: 0 <= m < |s| ==> !IsLineTerminator(s[m])
  {
    forall m | 0 <= m < |s| ensures !IsLineTerminator(s[m]) {
      assert IsAllowed(s[m]);
    }
  }

  lemma HasLooksAhead(s: string, x: char -> bool)
    requires Has(s, x)
    requires forall m :: 0 <= m < |s| ==> !IsLineTerminator(s[m])
    ensures LookAhead(s, 0, x)
  {
    var k :| 0 <= k < |s| && x(s[k]);
    assert forall m :: 0 <= m < k ==> !IsLineTerminator(s[m]);
  }

  /** Whatever the server's pattern accepts, the forms' pattern accepts too. */
  lemma AnchoredImpliesUnanchored(s: string)
    requires PasswordPattern(s)
    ensures PasswordPatternUnanchored(s)
  {
    assert AllAllowed(s[0..8]) by {
      forall k | 0 <= k < 8 ensures IsAllowed(s[0..8][k]) {
        assert s[0..8][k] == s[k];
      }
    }
  }

  /** The converse fails: a trailing space is outside the allowed characters, so
      the server refuses "Passw0rd! " while the forms accept it. */
  lemma TrailingSpaceAcceptedOnlyUnanchored()
    ensures PasswordPatternUnanchored("Passw0rd! ")
    ensures !PasswordPattern("Passw0rd! ")
  {
    var s := "Passw0rd! ";
    assert IsLetter(s[0]) && IsDigit(s[5]) && IsSpecial(s[8]);
    assert forall m :: 0 <= m < 8 ==> !IsLineTerminator(s[m]);
    assert AllAllowed(s[0..8]);
    assert LookAheads(s, 0);
    assert !IsAllowed(s[9]);
  }

  /** The documented example password passes the server's rule. */
  lemma ExamplePasswordAccepted()
    ensures PasswordPattern("Password123!")
  {
    var p := "Password123!";
    assert IsLetter(p[0]) && IsDigit(p[8]) && IsSpecial(p[11]);
    assert AllAllowed(p);
    PasswordPatternIff(p);
  }

  predicate NonSpace(s: string) {
    forall k :: 0 <= k < |s| ==> !IsSpace(s[k])
  }

  /** `\S+@\S+\.\S+` matching `s[a..e]`, with the `@` at `at` and the `.` at `dot`. */
  predicate EmailMatch(s: string, a: int, at: int, dot: int, e: int) {
    && 0 <= a < at && at + 1 < dot && dot + 1 < e <= |s|
    && NonSpace(s[a..at]) && s[at] == '@' && NonSpace(s[at + 1..dot]) && s[dot] == '.' && NonSpace(s[dot + 1..e])
  }

  /** `/\S+@\S+\.\S+/.test(s)`: the pattern matches somewhere in the string. */
  predicate LooksLikeEmail(s: string) {
    exists a, at, dot, e | 0 <= a <= |s| && 0 <= at <= |s| && 0 <= dot <= |s| && 0 <= e <= |s| ::
      EmailMatch(s, a, at, dot, e)
  }

  /** The shortest match decides: an `@` with a non-space character just before
      it, then non-space characters up to a `.`, and a non-space character after it. */
  predicate EmailWitness(s: string, at: int, dot: int) {
    && 0 < at && at + 1 < dot && dot + 1 < |s|
    && !IsSpace(s[at - 1]) && s[at] == '@' && NonSpace(s[at + 1..dot]) && s[dot] == '.' && !IsSpace(s[dot + 1])
  }

  lemma LooksLikeEmailIff(s: string)
    ensures LooksLikeEmail(s) <==> exists at, dot :: EmailWitness(s, at, dot)
  {
    if LooksLikeEmail(s) {
      var a, at, dot, e :| 0 <= a <= |s| && 0 <= at <= |s| && 0 <= dot <= |s| && 0 <= e <= |s| &&
        EmailMatch(s, a, at, dot, e);
      MatchHasWitness(s, a, at, dot, e);
    }
    if exists at, dot :: EmailWitness(s, at, dot) {
      var at, dot :| EmailWitness(s, at, dot);
      WitnessMatches(s, at, dot);
    }
  }

  lemma MatchHasWitness(s: string, a: int, at: int, dot: int, e: int)
    requires EmailMatch(s, a, at, dot, e)
    ensures EmailWitness(s, at, dot)
  {
    assert s[a..at][at - 1 - a] == s[at - 1];
    assert s[dot + 1..e][0] == s[dot + 1];
  }

  lemma WitnessMatches(s: string, at: int, dot: int)
    requires EmailWitness(s, at, dot)
    ensures LooksLikeEmail(s)
  {
    assert NonSpace(s[at - 1..at]) && NonSpace(s[dot + 1..dot + 2]);
    assert EmailMatch(s, at - 1, at, dot, dot + 2);
  }

  /** Inputs the forms' email test accepts: the match need not span the string. */
  lemma EmailAccepted()
    ensures LooksLikeEmail("user@example.com")
    ensures LooksLikeEmail("say hi to a@b.c now")
  {
    WitnessMatches("user@example.com", 4, 12);
    WitnessMatches("say hi to a@b.c now", 11, 13);
  }

  /** Inputs it refuses: no dot after the `@`, a space inside the match, nothing at all. */
  lemma EmailRefused()
    ensures !LooksLikeEmail("a@b")
    ensures !LooksLikeEmail("a@ b.c")
    ensures !LooksLikeEmail("")
  {
    LooksLikeEmailIff("a@b");
    LooksLikeEmailIff("a@ b.c");
    var s := "a@ b.c";
    forall at, dot ensures !EmailWitness(s, at, dot) {
      if 0 < at && at + 1 < dot && dot < |s| && s[at] == '@' {
        assert at == 1;
        assert s[at + 1..dot][0] == s[2];
      }
    }
    LooksLikeEmailIff("");
  }

  // ------------------------------------------------ the browser's email rule

  /** A character the HTML standard's valid e-mail address admits before the `@`. */
  predicate IsLocalChar(c: char) {
    IsLetter(c) || IsDigit(c) || c in ".!#$%&'*+/=?^_`{|}~-"
  }

  predicate IsLabelChar(c: char) {
    IsLetter(c) || IsDigit(c) || c == '-'
  }

  /** A domain label: one to 63 letters, digits and hyphens, with no hyphen at either end. */
  predicate IsLabel(l: string) {
    && 1 <= |l| <= 63
    && (forall k :: 0 <= k < |l| ==> IsLabelChar(l[k]))
    && l[0] != '-' && l[|l| - 1] != '-'
  }

  /** The HTML standard's "valid e-mail address", which an `<input type="email">`
      must hold: local characters up to the `@`, then dot-separated labels. A
      local character is never an `@`, so the first `@` is the one. */
  predicate ValidEmailAddress(s: string) {
    && '@' in s
    && var at := IndexOf(s, '@');
    && 0 < at
    && (forall k :: 0 <= k < at ==> IsLocalChar(s[k]))
    && (forall l :: l in Split(s[at + 1..], '.') ==> IsLabel(l))
  }

  /** A valid e-mail address holds no white space anywhere. */
  lemma ValidEmailHasNoSpace(s: string)
    requires ValidEmailAddress(s)
    ensures NonSpace(s)
  {
    var at := IndexOf(s, '@');
    var d := s[at + 1..];
    SplitJoin(d, '.');
    JoinedLabelsHaveNoSpace(Split(d, '.'));
    forall k | 0 <= k < |s| ensures !IsSpace(s[k]) {
      if k > at {
        assert s[k] == d[k - at - 1];
      }
    }
  }

  lemma LocalCharNotSpace(c: char)
    requires IsLocalChar(c)
    ensures !IsSpace(c)
  {
  }

  lemma {:induction false} JoinedLabelsHaveNoSpace(parts: seq<string>)
    requires |parts| >= 1
    requires forall l :: l in parts ==> IsLabel(l)
    ensures NonSpace(Join(parts, '.'))
  {
    assert IsLabel(parts[0]);
    if |parts| > 1 {
      assert forall l :: l in parts[1..] ==> l in parts;
      JoinedLabelsHaveNoSpace(parts[1..]);
      var j := Join(parts, '.');
      assert j == parts[0] + ['.'] + Join(parts[1..], '.');
      forall k | 0 <= k < |j| ensures !IsSpace(j[k]) {
        if k > |parts[0]| {
          assert j[k] == Join(parts[1..], '.')[k - |parts[0]| - 1];
        }
      }
    }
  }

  /** A valid address whose domain has a dot also passes the forms' looser
      test: the last local character, the first label, the dot and the first
      character of the second label make a match. */
  lemma DottedValidEmailLooksLikeEmail(s: string)
    requires ValidEmailAddress(s)
    requires '.' in s[IndexOf(s, '@') + 1..]
    ensures LooksLikeEmail(s)
  {
    var at := IndexOf(s, '@');
    var d := s[at + 1..];
    var i := IndexOf(d, '.');
    FirstDotBetweenLabels(d);
    LocalCharNotSpace(s[at - 1]);
    assert s[at + 1..at + 1 + i] == d[..i];
    assert s[at + 2 + i] == d[i + 1];
    assert EmailWitness(s, at, at + 1 + i);
    WitnessMatches(s, at, at + 1 + i);
  }

  /** In a domain of labels, the first dot has a label on either side. */
  lemma FirstDotBetweenLabels(d: string)
    requires forall l :: l in Split(d, '.') ==> IsLabel(l)
    requires '.' in d
    ensures 0 < IndexOf(d, '.') < |d| - 1
    ensures NonSpace(d[..IndexOf(d, '.')]) && !IsSpace(d[IndexOf(d, '.') + 1])
  {
    var i := IndexOf(d, '.');
    var pieces := Split(d, '.');
    assert pieces == [d[..i]] + Split(d[i + 1..], '.');
    assert IsLabel(pieces[0]);
    var second := Split(d[i + 1..], '.')[0];
    assert second == pieces[1];
    assert IsLabel(second);
    SplitFirstIsPrefix(d[i + 1..], '.');
    assert d[i + 1] == second[0];
    LabelNoSpace(pieces[0]);
    LabelNoSpace(second);
  }

  lemma LabelNoSpace(l: string)
    requires IsLabel(l)
    ensures NonSpace(l)
  {
    forall k | 0 <= k < |l| ensures !IsSpace(l[k]) {
      assert IsLabelChar(l[k]);
    }
  }

  /** The browser refuses text after a space that the forms' unanchored test lets through. */
  lemma BrowserRefusesSpacedEmail()
    ensures LooksLikeEmail("a@b.c x") && !ValidEmailAddress("a@b.c x")
  {
    var s := "a@b.c x";
    WitnessMatches(s, 1, 3);
    SpacedEmailInvalid(s, 5);
  }

  /** Any white space in the value makes it an invalid address. */
  lemma SpacedEmailInvalid(s: string, k: int)
    requires 0 <= k < |s| && IsSpace(s[k])
    ensures !ValidEmailAddress(s)
  {
    if ValidEmailAddress(s) {
      ValidEmailHasNoSpace(s);
    }
  }

  /** The browser admits a domain without a dot that the forms refuse. */
  lemma BrowserAdmitsUndottedDomain()
    ensures ValidEmailAddress("a@b") && !LooksLikeEmail("a@b")
  {
    var t := "a@b";
    assert IndexOf(t, '@') == 1;
    assert t[2..] == "b";
    assert Split("b", '.') == ["b"];
    EmailRefused();
  }
}
