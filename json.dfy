/** `JSON.stringify` and `JSON.parse` on flat objects of strings, booleans, null
    and integers: what the client writes to and reads back from local storage. */
module Json {
  import opened Common
  import opened Text

  datatype Scalar = JStr(s: string) | JBool(b: bool) | JNull | JInt(i: int)

  /** An object as its members in order. */
  type Obj = seq<(string, Scalar)>

  // -------------------------------------------------------------- strings

  function HexDigit(d: nat): (c: char)
    requires d < 16
  {
    if d < 10 then DigitChar(d) else ('a' as int + d - 10) as char
  }

  function HexValue(c: char): (r: Option<nat>)
    ensures r.Some? ==> r.value < 16
  {
    if IsDigit(c) then Some(DigitValue(c))
    else if 'a' <= c <= 'f' then Some(c as int - 'a' as int + 10)
    else if 'A' <= c <= 'F' then Some(c as int - 'A' as int + 10)
    else None
  }

  lemma HexValueOfDigit(d: nat)
    requires d < 16
    ensures HexValue(HexDigit(d)) == Some(d)
  {
  }

  /** Four hexadecimal digits. */
  function Hex4(t: string): (r: Option<nat>)
    requires |t| == 4
    ensures r.Some? ==> r.value < 0x1_0000
  {
    match (HexValue(t[0]), HexValue(t[1]), HexValue(t[2]), HexValue(t[3]))
    case (Some(a), Some(b), Some(c), Some(d)) => Some(((a * 16 + b) * 16 + c) * 16 + d)
    case _ => None
  }

  /** How `JSON.stringify` writes one character inside quotes: the quote and the
      backslash escaped, the five control characters with short escapes by name,
      the other controls as `\u00XX` in lower-case hex, everything else as is. */
  function EscapeChar(c: char): (r: string)
    ensures r != [] && r[0] != '"'
  {
    if c == '"' then "\\\""
    else if c == '\\' then "\\\\"
    else if c == '\U{0008}' then "\\b"
    else if c == '\t' then "\\t"
    else if c == '\n' then "\\n"
    else if c == '\U{000C}' then "\\f"
    else if c == '\r' then "\\r"
    else if (c as int) < 0x20 then "\\u00" + [HexDigit(c as int / 16), HexDigit(c as int % 16)]
    else [c]
  }

  function Escape(s: string): string {
    if s == [] then [] else EscapeChar(s[0]) + Escape(s[1..])
  }

  function Quote(s: string): string {
    "\"" + Escape(s) + "\""
  }

  /** Reads one character of a string body that does not start with the closing
      quote: an escape, or a character that is not a control character. Escapes
      of a lone surrogate half are refused. */
  function DecodeUnit(t: string): (r: Option<(char, string)>)
    requires t != [] && t[0] != '"'
    ensures r.Some? ==> |r.value.1| < |t|
  {
    if t[0] == '\\' then
      if |t| < 2 then None
      else
        var e := t[1];
        if e == '"' then Some(('"', t[2..]))
        else if e == '\\' then Some(('\\', t[2..]))
        else if e == '/' then Some(('/', t[2..]))
        else if e == 'b' then Some(('\U{0008}', t[2..]))
        else if e == 'f' then Some(('\U{000C}', t[2..]))
        else if e == 'n' then Some(('\n', t[2..]))
        else if e == 'r' then Some(('\r', t[2..]))
        else if e == 't' then Some(('\t', t[2..]))
        else if e == 'u' && |t| >= 6 then
          match Hex4(t[2..6])
          case Some(n) => if 0xD800 <= n < 0xE000 then None else Some((n as char, t[6..]))
          case None => None
        else None
    else if (t[0] as int) < 0x20 then None
    else Some((t[0], t[1..]))
  }

  /** Reads a string body up to its closing quote; the rest follows. */
  function ParseChars(t: string): (r: Option<(string, string)>)
    ensures r.Some? ==> |r.value.1| < |t|
    decreases |t|
  {
    if t == [] then None
    else if t[0] == '"' then Some(([], t[1..]))
    else
      match DecodeUnit(t)
      case None => None
      case Some((c, t1)) =>
        match ParseChars(t1)
        case None => None
        case Some((s, t2)) => Some(([c] + s, t2))
  }

  function ParseString(t: string): (r: Option<(string, string)>)
    ensures r.Some? ==> |r.value.1| < |t|
  {
    if t != [] && t[0] == '"' then ParseChars(t[1..]) else None
  }

  /** Every escaped character reads back as itself. */
  lemma DecodeEscaped(c: char, rest: string)
    ensures DecodeUnit(EscapeChar(c) + rest) == Some((c, rest))
  {
    var t := EscapeChar(c) + rest;
    if c == '"' || c == '\\' || c == '\U{0008}' || c == '\t' || c == '\n' || c == '\U{000C}' || c == '\r' {
      assert t[2..] == rest;
    } else if (c as int) < 0x20 {
      var hi, lo := c as int / 16, c as int % 16;
      assert t[..6] == "\\u00" + [HexDigit(hi), HexDigit(lo)];
      assert t[2..6] == ['0', '0', HexDigit(hi), HexDigit(lo)];
      HexValueOfDigit(hi);
      HexValueOfDigit(lo);
      assert Hex4(t[2..6]) == Some(c as int);
      assert t[6..] == rest;
    } else {
      assert t[1..] == rest;
    }
  }

  lemma {:induction false} ParseCharsOfEscape(s: string, rest: string)
    ensures ParseChars(Escape(s) + "\"" + rest) == Some((s, rest))
    decreases |s|
  {
    if s == [] {
      assert Escape(s) + "\"" + rest == "\"" + rest;
    } else {
      var t := Escape(s) + "\"" + rest;
      var tail := Escape(s[1..]) + "\"" + rest;
      assert t == EscapeChar(s[0]) + tail;
      DecodeEscaped(s[0], tail);
      ParseCharsOfEscape(s[1..], rest);
      assert [s[0]] + s[1..] == s;
    }
  }

  /** A quoted string reads back as the string, whatever follows it. */
  lemma ParseQuoted(s: string, rest: string)
    ensures ParseString(Quote(s) + rest) == Some((s, rest))
  {
    var t := Quote(s) + rest;
    assert t[1..] == Escape(s) + "\"" + rest;
    ParseCharsOfEscape(s, rest);
  }

  // -------------------------------------------------------------- numbers

  /** An integer as the JSON grammar has it: an optional minus, then `0` or a
      non-zero digit followed by digits. A fraction or an exponent is refused. */
  function ParseNumber(t: string): (r: Option<(int, string)>)
    ensures r.Some? ==> |r.value.1| < |t|
  {
    var negative := t != [] && t[0] == '-';
    var u := if negative then t[1..] else t;
    var n := DigitRun(u);
    if n == 0 || (u[0] == '0' && n > 1) then None
    else if n < |u| && u[n] in {'.', 'e', 'E'} then None
    else
      var v: int := DigitsValue(u[..n]);
      Some((if negative then -v else v, u[n..]))
  }

  /** Terminates a number: the end, or the punctuation that follows a value in an object. */
  predicate EndsValue(rest: string) {
    rest == [] || rest[0] == ',' || rest[0] == '}'
  }

  lemma ParseDigits(m: nat, rest: string)
    requires EndsValue(rest)
    ensures ParseNumber(Decimal(m) + rest) == Some((m, rest))
  {
    var d := Decimal(m);
    var t := d + rest;
    DigitRunOfDigits(d, rest);
    DigitsValueOfDecimal(m);
    assert t[..|d|] == d && t[|d|..] == rest;
    assert t[0] == d[0];
  }

  lemma ParseNegativeDigits(m: nat, rest: string)
    requires EndsValue(rest) && m > 0
    ensures ParseNumber(['-'] + (Decimal(m) + rest)) == Some((-(m as int), rest))
  {
    var d := Decimal(m);
    var t := ['-'] + (d + rest);
    assert t[0] == '-' && t[1..] == d + rest;
    ParseDigits(m, rest);
  }

  /** `JSON.stringify` writes an integer as `String` does, and it reads back. */
  lemma ParseIntText(i: int, rest: string)
    requires EndsValue(rest)
    ensures ParseNumber(IntText(i) + rest) == Some((i, rest))
  {
    if i < 0 {
      NegativeIntText(i, rest);
      ParseNegativeDigits(-i, rest);
    } else {
      assert IntText(i) == Decimal(i);
      ParseDigits(i, rest);
    }
  }

  // -------------------------------------------------------------- values

  function ScalarText(v: Scalar): string {
    match v
    case JStr(s) => Quote(s)
    case JBool(b) => if b then "true" else "false"
    case JNull => "null"
    case JInt(i) => IntText(i)
  }

  function ParseScalar(t: string): (r: Option<(Scalar, string)>)
    ensures r.Some? ==> |r.value.1| < |t|
  {
    if t == [] then None
    else if t[0] == '"' then
      match ParseString(t)
      case Some((s, t1)) => Some((JStr(s), t1))
      case None => None
    else if |t| >= 4 && t[..4] == "true" then Some((JBool(true), t[4..]))
    else if |t| >= 5 && t[..5] == "false" then Some((JBool(false), t[5..]))
    else if |t| >= 4 && t[..4] == "null" then Some((JNull, t[4..]))
    else
      match ParseNumber(t)
      case Some((i, t1)) => Some((JInt(i), t1))
      case None => None
  }

  lemma ParseBoolText(b: bool, rest: string)
    requires EndsValue(rest)
    ensures ParseScalar(ScalarText(JBool(b)) + rest) == Some((JBool(b), rest))
  {
    var t := ScalarText(JBool(b)) + rest;
    if b {
      assert t[..4] == "true" && t[4..] == rest;
    } else {
      assert t[0] == 'f';
      assert t[..5] == "false" && t[5..] == rest;
    }
  }

  lemma ParseNullText(rest: string)
    requires EndsValue(rest)
    ensures ParseScalar(ScalarText(JNull) + rest) == Some((JNull, rest))
  {
    var t := ScalarText(JNull) + rest;
    assert t[0] == 'n';
    assert t[..4] == "null" && t[4..] == rest;
  }

  lemma ParseIntScalar(i: int, rest: string)
    requires EndsValue(rest)
    ensures ParseScalar(ScalarText(JInt(i)) + rest) == Some((JInt(i), rest))
  {
    var t := IntText(i) + rest;
    assert t[0] == '-' || IsDigit(t[0]) by {
      if i >= 0 {
        assert t[0] == Decimal(i)[0];
      }
    }
    assert |t| >= 4 ==> t[..4][0] == t[0];
    assert |t| >= 5 ==> t[..5][0] == t[0];
    ParseIntText(i, rest);
  }

  /** Every value reads back as itself when the object's punctuation follows. */
  lemma ParseScalarText(v: Scalar, rest: string)
    requires EndsValue(rest)
    ensures ParseScalar(ScalarText(v) + rest) == Some((v, rest))
  {
    match v
    case JStr(s) =>
      assert (ScalarText(v) + rest)[0] == '"';
      ParseQuoted(s, rest);
    case JBool(b) => ParseBoolText(b, rest);
    case JNull => ParseNullText(rest);
    case JInt(i) => ParseIntScalar(i, rest);
  }

  // -------------------------------------------------------------- objects

  function MemberText(m: (string, Scalar)): string {
    Quote(m.0) + ":" + ScalarText(m.1)
  }

  function MembersText(obj: Obj): (r: string)
    requires obj != []
    ensures r != [] && r[0] == '"'
  {
    if |obj| == 1 then MemberText(obj[0]) else MemberText(obj[0]) + "," + MembersText(obj[1..])
  }

  /** `JSON.stringify(obj)`: no white space, members in order. */
  function Stringify(obj: Obj): (r: string)
    ensures |r| >= 2 && r[0] == '{' && r[|r| - 1] == '}'
    ensures r == "{}" <==> obj == []
  {
    if obj == [] then "{}" else "{" + MembersText(obj) + "}"
  }

  /** Reads members up to and including the closing brace. */
  function ParseMembers(t: string): (r: Option<(Obj, string)>)
    ensures r.Some? ==> |r.value.1| < |t| && r.value.0 != []
    decreases |t|
  {
    match ParseString(t)
    case None => None
    case Some((k, t1)) =>
      if t1 == [] || t1[0] != ':' then None
      else
        match ParseScalar(t1[1..])
        case None => None
        case Some((v, t2)) =>
          if t2 == [] then None
          else if t2[0] == '}' then Some(([(k, v)], t2[1..]))
          else if t2[0] == ',' then
            match ParseMembers(t2[1..])
            case None => None
            case Some((ms, t3)) => Some(([(k, v)] + ms, t3))
          else None
  }

  /** `JSON.parse(s)` for an object written without white space; any other text
      is refused, as a syntax error. */
  function Parse(s: string): (r: Option<Obj>)
    ensures r.Some? ==> s != [] && s[0] == '{'
    ensures r == Some([]) <==> s == "{}"
  {
    if s == "{}" then Some([])
    else if s != [] && s[0] == '{' then
      match ParseMembers(s[1..])
      case Some((obj, rest)) => if rest == [] then Some(obj) else None
      case None => None
    else None
  }

  /** One member, then the punctuation after it: its key and its value are read back. */
  lemma ParseMemberThen(m: (string, Scalar), tail: string)
    requires tail != [] && (tail[0] == '}' || tail[0] == ',')
    ensures var after := ":" + (ScalarText(m.1) + tail);
            && ParseString(MemberText(m) + tail) == Some((m.0, after))
            && ParseScalar(after[1..]) == Some((m.1, tail))
  {
    var t := MemberText(m) + tail;
    var after := ":" + (ScalarText(m.1) + tail);
    assert ParseString(t) == Some((m.0, after)) by {
      assert t == Quote(m.0) + after;
      ParseQuoted(m.0, after);
    }
    assert ParseScalar(after[1..]) == Some((m.1, tail)) by {
      assert after[1..] == ScalarText(m.1) + tail;
      ParseScalarText(m.1, tail);
    }
  }

  lemma ParseLastMember(m: (string, Scalar), rest: string)
    ensures ParseMembers(MemberText(m) + ("}" + rest)) == Some(([m], rest))
  {
    var tail := "}" + rest;
    ParseMemberThen(m, tail);
    assert tail[1..] == rest;
  }

  lemma ParseNextMember(m: (string, Scalar), more: string)
    ensures ParseMembers(MemberText(m) + ("," + more)) ==
              match ParseMembers(more)
              case None => None
              case Some((ms, t3)) => Some(([m] + ms, t3))
  {
    var tail := "," + more;
    ParseMemberThen(m, tail);
    assert tail[1..] == more;
  }

  lemma MembersTextSplit(obj: Obj, rest: string)
    requires |obj| > 1
    ensures MembersText(obj) + "}" + rest == MemberText(obj[0]) + ("," + (MembersText(obj[1..]) + "}" + rest))
  {
    var a, b := MemberText(obj[0]), MembersText(obj[1..]);
    assert MembersText(obj) == a + "," + b;
    Regroup(a, ",", b, "}", rest);
  }

  lemma Regroup(a: string, c: string, b: string, d: string, r: string)
    ensures a + c + b + d + r == a + (c + (b + d + r))
  {
  }

  lemma {:induction false} ParseMembersText(obj: Obj, rest: string)
    requires obj != []
    ensures ParseMembers(MembersText(obj) + "}" + rest) == Some((obj, rest))
    decreases |obj|
  {
    var m := obj[0];
    var t := MembersText(obj) + "}" + rest;
    if |obj| == 1 {
      assert t == MemberText(m) + ("}" + rest);
      assert ParseMembers(t) == Some(([m], rest)) by {
        ParseLastMember(m, rest);
      }
      assert [m] == obj;
    } else {
      var more := MembersText(obj[1..]) + "}" + rest;
      MembersTextSplit(obj, rest);
      assert ParseMembers(more) == Some((obj[1..], rest)) by {
        ParseMembersText(obj[1..], rest);
      }
      assert ParseMembers(t) == Some(([m] + obj[1..], rest)) by {
        ParseNextMember(m, more);
      }
      assert [m] + obj[1..] == obj;
    }
  }

  /** What `JSON.stringify` writes, `JSON.parse` reads back unchanged. */
  lemma ParseStringify(obj: Obj)
    ensures Parse(Stringify(obj)) == Some(obj)
  {
    if obj != [] {
      var body := MembersText(obj) + "}";
      var s := "{" + body;
      assert Stringify(obj) == s;
      assert s[0] == '{' && s[1..] == body;
      assert body + [] == body;
      assert s != "{}" by {
        assert MembersText(obj)[0] == '"';
        assert s[1] == '"';
      }
      ParseMembersText(obj, []);
    }
  }
}
