/** Plain objects as Mongoose hands them to a schema's `toJSON` transform:
    a map from field names to values, which the transform edits in place. */
module Documents {
  import opened Common
  import opened Text

  /** A field value. Dates are milliseconds since the epoch; ObjectIds are numbers
      handed out by the store. */
  datatype Value =
    | VId(id: nat)
    | VText(text: string)
    | VBool(flag: bool)
    | VNumber(number: int)
    | VDate(ms: int)

  type Fields = map<string, Value>

  /** `ObjectId.prototype.toString()`. MongoDB writes 24 hexadecimal digits; the
      model writes the decimal numeral, which is injective in the same way. */
  /** A canonical numeral: digits only, no leading zero unless it is "0". */
  predicate IsNumeral(text: string) {
    text != [] && AllDigits(text) && (|text| == 1 || text[0] != '0')
  }

  function IdString(id: nat): (r: string)
    ensures IsNumeral(r)
  {
    Decimal(id)
  }

  /** Distinct ids have distinct strings, so an id survives the round trip through its text. */
  lemma IdStringInjective(a: nat, b: nat)
    requires IdString(a) == IdString(b)
    ensures a == b
  {
    DecimalInjective(a, b);
  }

  /** `new Types.ObjectId(text)`: the id a well-formed string names, and nothing
      (the constructor throws) for any other string. */
  function ParseId(text: string): (r: Option<nat>)
    ensures r.Some? <==> IsNumeral(text)
  {
    if IsNumeral(text) then Some(DigitsValue(text)) else None
  }

  /** An id's string parses back to the id. */
  lemma ParseIdString(id: nat)
    ensures ParseId(IdString(id)) == Some(id)
  {
    DigitsValueOfDecimal(id);
  }

  /** A string that parses is the string of the id it names. */
  lemma IdStringOfParse(text: string)
    requires ParseId(text).Some?
    ensures IdString(ParseId(text).value) == text
  {
    DecimalOfDigits(text);
  }

  /** A leading digit bounds the value from below. */
  lemma {:induction false} DigitsValueAtLeastLead(s: string)
    requires s != [] && AllDigits(s)
    ensures DigitsValue(s) >= DigitValue(s[0])
  {
    if |s| > 1 {
      var init := s[..|s| - 1];
      assert init[0] == s[0];
      DigitsValueAtLeastLead(init);
    }
  }

  lemma {:induction false} DecimalOfDigits(s: string)
    requires IsNumeral(s)
    ensures Decimal(DigitsValue(s)) == s
  {
    var last := s[|s| - 1];
    if |s| > 1 {
      var init := s[..|s| - 1];
      assert init[0] == s[0];
      DigitsValueAtLeastLead(init);
      DecimalOfDigits(init);
      var n := DigitsValue(s);
      assert n == DigitsValue(init) * 10 + DigitValue(last);
      assert n / 10 == DigitsValue(init) && n % 10 == DigitValue(last);
      assert DigitChar(DigitValue(last)) == last;
      assert s == init + [last];
    } else {
      assert DigitChar(DigitValue(last)) == last;
    }
  }

  /** The documents of both schemas carry an automatic ObjectId `_id`, if any `_id` at all. */
  predicate IdIsObjectId(ret: Fields) {
    "_id" in ret ==> ret["_id"].VId?
  }

  /** `ret.id = ret._id?.toString()`: the string of `_id`, or `undefined` (a key that
      `JSON.stringify` leaves out) when there is no `_id`. */
  function WithIdText(ret: Fields): (r: Fields)
    requires IdIsObjectId(ret)
  {
    if "_id" in ret then ret["id" := VText(IdString(ret["_id"].id))] else ret - {"id"}
  }

  /** The object a schema's transform receives and edits in place. */
  class PlainObject {
    var fields: Fields

    constructor (fields: Fields)
      ensures this.fields == fields
    {
      this.fields := fields;
    }
  }
}
