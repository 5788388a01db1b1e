/**
 * NumericTransformer: Joget keeps numbers as text; GovStack JSON wants
 * numbers. Text with a decimal point goes through `Double.parseDouble`,
 * other text through `Long.parseLong`; text neither accepts is passed on
 * trimmed.
 */
module NumericTransformer {
  import opened Wrappers
  import opened JavaStr
  import opened JavaValues

  /**
   * `encode`. `parseDouble` stands for `Double.parseDouble` followed by
   * `Double.toString`: the text of the parsed double, or None where Java
   * throws NumberFormatException.
   */
  function Encode(v: Value, parseDouble: string -> Option<string>): (r: Value)
    ensures r.Null? <==> v.Null? || IsBlank(ToJavaString(v))
    ensures r.Str? ==> r.s == Trim(ToJavaString(v))
    ensures r.Int? ==> LONG_MIN <= r.i <= LONG_MAX && '.' !in Trim(ToJavaString(v))
    ensures r.Dbl? ==> '.' in Trim(ToJavaString(v))
    ensures r.Null? || r.Str? || r.Int? || r.Dbl?
  {
    if v.Null? || IsBlank(ToJavaString(v)) then Null
    else EncodeText(Trim(ToJavaString(v)), parseDouble)
  }

  function EncodeText(s: string, parseDouble: string -> Option<string>): (r: Value)
    requires s != []
  {
    if '.' in s then
      match parseDouble(s)
      case Some(t) => Dbl(t)
      case None => Str(s)
    else
      match ParseLong(s)
      case Some(n) => Int(n)
      case None => Str(s)
  }

  /** `decode`: null is "", a String is kept, anything else is its `toString`. */
  function Decode(v: Value): (r: string)
    ensures v.Str? ==> r == v.s
    ensures v.Null? ==> r == ""
  {
    if v.Null? then "" else ToJavaString(v)
  }

  /**
   * `supports`: the type equals "numeric", "number", "integer", "decimal",
   * "double" or "float", ignoring case.
   */
  predicate Supports(transformType: string)
  {
    var t := ToLower(transformType);
    t == "numeric" || t == "number" || t == "integer" || t == "decimal" || t == "double" || t == "float"
  }

  // ---- properties ----

  /** The text of a 64-bit integer encodes to that integer. */
  lemma EncodeLongText(n: int, parseDouble: string -> Option<string>)
    requires LONG_MIN <= n <= LONG_MAX
    ensures Encode(Str(IntToString(n)), parseDouble) == Int(n)
  {
    IntToStringPlain(n);
    ParseLongOfIntToString(n);
  }

  /**
   * Integers survive a decode/encode round trip, and their text survives an
   * encode/decode round trip.
   */
  lemma RoundTrip(n: int, parseDouble: string -> Option<string>)
    requires LONG_MIN <= n <= LONG_MAX
    ensures Encode(Str(Decode(Int(n))), parseDouble) == Int(n)
    ensures Decode(Encode(Str(IntToString(n)), parseDouble)) == IntToString(n)
  {
    EncodeLongText(n, parseDouble);
  }

  /** An Integer or Long object (its `toString` is its digits) encodes to itself. */
  lemma EncodeInteger(n: int, parseDouble: string -> Option<string>)
    requires LONG_MIN <= n <= LONG_MAX
    ensures Encode(Int(n), parseDouble) == Int(n)
  {
    EncodeLongText(n, parseDouble);
  }

  /** Digits beyond the 64-bit range are not a number: the text is kept. */
  lemma OverflowKeepsText(n: int, parseDouble: string -> Option<string>)
    requires n < LONG_MIN || LONG_MAX < n
    ensures Encode(Str(IntToString(n)), parseDouble) == Str(IntToString(n))
  {
    IntToStringPlain(n);
    ParseLongOutOfRange(n);
  }

  /**
   * Text without a decimal point that `Long.parseLong` refuses comes back
   * trimmed, and decoding that gives the trimmed text again.
   */
  lemma NonNumberKeepsText(s: string, parseDouble: string -> Option<string>)
    requires !IsBlank(s) && '.' !in Trim(s) && ParseLong(Trim(s)).None?
    ensures Encode(Str(s), parseDouble) == Str(Trim(s))
    ensures Decode(Encode(Str(s), parseDouble)) == Trim(s)
  {
  }

  /** Encoding is idempotent on what it produced from text. */
  lemma EncodeIdempotent(s: string, parseDouble: string -> Option<string>)
    requires '.' !in Trim(s)
    requires !IsBlank(s)
    ensures Encode(Encode(Str(s), parseDouble), parseDouble) == Encode(Str(s), parseDouble)
  {
    var t := Trim(s);
    TrimIdempotent(s);
    match ParseLong(t)
    case Some(n) =>
      EncodeInteger(n, parseDouble);
    case None =>
  }
}
