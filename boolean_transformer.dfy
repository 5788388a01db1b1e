/**
 * BooleanTransformer: Joget's yes/no style strings to JSON booleans and
 * back. Words are compared after `trim()` and `toLowerCase()`.
 */
module BooleanTransformer {
  import opened JavaStr
  import opened JavaValues

  /** `toString().trim().toLowerCase()`. */
  function Word(v: Value): string { ToLower(Trim(ToJavaString(v))) }

  /** The words `encode` reads as true. */
  predicate IsTrueWord(w: string)
  {
    w == "yes" || w == "y" || w == "true" || w == "1" || w == "checked" || w == "on"
  }

  /** The words `decode` reads as yes. */
  predicate IsYesWord(w: string)
  {
    w == "true" || w == "1" || w == "yes" || w == "y"
  }

  /**
   * `encode`: null is false; a value is true exactly when its word is one of
   * the six affirmative words. The listed negative words, the empty word and
   * every unknown word are all false.
   */
  function Encode(v: Value): (r: bool)
    ensures v.Null? ==> !r
  {
    !v.Null? && IsTrueWord(Word(v))
  }

  /**
   * `decode`: null is "no"; a Boolean is "yes" or "no"; anything else is
   * "yes" exactly for the four affirmative words it knows.
   */
  function Decode(v: Value): (r: string)
    ensures r == "yes" || r == "no"
  {
    if v.Null? then "no"
    else if v.Bool? then (if v.b then "yes" else "no")
    else if IsYesWord(Word(v)) then "yes"
    else "no"
  }

  /**
   * `supports`: the type equals, ignoring case, "yesNoBoolean",
   * "yesnoboolean", "boolean" or "bool"; compared in lower case the first two
   * are one name.
   */
  predicate Supports(transformType: string)
  {
    var t := ToLower(transformType);
    t == "yesnoboolean" || t == "boolean" || t == "bool"
  }

  // ---- properties ----

  /** A word with nothing to trim and no upper-case letter is its own word. */
  lemma WordOf(s: string)
    requires s != [] && !IsTrimmable(s[0]) && !IsTrimmable(s[|s| - 1])
    requires ToLower(s) == s
    ensures Word(Str(s)) == s
  {
    TrimStartKeeps(s);
    TrimEndKeeps(s);
  }

  lemma WordOfPlain(s: string)
    requires s == "yes" || s == "no" || s == "true" || s == "false"
    ensures Word(Str(s)) == s
  {
    LowerKeeps(s);
    WordOf(s);
  }

  /** A boolean decoded to yes/no and encoded again is the same boolean. */
  lemma RoundTrip(b: bool)
    ensures Decode(Bool(b)) == (if b then "yes" else "no")
    ensures Encode(Str(Decode(Bool(b)))) == b
  {
    var w := if b then "yes" else "no";
    assert Decode(Bool(b)) == w;
    assert Word(Str(w)) == w by { WordOfPlain(w); }
    assert IsTrueWord(w) == b by { YesNoWords(); }
  }

  /**
   * Encoding then decoding any value gives "yes" or "no", and a second
   * encode-then-decode of that word changes nothing.
   */
  lemma EncodeDecodeStable(v: Value)
    ensures Decode(Bool(Encode(v))) == "yes" || Decode(Bool(Encode(v))) == "no"
    ensures Decode(Bool(Encode(Str(Decode(Bool(Encode(v))))))) == Decode(Bool(Encode(v)))
  {
    RoundTrip(Encode(v));
  }

  lemma YesNoWords()
    ensures IsTrueWord("yes") && !IsTrueWord("no")
  {
    var no := "no";
    assert no[0] == 'n' && no[1] == 'o' && |no| == 2;
  }

  /** A Boolean object encodes to itself (its `toString` is "true" or "false"). */
  lemma EncodeBoolean(b: bool)
    ensures Encode(Bool(b)) == b
  {
    WordOfPlain(if b then "true" else "false");
  }

  /**
   * On the words both directions know, they agree: a string encodes to true
   * exactly when it decodes to "yes". Only "checked" and "on" are read as
   * true by `encode` and as "no" by `decode`.
   */
  lemma Agree(v: Value)
    requires !v.Bool?
    requires Word(v) != "checked" && Word(v) != "on"
    ensures Encode(v) <==> Decode(v) == "yes"
  {
  }

  /** "checked" and "on" encode to true, yet decode to "no". */
  lemma CheckedIsOneWay(s: string)
    requires s == "checked" || s == "on"
    ensures Encode(Str(s))
    ensures Decode(Str(s)) == "no"
  {
    OneWayWord(s);
    assert IsTrueWord(s);
  }

  lemma OneWayWord(s: string)
    requires s == "checked" || s == "on"
    ensures Word(Str(s)) == s && !IsYesWord(s)
  {
    LowerKeeps(s);
    WordOf(s);
    NotYesWord(s);
  }

  lemma NotYesWord(s: string)
    requires s == "checked" || s == "on"
    ensures !IsYesWord(s)
  {
    assert |s| == 7 || s[1] == 'n';
  }
}
