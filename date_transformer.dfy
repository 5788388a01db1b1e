/**
 * DateTransformer: Joget dates (`yyyy-MM-dd`) to ISO 8601 date-times
 * (`yyyy-MM-ddTHH:mm:ssZ`) and back.
 *
 * The strict `java.time` parsers are modelled for unsigned four-digit
 * years; which zone region ids `ZoneId` knows (the `[Europe/Paris]` that
 * ISO_DATE_TIME accepts after an offset) is a parameter, and so are the
 * lenient `SimpleDateFormat` fallbacks, `None` standing for a
 * `ParseException`.
 */
module DateTransformer {
  import opened Wrappers
  import opened JavaStr
  import opened JavaValues

  // ---- the calendar (ISO proleptic Gregorian, as LocalDate) ----

  predicate IsLeapYear(y: nat) { y % 4 == 0 && (y % 100 != 0 || y % 400 == 0) }

  function DaysInMonth(y: nat, m: nat): (r: nat)
    requires 1 <= m <= 12
    ensures 28 <= r <= 31
    ensures r == 29 <==> m == 2 && IsLeapYear(y)
  {
    if m == 2 then (if IsLeapYear(y) then 29 else 28)
    else if m == 4 || m == 6 || m == 9 || m == 11 then 30
    else 31
  }

  /** The whole string matches `\d{4}-\d{2}-\d{2}`. */
  predicate IsDateShape(s: string)
  {
    |s| == 10 && IsDigit(s[0]) && IsDigit(s[1]) && IsDigit(s[2]) && IsDigit(s[3]) && s[4] == '-' &&
    IsDigit(s[5]) && IsDigit(s[6]) && s[7] == '-' && IsDigit(s[8]) && IsDigit(s[9])
  }

  /** The value of the two digits at `i`. */
  function TwoDigits(s: string, i: nat): (r: nat)
    requires i + 2 <= |s| && IsDigit(s[i]) && IsDigit(s[i + 1])
    ensures r < 100
  {
    10 * DigitValue(s[i]) + DigitValue(s[i + 1])
  }

  function Year(s: string): (r: nat)
    requires IsDateShape(s)
    ensures r < 10000
  {
    100 * TwoDigits(s, 0) + TwoDigits(s, 2)
  }

  function Month(s: string): nat requires IsDateShape(s) { TwoDigits(s, 5) }

  function Day(s: string): nat requires IsDateShape(s) { TwoDigits(s, 8) }

  /** A date of that shape naming a real day: what `LocalDate.parse` accepts. */
  predicate IsJogetDate(s: string)
  {
    IsDateShape(s) && 1 <= Month(s) <= 12 && 1 <= Day(s) <= DaysInMonth(Year(s), Month(s))
  }

  // ---- ISO_DATE_TIME as LocalDateTime.parse reads it ----

  /** Two digits at `i` whose value is at most `max`. */
  predicate TwoDigitsUpTo(s: string, i: nat, max: nat)
  {
    i + 2 <= |s| && IsDigit(s[i]) && IsDigit(s[i + 1]) && TwoDigits(s, i) <= max
  }

  /** `HH:mm[:ss[.fffffffff]]` with the ranges of a LocalTime. */
  predicate IsLocalTime(t: string)
  {
    |t| >= 5 && TwoDigitsUpTo(t, 0, 23) && t[2] == ':' && TwoDigitsUpTo(t, 3, 59) &&
    (|t| == 5 ||
     (|t| >= 8 && t[5] == ':' && TwoDigitsUpTo(t, 6, 59) &&
      (|t| == 8 || (t[8] == '.' && |t| <= 18 && forall i :: 9 <= i < |t| ==> IsDigit(t[i])))))
  }

  predicate IsTimeChar(c: char) { IsDigit(c) || c == ':' || c == '.' }

  /** The length of the leading run of time characters. */
  function TimeRun(t: string): (r: nat)
    ensures r <= |t|
    ensures forall i :: 0 <= i < r ==> IsTimeChar(t[i])
    ensures r < |t| ==> !IsTimeChar(t[r])
  {
    if t != [] && IsTimeChar(t[0]) then 1 + TimeRun(t[1..]) else 0
  }

  /**
   * An offset left after `+` and `Z` have been stripped: `z` (the parser is
   * case-insensitive) or `-HH:MM[:SS]` of at most eighteen hours.
   */
  predicate IsOffset(o: string)
  {
    o == "z" ||
    (|o| in {6, 9} && o[0] == '-' && TwoDigitsUpTo(o, 1, 18) && o[3] == ':' && TwoDigitsUpTo(o, 4, 59) &&
     (|o| == 9 ==> o[6] == ':' && TwoDigitsUpTo(o, 7, 59)) &&
     (TwoDigits(o, 1) == 18 ==> TwoDigits(o, 4) == 0 && (|o| == 9 ==> TwoDigits(o, 7) == 0)))
  }

  /**
   * An offset followed by a bracketed zone region id, the optional section
   * ISO_DATE_TIME allows only after an offset; `zoneIds` says which texts
   * the region-id parser takes whole (an unknown id throws).
   */
  predicate IsOffsetWithRegion(z: string, zoneIds: string -> bool)
  {
    '[' in z && z[|z| - 1] == ']' &&
    var i := IndexOf(z, '[');
    i < |z| - 1 && IsOffset(z[..i]) && zoneIds(z[i + 1..|z| - 1])
  }

  /** A string `LocalDateTime.parse(s, ISO_DATE_TIME)` accepts. */
  predicate IsLocalDateTime(s: string, zoneIds: string -> bool)
  {
    |s| >= 16 && IsJogetDate(s[..10]) && (s[10] == 'T' || s[10] == 't') &&
    var t := s[11..];
    var e := TimeRun(t);
    IsLocalTime(t[..e]) && (e == |t| || IsOffset(t[e..]) || IsOffsetWithRegion(t[e..], zoneIds))
  }

  // ---- replaceAll("[+Z].*", "") ----

  /** The line terminators at which the regex `.` stops. */
  predicate IsLineTerminator(c: char)
  {
    c == '\n' || c == '\r' || c == '\U{85}' || c == '\U{2028}' || c == '\U{2029}'
  }

  function SkipLine(s: string): (r: string)
    ensures |r| <= |s| && r == s[|s| - |r|..]
    ensures r == [] || IsLineTerminator(r[0])
  {
    if s == [] || IsLineTerminator(s[0]) then s else SkipLine(s[1..])
  }

  /** Every `+` or `Z` is removed together with the rest of its line. */
  function StripZone(s: string): (r: string)
    ensures '+' !in r && 'Z' !in r
    ensures '+' !in s && 'Z' !in s ==> r == s
    decreases |s|
  {
    if s == [] then []
    else if s[0] == '+' || s[0] == 'Z' then StripZone(SkipLine(s[1..]))
    else [s[0]] + StripZone(s[1..])
  }

  // ---- the transformer ----

  /** `jogetValue.toString().trim()`. */
  function Trimmed(v: Value): string { Trim(ToJavaString(v)) }

  /**
   * `encode`: null or blank gives null; a string with `T` is taken to be
   * ISO already; `yyyy-MM-dd` becomes midnight UTC, or stays as it is when
   * it names no real day; anything else goes to the lenient parser, and
   * stays as it is when that fails.
   */
  function Encode(v: Value, lenient: string -> Option<string>): (r: Value)
    ensures r.Null? <==> v.Null? || IsBlank(ToJavaString(v))
    ensures !r.Null? ==> r.Str?
  {
    if v.Null? || IsBlank(ToJavaString(v)) then Null else Str(EncodeText(Trimmed(v), lenient))
  }

  function EncodeText(s: string, lenient: string -> Option<string>): string
  {
    if 'T' in s then s
    else if IsDateShape(s) then (if IsJogetDate(s) then s + "T00:00:00" + "Z" else s)
    else match lenient(s)
      case Some(iso) => iso
      case None => s
  }

  /**
   * `decode`: null or blank gives null; a string with `T` loses its zone
   * and then its time, or is returned zone-stripped when it does not parse;
   * `yyyy-MM-dd` is returned as it is; anything else goes to the lenient
   * parser, and stays as it is when that fails.
   */
  function Decode(v: Value, lenient: string -> Option<string>, zoneIds: string -> bool): (r: Value)
    ensures r.Null? <==> v.Null? || IsBlank(ToJavaString(v))
    ensures !r.Null? ==> r.Str?
  {
    if v.Null? || IsBlank(ToJavaString(v)) then Null else Str(DecodeText(Trimmed(v), lenient, zoneIds))
  }

  function DecodeText(s: string, lenient: string -> Option<string>, zoneIds: string -> bool): string
  {
    if 'T' in s then
      var local := if '+' in s || 'Z' in s then StripZone(s) else s;
      if IsLocalDateTime(local, zoneIds) then local[..10] else local
    else if IsDateShape(s) then s
    else match lenient(s)
      case Some(d) => d
      case None => s
  }

  /**
   * `supports`: the type equals "date_ISO8601", "date" or "dateISO8601",
   * ignoring case, i.e. its lower case is one of the lower-cased names.
   */
  predicate Supports(transformType: string)
  {
    var t := ToLower(transformType);
    t == "date_iso8601" || t == "date" || t == "dateiso8601"
  }

  // ---- properties ----

  lemma JogetDateChars(d: string)
    requires IsDateShape(d)
    ensures 'T' !in d && '+' !in d && 'Z' !in d && Trim(d) == d
  {
    DateShapeMarks(d);
    TrimStartKeeps(d);
    TrimEndKeeps(d);
  }

  lemma DateShapeMarks(d: string)
    requires IsDateShape(d)
    ensures 'T' !in d && '+' !in d && 'Z' !in d
  {
    assert forall i :: 0 <= i < |d| ==> IsDigit(d[i]) || d[i] == '-';
  }

  /** Midnight with its fields is a local time that ends the string. */
  lemma MidnightParses(d: string, zoneIds: string -> bool)
    requires IsJogetDate(d)
    ensures IsLocalDateTime(d + "T00:00:00", zoneIds)
  {
    var s := d + "T00:00:00";
    assert s[..10] == d;
    var t := s[11..];
    assert t == "00:00:00";
    assert TimeRun(t) == 8;
    assert t[..8] == t;
  }

  /** On a trimmed non-blank string encoding acts on the text itself. */
  lemma EncodeOnText(s: string, lenient: string -> Option<string>)
    requires Trim(s) == s && s != []
    ensures Encode(Str(s), lenient) == Str(EncodeText(s, lenient))
  {
  }

  /** On a trimmed non-blank string decoding acts on the text itself. */
  lemma DecodeOnText(s: string, lenient: string -> Option<string>, zoneIds: string -> bool)
    requires Trim(s) == s && s != []
    ensures Decode(Str(s), lenient, zoneIds) == Str(DecodeText(s, lenient, zoneIds))
  {
  }

  lemma EncodeTextOfDate(d: string, lenient: string -> Option<string>)
    requires IsJogetDate(d)
    ensures EncodeText(d, lenient) == d + "T00:00:00" + "Z"
  {
    JogetDateChars(d);
  }

  lemma DecodeTextOfMidnight(d: string, lenient: string -> Option<string>, zoneIds: string -> bool)
    requires IsJogetDate(d)
    ensures DecodeText(d + "T00:00:00" + "Z", lenient, zoneIds) == d
  {
    MidnightFacts(d, zoneIds);
  }

  lemma MidnightFacts(d: string, zoneIds: string -> bool)
    requires IsJogetDate(d)
    ensures var iso := d + "T00:00:00" + "Z"; var local := d + "T00:00:00";
      'T' in iso && 'Z' in iso && StripZone(iso) == local && IsLocalDateTime(local, zoneIds) && local[..10] == d
  {
    MidnightMarks(d);
    MidnightStrip(d);
    MidnightParses(d, zoneIds);
  }

  lemma MidnightMarks(d: string)
    requires |d| == 10
    ensures var iso := d + "T00:00:00" + "Z"; 'T' in iso && 'Z' in iso && (d + "T00:00:00")[..10] == d
  {
    var iso := d + "T00:00:00" + "Z";
    assert iso[10] == 'T' && iso[|iso| - 1] == 'Z';
  }

  lemma MidnightStrip(d: string)
    requires IsDateShape(d)
    ensures StripZone(d + "T00:00:00" + "Z") == d + "T00:00:00"
  {
    DateShapeMarks(d);
    var t := "T00:00:00";
    MidnightChars(t);
    NotInConcat(d, t, '+');
    NotInConcat(d, t, 'Z');
    StripSuffixZ(d + t);
  }

  lemma MidnightChars(t: string)
    requires t == "T00:00:00"
    ensures '+' !in t && 'Z' !in t
  {
    assert forall i :: 0 <= i < |t| ==> t[i] == 'T' || t[i] == '0' || t[i] == ':';
  }

  lemma NotInConcat(a: string, b: string, c: char)
    requires c !in a && c !in b
    ensures c !in a + b
  {
    forall i | 0 <= i < |a + b| ensures (a + b)[i] != c {
      if i < |a| { assert (a + b)[i] == a[i]; } else { assert (a + b)[i] == b[i - |a|]; }
    }
  }

  lemma MidnightTrimmed(d: string)
    requires IsJogetDate(d)
    ensures var iso := d + "T00:00:00" + "Z"; Trim(iso) == iso && iso != [] && 'T' in iso
  {
    var iso := d + "T00:00:00" + "Z";
    assert iso[0] == d[0] && iso[10] == 'T';
    TrimStartKeeps(iso);
    TrimEndKeeps(iso);
  }

  /**
   * Decoding what encoding made of a Joget date gives that date back:
   * `2024-01-15` becomes `2024-01-15T00:00:00Z` and then `2024-01-15`.
   */
  lemma RoundTrip(d: string, lenient1: string -> Option<string>, lenient2: string -> Option<string>,
                  zoneIds: string -> bool)
    requires IsJogetDate(d)
    ensures Encode(Str(d), lenient1) == Str(d + "T00:00:00" + "Z")
    ensures Decode(Encode(Str(d), lenient1), lenient2, zoneIds) == Str(d)
  {
    RoundTripFacts(d, lenient1, lenient2, zoneIds);
    EncodeOnText(d, lenient1);
    DecodeOnText(d + "T00:00:00" + "Z", lenient2, zoneIds);
  }

  lemma RoundTripFacts(d: string, lenient1: string -> Option<string>, lenient2: string -> Option<string>,
                       zoneIds: string -> bool)
    requires IsJogetDate(d)
    ensures Trim(d) == d && d != []
    ensures var iso := d + "T00:00:00" + "Z";
      Trim(iso) == iso && iso != [] && EncodeText(d, lenient1) == iso && DecodeText(iso, lenient2, zoneIds) == d
  {
    JogetDateChars(d);
    EncodeTextOfDate(d, lenient1);
    MidnightTrimmed(d);
    DecodeTextOfMidnight(d, lenient2, zoneIds);
  }

  lemma {:induction false} StripSuffixZ(s: string)
    requires '+' !in s && 'Z' !in s
    ensures StripZone(s + "Z") == s
    decreases |s|
  {
    if s == [] {
      assert ("" + "Z")[1..] == [];
    } else {
      assert (s + "Z")[1..] == s[1..] + "Z";
      StripSuffixZ(s[1..]);
      assert s == [s[0]] + s[1..];
    }
  }

  lemma {:induction false} StripZonePrefix(a: string, b: string)
    requires '+' !in a && 'Z' !in a
    ensures StripZone(a + b) == a + StripZone(b)
    decreases |a|
  {
    if a == [] {
      assert a + b == b;
    } else {
      var c, tail := a[0], a[1..];
      assert c != '+' && c != 'Z' by { assert c in a; }
      TailLacks(a, '+');
      TailLacks(a, 'Z');
      StripZonePrefix(tail, b);
      StripZoneCons(c, tail + b);
      ConsConcat(a, b);
      ConsConcat(a, StripZone(b));
    }
  }

  lemma ConsConcat(a: string, b: string)
    requires a != []
    ensures a + b == [a[0]] + (a[1..] + b)
  {
    assert a == [a[0]] + a[1..];
  }

  lemma StripZoneCons(c: char, t: string)
    requires c != '+' && c != 'Z'
    ensures StripZone([c] + t) == [c] + StripZone(t)
  {
    assert ([c] + t)[1..] == t;
  }

  lemma TailLacks(a: string, c: char)
    requires a != [] && c !in a
    ensures c !in a[1..]
  {
  }

  lemma StripZoneKeepsPrefix(s: string, n: nat)
    requires n <= |s| && '+' !in s[..n] && 'Z' !in s[..n]
    ensures |StripZone(s)| >= n && StripZone(s)[..n] == s[..n]
  {
    assert s == s[..n] + s[n..];
    StripZonePrefix(s[..n], s[n..]);
  }

  /**
   * Decoding a date-time whose zone-stripped text parses gives its
   * calendar-date part: `2024-01-15T10:30:00+02:00` becomes `2024-01-15`.
   */
  lemma DecodeKeepsDatePart(s: string, lenient: string -> Option<string>, zoneIds: string -> bool)
    requires |s| > 10 && IsJogetDate(s[..10]) && s[10] == 'T'
    requires IsLocalDateTime(StripZone(s), zoneIds)
    ensures DecodeText(s, lenient, zoneIds) == s[..10]
  {
    assert 'T' in s by { assert s[10] == 'T'; }
    DecodeTextParsed(s, lenient, zoneIds);
    DateShapeMarks(s[..10]);
    StripZoneKeepsPrefix(s, 10);
  }

  /**
   * A date-time whose offset is followed by a bracketed region id decodes
   * to its date when `ZoneId` knows the id, and is returned as it is when
   * it does not: `2024-01-01T10:00-05:00[UTC]` becomes `2024-01-01`.
   */
  lemma DecodeRegion(d: string, time: string, off: string, id: string,
                     lenient: string -> Option<string>, zoneIds: string -> bool)
    requires IsJogetDate(d) && IsLocalTime(time) && IsOffset(off) && '+' !in id && 'Z' !in id
    ensures var s := d + "T" + time + off + "[" + id + "]";
      DecodeText(s, lenient, zoneIds) == if zoneIds(id) then d else s
  {
    var z := off + "[" + id + "]";
    var s := d + "T" + time + z;
    assert s == d + "T" + time + off + "[" + id + "]";
    RegionSuffix(off, id, zoneIds);
    LocalTimeChars(time);
    TimeRunPrefix(time, z);
    RegionText(d, time, z);
    RegionMarks(d, time, off, id);
  }

  /** The offset-and-region suffix is accepted exactly when the id is known, and is no bare offset. */
  lemma RegionSuffix(off: string, id: string, zoneIds: string -> bool)
    requires IsOffset(off)
    ensures var z := off + "[" + id + "]";
      z != [] && !IsTimeChar(z[0]) && !IsOffset(z) && (IsOffsetWithRegion(z, zoneIds) <==> zoneIds(id))
  {
    var z := off + "[" + id + "]";
    OffsetChars(off);
    assert z[|off|] == '[' && z[0] == off[0];
    assert '[' !in z[..|off|] by { assert z[..|off|] == off; }
    assert IndexOf(z, '[') == |off|;
    assert z[..|off|] == off && z[|off| + 1..|z| - 1] == id;
    assert z[|z| - 1] == ']';
  }

  lemma OffsetChars(off: string)
    requires IsOffset(off)
    ensures off != [] && !IsTimeChar(off[0]) && '[' !in off && '+' !in off && 'Z' !in off
  {
    assert forall i :: 0 <= i < |off| ==> IsDigit(off[i]) || off[i] in {'-', ':', 'z'};
  }

  lemma LocalTimeChars(time: string)
    requires IsLocalTime(time)
    ensures forall i :: 0 <= i < |time| ==> IsTimeChar(time[i])
    ensures '+' !in time && 'Z' !in time
  {
  }

  lemma {:induction false} TimeRunPrefix(a: string, b: string)
    requires forall i :: 0 <= i < |a| ==> IsTimeChar(a[i])
    requires b != [] && !IsTimeChar(b[0])
    ensures TimeRun(a + b) == |a|
    decreases |a|
  {
    if a == [] {
      assert a + b == b;
    } else {
      ConsConcat(a, b);
      assert (a + b)[1..] == a[1..] + b;
      TimeRunPrefix(a[1..], b);
    }
  }

  /** How the parser splits `d + "T" + time + z`. */
  lemma RegionText(d: string, time: string, z: string)
    requires |d| == 10 && |time| >= 5
    ensures var s := d + "T" + time + z;
      |s| >= 16 && s[..10] == d && s[10] == 'T' && s[11..] == time + z &&
      (time + z)[..|time|] == time && (time + z)[|time|..] == z && 'T' in s
  {
    var s := d + "T" + time + z;
    assert s[10] == 'T';
  }

  lemma RegionMarks(d: string, time: string, off: string, id: string)
    requires IsDateShape(d) && '+' !in time && 'Z' !in time && IsOffset(off) && '+' !in id && 'Z' !in id
    ensures var s := d + "T" + time + off + "[" + id + "]"; '+' !in s && 'Z' !in s
  {
    DateShapeMarks(d);
    OffsetChars(off);
    var s := d + "T" + time + off + "[" + id + "]";
    forall i | 0 <= i < |s| ensures s[i] != '+' && s[i] != 'Z' {
      var n0, n1, n2 := |d|, |d| + 1 + |time|, |d| + 1 + |time| + |off|;
      if i < n0 { assert s[i] == d[i]; }
      else if i < n0 + 1 { assert s[i] == 'T'; }
      else if i < n1 { assert s[i] == time[i - n0 - 1]; }
      else if i < n2 { assert s[i] == off[i - n1]; }
      else if i < n2 + 1 { assert s[i] == '['; }
      else if i < n2 + 1 + |id| { assert s[i] == id[i - n2 - 1]; }
      else { assert s[i] == ']'; }
    }
  }

  /** A text with `T` whose zone-stripped form parses decodes to the first ten characters of that form. */
  lemma DecodeTextParsed(s: string, lenient: string -> Option<string>, zoneIds: string -> bool)
    requires 'T' in s && IsLocalDateTime(StripZone(s), zoneIds)
    ensures DecodeText(s, lenient, zoneIds) == StripZone(s)[..10]
  {
    var local := if '+' in s || 'Z' in s then StripZone(s) else s;
    assert local == StripZone(s);
  }

  /**
   * A text with no trimmable character at either end and containing `T` is
   * taken to be ISO already and encodes to itself.
   */
  lemma EncodeKeepsIso(s: string, lenient: string -> Option<string>)
    requires s != [] && !IsTrimmable(s[0]) && !IsTrimmable(s[|s| - 1]) && 'T' in s
    ensures Encode(Str(s), lenient) == Str(s)
  {
    assert Encode(Str(s), lenient) == Str(EncodeText(s, lenient)) by {
      TrimKeeps(s);
      EncodeOnText(s, lenient);
    }
  }

  lemma EncodeTextOfNonDate(s: string, lenient: string -> Option<string>)
    requires IsDateShape(s) && !IsJogetDate(s)
    ensures EncodeText(s, lenient) == s
  {
    JogetDateChars(s);
  }

  lemma DecodeTextOfDateShape(s: string, lenient: string -> Option<string>, zoneIds: string -> bool)
    requires IsDateShape(s)
    ensures DecodeText(s, lenient, zoneIds) == s
  {
    JogetDateChars(s);
  }

  /**
   * A `yyyy-MM-dd` string that names no real day (`2023-02-29`) is passed
   * through by both directions unchanged.
   */
  lemma NonDatePassesThrough(s: string, lenient1: string -> Option<string>, lenient2: string -> Option<string>,
                              zoneIds: string -> bool)
    requires IsDateShape(s) && !IsJogetDate(s)
    ensures Encode(Str(s), lenient1) == Str(s)
    ensures Decode(Str(s), lenient2, zoneIds) == Str(s)
  {
    NonDateFacts(s, lenient1, lenient2, zoneIds);
    EncodeOnText(s, lenient1);
    DecodeOnText(s, lenient2, zoneIds);
  }

  lemma NonDateFacts(s: string, lenient1: string -> Option<string>, lenient2: string -> Option<string>,
                     zoneIds: string -> bool)
    requires IsDateShape(s) && !IsJogetDate(s)
    ensures Trim(s) == s && s != [] && EncodeText(s, lenient1) == s && DecodeText(s, lenient2, zoneIds) == s
  {
    JogetDateChars(s);
    EncodeTextOfNonDate(s, lenient1);
    DecodeTextOfDateShape(s, lenient2, zoneIds);
  }

  /**
   * Encoding is idempotent when the lenient formatter, like the source's
   * `yyyy-MM-dd'T'HH:mm:ss'Z'` pattern, only produces trimmed strings
   * containing `T`: an encoded value is left alone by a second encoding.
   */
  lemma EncodeIdempotent(v: Value, lenient: string -> Option<string>)
    requires forall x :: lenient(x).Some? ==> 'T' in lenient(x).value && Trim(lenient(x).value) == lenient(x).value
    ensures Encode(Encode(v, lenient), lenient) == Encode(v, lenient)
  {
    if !(v.Null? || IsBlank(ToJavaString(v))) {
      var s := Trimmed(v);
      TrimIdempotent(ToJavaString(v));
      var e := EncodeText(s, lenient);
      EncodedText(s, lenient);
      EncodeOnText(e, lenient);
    }
  }

  /** What `EncodeText` returns is trimmed, non-empty and left alone by `EncodeText`. */
  lemma EncodedText(s: string, lenient: string -> Option<string>)
    requires forall x :: lenient(x).Some? ==> 'T' in lenient(x).value && Trim(lenient(x).value) == lenient(x).value
    requires Trim(s) == s && s != []
    ensures var e := EncodeText(s, lenient); Trim(e) == e && e != [] && EncodeText(e, lenient) == e
  {
    if 'T' in s {
      assert EncodeText(s, lenient) == s;
    } else if IsDateShape(s) {
      if IsJogetDate(s) {
        EncodeTextOfDate(s, lenient);
        MidnightTrimmed(s);
      } else {
        EncodeTextOfNonDate(s, lenient);
      }
    } else {
      EncodedLenient(s, lenient);
    }
  }

  lemma EncodedLenient(s: string, lenient: string -> Option<string>)
    requires forall x :: lenient(x).Some? ==> 'T' in lenient(x).value && Trim(lenient(x).value) == lenient(x).value
    requires 'T' !in s && !IsDateShape(s) && Trim(s) == s && s != []
    ensures var e := EncodeText(s, lenient); Trim(e) == e && e != [] && EncodeText(e, lenient) == e
  {
    match lenient(s)
    case None =>
    case Some(iso) =>
      assert 'T' in iso && iso != [];
  }
}
