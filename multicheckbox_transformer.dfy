/**
 * MultiCheckboxTransformer: Joget stores the options ticked in a
 * multi-select as one separated string; GovStack JSON wants an array of
 * strings.
 */
module MultiCheckboxTransformer {
  import opened JavaStr
  import opened JavaValues

  /** The pieces kept by `map(String::trim).filter(s -> !s.isEmpty())`. */
  function Kept(pieces: seq<string>): (r: seq<string>)
    ensures |r| <= |pieces|
    ensures forall k :: 0 <= k < |r| ==> IsTrimmedWord(r[k])
  {
    if pieces == [] then []
    else
      var t := Trim(pieces[0]);
      var rest := Kept(pieces[1..]);
      if t == [] then rest
      else
        TrimIdempotent(pieces[0]);
        TrimmedCons(t, rest);
        [t] + rest
  }

  /** Non-empty and nothing to trim. */
  predicate IsTrimmedWord(t: string) { t != [] && Trim(t) == t }

  lemma TrimmedCons(t: string, rest: seq<string>)
    requires IsTrimmedWord(t)
    requires forall k :: 0 <= k < |rest| ==> IsTrimmedWord(rest[k])
    ensures forall k :: 0 <= k < |rest| + 1 ==> IsTrimmedWord(([t] + rest)[k])
  {
    forall k | 0 <= k < |rest| + 1 ensures IsTrimmedWord(([t] + rest)[k]) {
      if k > 0 {
        assert ([t] + rest)[k] == rest[k - 1];
      }
    }
  }

  /** A Java List of Strings. */
  function Strs(ts: seq<string>): (r: seq<Value>)
    ensures |r| == |ts| && forall k :: 0 <= k < |ts| ==> r[k] == Str(ts[k])
  {
    if ts == [] then [] else [Str(ts[0])] + Strs(ts[1..])
  }

  /** The separator: ';' when the text has one, ',' otherwise. */
  function Separator(s: string): char { if ';' in s then ';' else ',' }

  /**
   * `encode`: null or blank gives an empty list; otherwise the trimmed text
   * is split on its separator and every trimmed, non-empty piece is kept in
   * order. No item is empty, none has anything to trim, and none holds the
   * separator.
   */
  function Encode(v: Value): (r: Value)
    ensures r.List?
    ensures v.Null? || IsBlank(ToJavaString(v)) ==> r.items == []
    ensures forall k :: 0 <= k < |r.items| ==> r.items[k].Str? && IsTrimmedWord(r.items[k].s)
  {
    if v.Null? || IsBlank(ToJavaString(v)) then List([])
    else
      var value := Trim(ToJavaString(v));
      List(Strs(Kept(Split(value, Separator(value)))))
  }

  /** `list.stream().filter(item -> item != null).map(Object::toString)`. */
  function NonNullTexts(items: seq<Value>): (r: seq<string>)
    ensures |r| <= |items|
  {
    if items == [] then []
    else (if items[0].Null? then [] else [ToJavaString(items[0])]) + NonNullTexts(items[1..])
  }

  /**
   * `decode`: null is ""; a list is the texts of its non-null items joined
   * with ';'; any other value is its `toString`, and text in square
   * brackets loses the brackets and every double quote and has its commas
   * turned into ';'.
   */
  function Decode(v: Value): (r: string)
    ensures v.Null? ==> r == ""
    ensures v.List? ==> r == Join(NonNullTexts(v.items), ";")
    ensures !v.Null? && !v.List? && !IsBracketed(ToJavaString(v)) ==> r == ToJavaString(v)
  {
    if v.Null? then ""
    else if v.List? then Join(NonNullTexts(v.items), ";")
    else
      var value := ToJavaString(v);
      if IsBracketed(value) then Unbracket(value) else value
  }

  /** `startsWith("[") && endsWith("]")`; a lone "[" does not end with "]". */
  predicate IsBracketed(s: string)
  {
    StartsWith(s, "[") && EndsWith(s, "]")
  }

  function Unbracket(s: string): (r: string)
    requires IsBracketed(s)
    ensures '"' !in r && ',' !in r
  {
    assert s[..1] == "[" && s[|s| - 1..] == "]";
    assert s[0] == '[' && s[|s| - 1] == ']';
    var inner := RemoveChar(s[1..|s| - 1], '"');
    var r := ReplaceChar(inner, ',', ';');
    assert forall i :: 0 <= i < |r| ==> r[i] != ',';
    r
  }

  /**
   * `supports`: the type equals, ignoring case, "multiCheckbox",
   * "multicheckbox", "multiselect", "array" or "list"; compared in lower case
   * the first two are one name.
   */
  predicate Supports(transformType: string)
  {
    var t := ToLower(transformType);
    t == "multicheckbox" || t == "multiselect" || t == "array" || t == "list"
  }

  // ---- properties ----

  /** Option names that have nothing to trim and hold neither separator. */
  predicate IsCleanOption(t: string)
  {
    t != [] && Trim(t) == t && ';' !in t && ',' !in t
  }

  lemma {:induction false} KeptClean(ts: seq<string>)
    requires forall k :: 0 <= k < |ts| ==> IsTrimmedWord(ts[k])
    ensures Kept(ts) == ts
  {
    if ts != [] {
      KeptClean(ts[1..]);
      assert ts == [ts[0]] + ts[1..];
    }
  }

  lemma {:induction false} TextsOfStrs(ts: seq<string>)
    ensures NonNullTexts(Strs(ts)) == ts
  {
    if ts != [] {
      TextsOfStrs(ts[1..]);
      assert Strs(ts)[1..] == Strs(ts[1..]);
      assert ts == [ts[0]] + ts[1..];
    }
  }

  /** A join of non-empty pieces starts with the first piece's first char and ends with the last piece's last char. */
  lemma {:induction false} JoinEnds(ts: seq<string>, sep: string)
    requires |ts| >= 1 && forall k :: 0 <= k < |ts| ==> ts[k] != []
    ensures Join(ts, sep) != []
    ensures Join(ts, sep)[0] == ts[0][0]
    ensures Join(ts, sep)[|Join(ts, sep)| - 1] == ts[|ts| - 1][|ts[|ts| - 1]| - 1]
  {
    if |ts| >= 2 {
      JoinEnds(ts[1..], sep);
    }
  }

  lemma TrimmedEnds(t: string)
    requires t != [] && Trim(t) == t
    ensures !IsTrimmable(t[0]) && !IsTrimmable(t[|t| - 1])
  {
  }

  /** A join of pieces whose outer chars are not trimmable is already trimmed and not blank. */
  lemma JoinTrimmed(ts: seq<string>, sep: string)
    requires |ts| >= 1 && forall k :: 0 <= k < |ts| ==> ts[k] != []
    requires !IsTrimmable(ts[0][0]) && !IsTrimmable(ts[|ts| - 1][|ts[|ts| - 1]| - 1])
    ensures Trim(Join(ts, sep)) == Join(ts, sep) && !IsBlank(Join(ts, sep))
  {
    JoinEnds(ts, sep);
    TrimKeeps(Join(ts, sep));
  }

  /** A join whose pieces and separator all lack `c` lacks `c`. */
  lemma {:induction false} JoinLacks(ts: seq<string>, sep: string, c: char)
    requires forall k :: 0 <= k < |ts| ==> c !in ts[k]
    requires c !in sep
    ensures c !in Join(ts, sep)
    decreases |ts|
  {
    if |ts| >= 2 {
      JoinLacks(ts[1..], sep, c);
      assert Join(ts, sep) == ts[0] + sep + Join(ts[1..], sep);
    }
  }

  /** Splitting the join of clean option names on its separator gives them back. */
  lemma SplitJoined(ts: seq<string>)
    requires |ts| >= 1 && forall k :: 0 <= k < |ts| ==> IsCleanOption(ts[k])
    ensures var s := Join(ts, ";"); Split(s, Separator(s)) == ts
  {
    var s := Join(ts, ";");
    if |ts| == 1 {
      assert s == ts[0];
    } else {
      JoinSplitAll(ts, ';');
      assert ts[|ts| - 1] != [];
    }
  }

  /** The same for names joined with ',': the text holds no ';', so it is split on ','. */
  lemma SplitCommaJoined(ts: seq<string>)
    requires |ts| >= 1 && forall k :: 0 <= k < |ts| ==> IsCleanOption(ts[k])
    ensures var s := Join(ts, ","); Split(s, Separator(s)) == ts
  {
    var s := Join(ts, ",");
    if |ts| == 1 {
      assert s == ts[0];
    } else {
      JoinLacks(ts, ",", ';');
      assert Separator(s) == ',';
      JoinSplitAll(ts, ',');
      assert ts[|ts| - 1] != [];
    }
  }

  /** Names with nothing to trim, joined so that splitting gives them back, encode to their list. */
  lemma EncodeJoined(ts: seq<string>, sep: string)
    requires forall k :: 0 <= k < |ts| ==> IsTrimmedWord(ts[k])
    requires ts != [] ==> Split(Join(ts, sep), Separator(Join(ts, sep))) == ts
    ensures Encode(Str(Join(ts, sep))) == List(Strs(ts))
  {
    if ts == [] {
      assert IsBlank(Join(ts, sep));
    } else {
      var s := Join(ts, sep);
      assert Trim(s) == s && !IsBlank(s) by {
        TrimmedEnds(ts[0]);
        TrimmedEnds(ts[|ts| - 1]);
        JoinTrimmed(ts, sep);
      }
      assert ToJavaString(Str(s)) == s;
      assert Kept(ts) == ts by { KeptClean(ts); }
      assert Encode(Str(s)) == List(Strs(Kept(Split(s, Separator(s)))));
    }
  }

  /** Clean option names joined with ';' encode to the list of those names. */
  lemma EncodeSemicolonJoined(ts: seq<string>)
    requires forall k :: 0 <= k < |ts| ==> IsCleanOption(ts[k])
    ensures Encode(Str(Join(ts, ";"))) == List(Strs(ts))
  {
    if ts != [] {
      SplitJoined(ts);
    }
    EncodeJoined(ts, ";");
  }

  /** Clean option names joined with ',' encode to the list of those names. */
  lemma EncodeCommaJoined(ts: seq<string>)
    requires forall k :: 0 <= k < |ts| ==> IsCleanOption(ts[k])
    ensures Encode(Str(Join(ts, ","))) == List(Strs(ts))
  {
    if ts != [] {
      SplitCommaJoined(ts);
    }
    EncodeJoined(ts, ",");
  }

  /** "a,b,c" and "a;b;c" encode to the same list. */
  lemma CommaLikeSemicolon(ts: seq<string>)
    requires forall k :: 0 <= k < |ts| ==> IsCleanOption(ts[k])
    ensures Encode(Str(Join(ts, ","))) == Encode(Str(Join(ts, ";")))
  {
    EncodeCommaJoined(ts);
    EncodeSemicolonJoined(ts);
  }

  /**
   * Clean option names joined with ';' encode to the list of those names,
   * and decoding that list gives the same text back.
   */
  lemma RoundTrip(ts: seq<string>)
    requires forall k :: 0 <= k < |ts| ==> IsCleanOption(ts[k])
    ensures Encode(Str(Join(ts, ";"))) == List(Strs(ts))
    ensures Decode(Encode(Str(Join(ts, ";")))) == Join(ts, ";")
  {
    EncodeSemicolonJoined(ts);
    TextsOfStrs(ts);
  }

  /** Decoding a list of strings and encoding the text gives the list back. */
  lemma ListRoundTrip(ts: seq<string>)
    requires forall k :: 0 <= k < |ts| ==> IsCleanOption(ts[k])
    ensures Encode(Str(Decode(List(Strs(ts))))) == List(Strs(ts))
  {
    TextsOfStrs(ts);
    RoundTrip(ts);
  }

  /** A bracketed list in text form becomes ';'-separated without quotes. */
  lemma DecodeBracketed(inner: string)
    requires '"' !in inner
    ensures Decode(Str("[" + inner + "]")) == ReplaceChar(inner, ',', ';')
  {
    var s := "[" + inner + "]";
    assert s[1..|s| - 1] == inner;
    RemoveAbsent(inner, '"');
  }

  lemma {:induction false} RemoveAbsent(s: string, c: char)
    requires c !in s
    ensures RemoveChar(s, c) == s
  {
    if s != [] {
      RemoveAbsent(s[1..], c);
      assert s == [s[0]] + s[1..];
    }
  }
}
