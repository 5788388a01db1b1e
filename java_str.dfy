/**
 * The java.lang.String and java.lang.Long operations the submitter relies on,
 * stated over `seq<char>`. Case mapping is the ASCII subset of Java's.
 */
module JavaStr {
  import opened Wrappers

  /** `String.trim` removes every char up to and including U+0020. */
  predicate IsTrimmable(c: char) { c <= ' ' }

  function TrimStart(s: string): (r: string)
    ensures |r| <= |s| && r == s[|s| - |r|..]
    ensures r == [] || !IsTrimmable(r[0])
    ensures forall i :: 0 <= i < |s| - |r| ==> IsTrimmable(s[i])
  {
    if s != [] && IsTrimmable(s[0]) then TrimStart(s[1..]) else s
  }

  function TrimEnd(s: string): (r: string)
    ensures |r| <= |s| && r == s[..|r|]
    ensures r == [] || !IsTrimmable(r[|r| - 1])
    ensures forall i :: |r| <= i < |s| ==> IsTrimmable(s[i])
  {
    if s != [] && IsTrimmable(s[|s| - 1]) then TrimEnd(s[..|s| - 1]) else s
  }

  /** `String.trim`. */
  function Trim(s: string): (r: string)
    ensures |r| <= |s|
    ensures r == [] || (!IsTrimmable(r[0]) && !IsTrimmable(r[|r| - 1]))
  {
    TrimEnd(TrimStart(s))
  }

  /** `s.trim().isEmpty()`. */
  predicate IsBlank(s: string) { Trim(s) == [] }

  lemma {:induction false} TrimStartKeeps(s: string)
    requires s == [] || !IsTrimmable(s[0])
    ensures TrimStart(s) == s
  {
  }

  lemma {:induction false} TrimEndKeeps(s: string)
    requires s == [] || !IsTrimmable(s[|s| - 1])
    ensures TrimEnd(s) == s
  {
  }

  /** Text whose first and last chars are not trimmable is its own trim and not blank. */
  lemma TrimKeeps(s: string)
    requires s != [] && !IsTrimmable(s[0]) && !IsTrimmable(s[|s| - 1])
    ensures Trim(s) == s && !IsBlank(s)
  {
    TrimStartKeeps(s);
    TrimEndKeeps(s);
  }

  /** Trimming twice is trimming once. */
  lemma TrimIdempotent(s: string)
    ensures Trim(Trim(s)) == Trim(s)
  {
    var t := Trim(s);
    TrimStartKeeps(t);
    TrimEndKeeps(t);
  }

  /** A string is blank exactly when every char of it is trimmable. */
  lemma BlankIffAllTrimmable(s: string)
    ensures IsBlank(s) <==> forall i :: 0 <= i < |s| ==> IsTrimmable(s[i])
  {
  }

  // ---- ASCII case mapping ----

  function LowerChar(c: char): (r: char)
    ensures 'A' <= c <= 'Z' ==> 'a' <= r <= 'z'
    ensures !('A' <= c <= 'Z') ==> r == c
  {
    if 'A' <= c <= 'Z' then (c as int + 32) as char else c
  }

  function UpperChar(c: char): (r: char)
    ensures 'a' <= c <= 'z' ==> 'A' <= r <= 'Z'
    ensures !('a' <= c <= 'z') ==> r == c
  {
    if 'a' <= c <= 'z' then (c as int - 32) as char else c
  }

  function ToLower(s: string): (r: string)
    ensures |r| == |s|
    ensures forall i :: 0 <= i < |s| ==> r[i] == LowerChar(s[i])
  {
    if s == [] then [] else [LowerChar(s[0])] + ToLower(s[1..])
  }

  function ToUpper(s: string): (r: string)
    ensures |r| == |s|
    ensures forall i :: 0 <= i < |s| ==> r[i] == UpperChar(s[i])
  {
    if s == [] then [] else [UpperChar(s[0])] + ToUpper(s[1..])
  }

  /** Text without upper-case ASCII letters is its own lower case. */
  lemma LowerKeeps(s: string)
    requires forall i :: 0 <= i < |s| ==> !('A' <= s[i] <= 'Z')
    ensures ToLower(s) == s
  {
  }

  /** `String.equalsIgnoreCase`, for ASCII letters. */
  predicate EqualsIgnoreCase(a: string, b: string) { ToLower(a) == ToLower(b) }

  // ---- searching ----

  predicate StartsWith(s: string, p: string) { |p| <= |s| && s[..|p|] == p }

  predicate EndsWith(s: string, p: string) { |p| <= |s| && s[|s| - |p|..] == p }

  /** `String.contains`: some suffix of `s` starts with `t`. */
  predicate Contains(s: string, t: string)
    decreases |s|
  {
    StartsWith(s, t) || (s != [] && Contains(s[1..], t))
  }

  lemma StartsWithExtend(a: string, b: string, p: string)
    requires StartsWith(a, p)
    ensures StartsWith(a + b, p)
  {
    assert (a + b)[..|p|] == a[..|p|];
  }

  lemma EndsWithExtend(a: string, b: string, p: string)
    requires EndsWith(b, p)
    ensures EndsWith(a + b, p)
  {
    assert (a + b)[|a + b| - |p|..] == b[|b| - |p|..];
  }

  /** A text found in `b` is found in any string that ends with `b`. */
  lemma {:induction false} ContainsInSuffix(a: string, b: string, t: string)
    requires Contains(b, t)
    ensures Contains(a + b, t)
    decreases |a|
  {
    if a != [] {
      assert (a + b)[1..] == a[1..] + b;
      ContainsInSuffix(a[1..], b, t);
    } else {
      assert a + b == b;
    }
  }

  /** A text found in `a` is found in any string that starts with `a`. */
  lemma {:induction false} ContainsInPrefix(a: string, b: string, t: string)
    requires Contains(a, t)
    ensures Contains(a + b, t)
    decreases |a|
  {
    if StartsWith(a, t) {
      assert (a + b)[..|t|] == a[..|t|];
    } else {
      assert (a + b)[1..] == a[1..] + b;
      ContainsInPrefix(a[1..], b, t);
    }
  }

  /** A text found in the middle part of `a + b + c`. */
  lemma ContainsInMiddle(a: string, b: string, c: string, t: string)
    requires Contains(b, t)
    ensures Contains(a + b + c, t)
  {
    ContainsInSuffix(a, b, t);
    ContainsInPrefix(a + b, c, t);
  }

  /** `String.indexOf(String)`: the first position where `t` starts, None for -1. */
  function IndexOfText(s: string, t: string): (r: Option<nat>)
    ensures r.Some? ==> r.value <= |s| && StartsWith(s[r.value..], t)
    decreases |s|
  {
    if StartsWith(s, t) then Some(0)
    else if s == [] then None
    else
      var k := IndexOfText(s[1..], t);
      if k.Some? then
        assert s[1..][k.value..] == s[k.value + 1..];
        Some(k.value + 1)
      else None
  }

  /** With no occurrence starting inside `a`, the first one is where `b` starts it. */
  lemma {:induction false} IndexOfTextAfter(a: string, b: string, t: string)
    requires StartsWith(b, t)
    requires forall i :: 0 <= i < |a| ==> !StartsWith((a + b)[i..], t)
    ensures IndexOfText(a + b, t) == Some(|a|)
    decreases |a|
  {
    if a == [] {
      assert a + b == b;
    } else {
      assert (a + b)[0..] == a + b;
      assert (a + b)[1..] == a[1..] + b;
      forall i | 0 <= i < |a[1..]| ensures !StartsWith((a[1..] + b)[i..], t) {
        assert (a + b)[i + 1..] == (a[1..] + b)[i..];
      }
      IndexOfTextAfter(a[1..], b, t);
    }
  }

  /** `String.indexOf(char)` for a char known to occur. */
  function IndexOf(s: string, c: char): (r: nat)
    requires c in s
    ensures r < |s| && s[r] == c && c !in s[..r]
  {
    if s[0] == c then 0 else 1 + IndexOf(s[1..], c)
  }

  /**
   * `String.replace(target, replacement)`: every occurrence of `t`, scanned
   * left to right without overlap, becomes `r`.
   */
  function Replace(s: string, t: string, r: string): (res: string)
    requires t != []
    ensures !Contains(s, t) ==> res == s
    decreases |s|
  {
    if s == [] then []
    else if StartsWith(s, t) then r + Replace(s[|t|..], t, r)
    else [s[0]] + Replace(s[1..], t, r)
  }

  /** Replacing inside a prefix that holds no occurrence leaves the prefix alone. */
  lemma {:induction false} ReplaceAfterPrefix(a: string, b: string, t: string, r: string)
    requires t != []
    requires forall i :: 0 <= i < |a| ==> !StartsWith((a + b)[i..], t)
    ensures Replace(a + b, t, r) == a + Replace(b, t, r)
  {
    if a != [] {
      assert !StartsWith((a + b)[0..], t);
      assert (a + b)[0..] == a + b;
      assert (a + b)[1..] == a[1..] + b;
      forall i | 0 <= i < |a[1..]| ensures !StartsWith((a[1..] + b)[i..], t) {
        assert (a + b)[i + 1..] == (a[1..] + b)[i..];
      }
      ReplaceAfterPrefix(a[1..], b, t, r);
    }
  }

  /**
   * The first character of `t` does not occur again in `t`, as for the
   * `{name}` placeholders: an occurrence of `t` can then start neither
   * inside another one nor inside a text that holds none.
   */
  predicate HeadUnique(t: string) { t != [] && t[0] !in t[1..] }

  /** `s` is the pieces `ps` joined by `t`, and no piece holds `t` itself. */
  predicate CutBy(s: string, ps: seq<string>, t: string)
  {
    s == Join(ps, t) && forall i :: 0 <= i < |ps| ==> !Contains(ps[i], t)
  }

  /** An occurrence of `t` after a text that holds none is the first one replaced. */
  lemma {:induction false} ReplaceAround(a: string, b: string, t: string, r: string)
    requires HeadUnique(t) && !Contains(a, t)
    ensures Replace(a + t + b, t, r) == a + r + Replace(b, t, r)
    decreases |a|
  {
    if a == [] {
      var s := t + b;
      assert a + t + b == s && s[|t|..] == b;
    } else {
      var c, tail := a[0], a[1..];
      var rb := Replace(b, t, r);
      NoStraddle(a, b, t);
      ReplaceAround(tail, b, t, r);
      ReplaceSkip(c, tail + t + b, t, r);
      ConsAround(a, t, b);
      ConsAround(a, r, rb);
    }
  }

  /** `a + t + b` does not start with `t` when `a` is non-empty and holds no `t`. */
  lemma NoStraddle(a: string, b: string, t: string)
    requires HeadUnique(t) && !Contains(a, t) && a != []
    ensures !StartsWith([a[0]] + (a[1..] + t + b), t) && !Contains(a[1..], t)
  {
    ConsAround(a, t, b);
    NotAtFront(a, b, t);
  }

  lemma NotAtFront(a: string, b: string, t: string)
    requires HeadUnique(t) && !StartsWith(a, t) && a != []
    ensures !StartsWith(a + t + b, t)
  {
    var s := a + t + b;
    if |t| <= |a| {
      assert s[..|t|] == a[..|t|];
    } else {
      assert s[|a|] == t[0];
      assert t[1..][|a| - 1] == t[|a|];
    }
  }

  lemma ReplaceSkip(c: char, s: string, t: string, r: string)
    requires t != [] && !StartsWith([c] + s, t)
    ensures Replace([c] + s, t, r) == [c] + Replace(s, t, r)
  {
    assert ([c] + s)[1..] == s;
  }

  lemma ConsAround(a: string, x: string, y: string)
    requires a != []
    ensures a + x + y == [a[0]] + (a[1..] + x + y)
  {
    assert a == [a[0]] + a[1..];
  }

  /**
   * Replacing `t` in pieces joined by `t` joins the same pieces by `r`,
   * when no piece holds `t` itself.
   */
  lemma {:induction false} ReplaceJoin(ps: seq<string>, t: string, r: string)
    requires HeadUnique(t)
    requires forall i :: 0 <= i < |ps| ==> !Contains(ps[i], t)
    ensures Replace(Join(ps, t), t, r) == Join(ps, r)
    decreases |ps|
  {
    if |ps| > 1 {
      ReplaceJoin(ps[1..], t, r);
      ReplaceAround(ps[0], Join(ps[1..], t), t, r);
    }
  }

  /** `String.replace(char, char)`. */
  function ReplaceChar(s: string, a: char, b: char): (r: string)
    ensures |r| == |s|
    ensures forall i :: 0 <= i < |s| ==> r[i] == (if s[i] == a then b else s[i])
  {
    if s == [] then [] else [if s[0] == a then b else s[0]] + ReplaceChar(s[1..], a, b)
  }

  /** Removes every occurrence of `c` (`replace("\"", "")` on a one-char target). */
  function RemoveChar(s: string, c: char): (r: string)
    ensures c !in r
    ensures |r| <= |s|
  {
    if s == [] then [] else (if s[0] == c then [] else [s[0]]) + RemoveChar(s[1..], c)
  }

  /** `String.repeat` of a one-char string. */
  function Repeat(c: char, n: nat): (r: string)
    ensures |r| == n && forall i :: 0 <= i < n ==> r[i] == c
  {
    if n == 0 then [] else [c] + Repeat(c, n - 1)
  }

  /**
   * `String.format("%-Ns", s)`: `s` left-justified in a field of `width`
   * chars, padded with spaces on the right; a longer `s` is not cut.
   */
  function PadRight(s: string, width: nat): (r: string)
    ensures |r| == if |s| < width then width else |s|
    ensures r[..|s|] == s
    ensures forall i :: |s| <= i < |r| ==> r[i] == ' '
  {
    if |s| < width then s + Repeat(' ', width - |s|) else s
  }

  // ---- split and join ----

  /** Every piece between occurrences of `sep`, trailing empty pieces included. */
  function SplitAll(s: string, sep: char): (r: seq<string>)
    ensures |r| >= 1
    ensures forall k :: 0 <= k < |r| ==> sep !in r[k]
    decreases |s|
  {
    if sep in s then
      var i := IndexOf(s, sep);
      [s[..i]] + SplitAll(s[i + 1..], sep)
    else [s]
  }

  /** The first occurrence of `c` in `a + [c] + b` when `a` holds none. */
  lemma {:induction false} IndexOfAt(a: string, c: char, b: string)
    requires c !in a
    ensures IndexOf(a + [c] + b, c) == |a|
    decreases |a|
  {
    if a != [] {
      assert (a + [c] + b)[1..] == a[1..] + [c] + b;
      IndexOfAt(a[1..], c, b);
    }
  }

  /** The first piece is everything before the first separator. */
  lemma SplitAllAt(a: string, sep: char, b: string)
    requires sep !in a
    ensures SplitAll(a + [sep] + b, sep) == [a] + SplitAll(b, sep)
  {
    var s := a + [sep] + b;
    assert s[|a|] == sep;
    IndexOfAt(a, sep, b);
    assert s[..|a|] == a;
    assert s[|a| + 1..] == b;
  }

  function DropTrailingEmpty(ps: seq<string>): (r: seq<string>)
    ensures |r| <= |ps| && r == ps[..|r|]
    ensures r == [] || r[|r| - 1] != []
    ensures forall k :: |r| <= k < |ps| ==> ps[k] == []
  {
    if ps != [] && ps[|ps| - 1] == [] then DropTrailingEmpty(ps[..|ps| - 1]) else ps
  }

  /**
   * `String.split` on a single literal char: with no separator the whole
   * string is the only piece; otherwise trailing empty pieces are dropped.
   */
  function Split(s: string, sep: char): (r: seq<string>)
    ensures forall k :: 0 <= k < |r| ==> sep !in r[k]
    ensures sep !in s ==> r == [s]
  {
    if sep in s then DropTrailingEmpty(SplitAll(s, sep)) else [s]
  }

  function Join(parts: seq<string>, sep: string): (r: string)
    ensures |parts| == 1 ==> r == parts[0]
  {
    if parts == [] then []
    else if |parts| == 1 then parts[0]
    else parts[0] + sep + Join(parts[1..], sep)
  }

  /** Joining the pieces back with the separator gives the original string. */
  lemma {:induction false} SplitAllJoin(s: string, sep: char)
    ensures Join(SplitAll(s, sep), [sep]) == s
    decreases |s|
  {
    if sep in s {
      var i := IndexOf(s, sep);
      var head, tail := s[..i], s[i + 1..];
      var rest := SplitAll(tail, sep);
      SplitAllFirst(s, sep);
      SplitAllJoin(tail, sep);
      JoinCons(head, rest, [sep]);
      AroundIndex(s, i);
    }
  }

  lemma SplitAllFirst(s: string, sep: char)
    requires sep in s
    ensures SplitAll(s, sep) == [s[..IndexOf(s, sep)]] + SplitAll(s[IndexOf(s, sep) + 1..], sep)
  {
  }

  lemma AroundIndex(s: string, i: nat)
    requires i < |s|
    ensures s == s[..i] + [s[i]] + s[i + 1..]
  {
  }

  /** Every piece is found in the pieces joined. */
  lemma {:induction false} JoinHasPart(ps: seq<string>, sep: string, i: nat)
    requires i < |ps|
    ensures Contains(Join(ps, sep), ps[i])
    decreases |ps|
  {
    var p := ps[i];
    if |ps| == 1 {
      assert StartsWith(p, p) by { assert p[..|p|] == p; }
    } else if i == 0 {
      assert StartsWith(p, p) by { assert p[..|p|] == p; }
      ContainsInPrefix(p, sep, p);
      ContainsInPrefix(p + sep, Join(ps[1..], sep), p);
    } else {
      assert ps[1..][i - 1] == p;
      JoinHasPart(ps[1..], sep, i - 1);
      ContainsInSuffix(ps[0] + sep, Join(ps[1..], sep), p);
    }
  }

  lemma JoinCons(p: string, rest: seq<string>, sep: string)
    requires rest != []
    ensures Join([p] + rest, sep) == p + sep + Join(rest, sep)
  {
    assert ([p] + rest)[1..] == rest;
  }

  /** Splitting a join of separator-free pieces gives the pieces back. */
  lemma {:induction false} JoinSplitAll(parts: seq<string>, sep: char)
    requires |parts| >= 1
    requires forall k :: 0 <= k < |parts| ==> sep !in parts[k]
    ensures SplitAll(Join(parts, [sep]), sep) == parts
    ensures |parts| >= 2 ==> sep in Join(parts, [sep])
    decreases |parts|
  {
    if |parts| >= 2 {
      var rest := Join(parts[1..], [sep]);
      assert Join(parts, [sep]) == parts[0] + [sep] + rest;
      assert sep in Join(parts, [sep]) by {
        assert (parts[0] + [sep] + rest)[|parts[0]|] == sep;
      }
      assert SplitAll(rest, sep) == parts[1..] by {
        forall k | 0 <= k < |parts[1..]| ensures sep !in parts[1..][k] {
          assert parts[1..][k] == parts[k + 1];
        }
        JoinSplitAll(parts[1..], sep);
      }
      assert SplitAll(parts[0] + [sep] + rest, sep) == [parts[0]] + parts[1..] by {
        SplitAllAt(parts[0], sep, rest);
      }
      assert parts == [parts[0]] + parts[1..];
    }
  }

  // ---- integers ----

  predicate IsDigit(c: char) { '0' <= c <= '9' }

  predicate AllDigits(s: string) { forall i :: 0 <= i < |s| ==> IsDigit(s[i]) }

  function DigitValue(c: char): (r: nat)
    requires IsDigit(c)
    ensures r < 10
  {
    c as int - '0' as int
  }

  function DigitChar(d: nat): (c: char)
    requires d < 10
    ensures IsDigit(c) && DigitValue(c) == d
  {
    ('0' as int + d) as char
  }

  /** The value of a run of decimal digits, most significant first. */
  function DigitsValue(ds: string): nat
    requires AllDigits(ds)
  {
    if ds == [] then 0 else DigitsValue(ds[..|ds| - 1]) * 10 + DigitValue(ds[|ds| - 1])
  }

  function NatToString(n: nat): (r: string)
    ensures r != [] && AllDigits(r)
  {
    if n < 10 then [DigitChar(n)] else NatToString(n / 10) + [DigitChar(n % 10)]
  }

  /** `Long.toString` / `Integer.toString`. */
  function IntToString(n: int): (r: string)
    ensures r != []
  {
    if n < 0 then "-" + NatToString(-n) else NatToString(n)
  }

  const LONG_MIN: int := -0x8000_0000_0000_0000
  const LONG_MAX: int := 0x7FFF_FFFF_FFFF_FFFF
  const INT_MAX: int := 0x7FFF_FFFF

  /**
   * `Long.parseLong`: an optional sign, then at least one decimal digit, and
   * the value must fit in 64 bits; anything else is a NumberFormatException.
   */
  function ParseLong(s: string): (r: Option<int>)
    ensures r.Some? ==> LONG_MIN <= r.value <= LONG_MAX
    ensures r.Some? ==> s != [] && (IsDigit(s[0]) || s[0] == '-' || s[0] == '+')
  {
    if s == [] then None
    else
      var neg := s[0] == '-';
      var ds := if s[0] == '-' || s[0] == '+' then s[1..] else s;
      if ds == [] || !AllDigits(ds) then None
      else
        var v: int := DigitsValue(ds);
        var n := if neg then -v else v;
        if LONG_MIN <= n <= LONG_MAX then Some(n) else None
  }

  /** `Integer.parseInt` of a run of digits (the only input it gets here). */
  function ParseDigitsAsInt(ds: string): (r: Option<nat>)
    requires AllDigits(ds)
    ensures r.Some? ==> r.value <= INT_MAX
  {
    if ds != [] && DigitsValue(ds) <= INT_MAX then Some(DigitsValue(ds)) else None
  }

  lemma {:induction false} NatToStringValue(n: nat)
    ensures DigitsValue(NatToString(n)) == n
  {
    if n >= 10 {
      NatToStringValue(n / 10);
      var s := NatToString(n / 10) + [DigitChar(n % 10)];
      assert s[..|s| - 1] == NatToString(n / 10);
    }
  }

  /** Printing a 64-bit integer and parsing it back gives the same integer. */
  lemma ParseLongOfIntToString(n: int)
    requires LONG_MIN <= n <= LONG_MAX
    ensures ParseLong(IntToString(n)) == Some(n)
  {
    var m: nat := if n < 0 then -n else n;
    var ds := NatToString(m);
    NatToStringValue(m);
    assert IsDigit(ds[0]);
    if n < 0 {
      var s := "-" + ds;
      assert s[0] == '-' && s[1..] == ds;
      assert ParseLong(s) == Some(n);
    } else {
      assert ParseLong(ds) == Some(n);
    }
  }

  /**
   * `Long.toString` writes only digits after an optional minus sign: nothing
   * to trim and no decimal point.
   */
  lemma IntToStringPlain(n: int)
    ensures '.' !in IntToString(n)
    ensures Trim(IntToString(n)) == IntToString(n)
  {
    var r := IntToString(n);
    assert forall i :: 0 <= i < |r| ==> IsDigit(r[i]) || r[i] == '-';
    TrimStartKeeps(r);
    TrimEndKeeps(r);
  }

  /** A value outside the 64-bit range is refused by `Long.parseLong`. */
  lemma ParseLongOutOfRange(n: int)
    requires n < LONG_MIN || LONG_MAX < n
    ensures ParseLong(IntToString(n)) == None
  {
    if n < 0 {
      NatToStringValue(-n);
      assert ("-" + NatToString(-n))[1..] == NatToString(-n);
    } else {
      NatToStringValue(n);
    }
  }
}
