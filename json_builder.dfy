/**
 * JsonBuilder: builds a nested JSON document by writing values at dotted,
 * optionally indexed paths such as `name.given[0]` or `address[0].city`.
 */
module JsonBuilderModel {
  import opened Wrappers
  import JavaStr
  import opened JsonNodes
  import opened JavaValues

  // ---- path segments ----

  /**
   * One dot-separated part of a path: a plain member name, a member name with
   * an element index, or an index that `Integer.parseInt` rejects.
   */
  datatype Segment = Field(name: string) | Indexed(name: string, index: nat) | BadIndex

  /** Length of the run of decimal digits of `s` that starts at `i`. */
  function DigitRun(s: string, i: nat): (n: nat)
    ensures i + n <= |s| || (i >= |s| && n == 0)
    ensures forall k :: i <= k < i + n ==> JavaStr.IsDigit(s[k])
    ensures i + n < |s| ==> !JavaStr.IsDigit(s[i + n])
    decreases |s| - i
  {
    if i < |s| && JavaStr.IsDigit(s[i]) then 1 + DigitRun(s, i + 1) else 0
  }

  /** The pattern `\[(\d+)\]` matches at position `p`. */
  predicate IndexMatchAt(s: string, p: nat)
  {
    var n := DigitRun(s, p + 1);
    p + n + 1 < |s| && s[p] == '[' && n > 0 && s[p + n + 1] == ']'
  }

  /** `Matcher.find`: the leftmost position at or after `p` where the pattern matches. */
  function FindIndexMatch(s: string, p: nat): (r: Option<nat>)
    ensures r.Some? ==> p <= r.value && IndexMatchAt(s, r.value)
    ensures r.Some? ==> forall q :: p <= q < r.value ==> !IndexMatchAt(s, q)
    ensures r.None? ==> forall q :: p <= q < |s| ==> !IndexMatchAt(s, q)
    decreases |s| - p
  {
    if p >= |s| then None
    else if IndexMatchAt(s, p) then Some(p)
    else FindIndexMatch(s, p + 1)
  }

  /**
   * A part with a bracketed digit run anywhere in it is indexed: its name is
   * the text before the first `[`, its index the first bracketed digit run.
   */
  function ParseSegment(part: string): Segment
  {
    match FindIndexMatch(part, 0)
    case None => Field(part)
    case Some(p) =>
      var digits := part[p + 1..p + 1 + DigitRun(part, p + 1)];
      match JavaStr.ParseDigitsAsInt(digits)
      case None => BadIndex
      case Some(index) => Indexed(part[..JavaStr.IndexOf(part, '[')], index)
  }

  function ParseParts(parts: seq<string>): (segs: seq<Segment>)
    ensures |segs| == |parts|
    ensures forall k :: 0 <= k < |parts| ==> segs[k] == ParseSegment(parts[k])
  {
    if parts == [] then [] else [ParseSegment(parts[0])] + ParseParts(parts[1..])
  }

  lemma ParsePartsCons(parts: seq<string>)
    requires parts != []
    ensures ParseParts(parts)[0] == ParseSegment(parts[0])
    ensures ParseParts(parts)[1..] == ParseParts(parts[1..])
  {
    assert ParseParts(parts) == [ParseSegment(parts[0])] + ParseParts(parts[1..]);
  }

  /** `path.split("\\.")`, each part parsed. */
  function ParsePath(path: string): seq<Segment>
  {
    ParseParts(JavaStr.Split(path, '.'))
  }

  /** `name[digits]` with a bracket-free name parses to that name and index. */
  lemma IndexedSegment(name: string, digits: string)
    requires '[' !in name && digits != [] && JavaStr.AllDigits(digits)
    requires JavaStr.DigitsValue(digits) <= JavaStr.INT_MAX
    ensures ParseSegment(name + "[" + digits + "]") == Indexed(name, JavaStr.DigitsValue(digits))
  {
    var part := name + "[" + digits + "]";
    var p := |name|;
    assert part[p] == '[';
    DigitRunOf(part, p + 1, digits);
    assert IndexMatchAt(part, p);
    forall q | 0 <= q < p ensures !IndexMatchAt(part, q) {
      assert part[q] == name[q];
    }
    assert part[p + 1..p + 1 + |digits|] == digits;
    IndexOfAfter(name, part);
  }

  lemma {:induction false} DigitRunOf(s: string, i: nat, digits: string)
    requires i + |digits| < |s| && s[i..i + |digits|] == digits
    requires JavaStr.AllDigits(digits) && !JavaStr.IsDigit(s[i + |digits|])
    ensures DigitRun(s, i) == |digits|
    decreases |digits|
  {
    if digits != [] {
      assert s[i + 1..i + 1 + |digits[1..]|] == digits[1..];
      DigitRunOf(s, i + 1, digits[1..]);
    }
  }

  lemma IndexOfAfter(name: string, part: string)
    requires |name| < |part| && part[..|name|] == name && '[' !in name && part[|name|] == '['
    ensures JavaStr.IndexOf(part, '[') == |name|
  {
  }

  // ---- the specification of setValue ----

  /** `ensureObject`'s child: the member if it is an object, otherwise a new `{}`. */
  function ObjectChild(fields: Fields, name: string): (r: Json)
    ensures r.JObj?
  {
    match Get(fields, name)
    case Some(JObj(f)) => JObj(f)
    case _ => JObj([])
  }

  /** `ensureArray`'s child: the member if it is an array, otherwise a new `[]`. */
  function ArrayChild(fields: Fields, name: string): (r: Json)
    ensures r.JArr?
  {
    match Get(fields, name)
    case Some(JArr(e)) => JArr(e)
    case _ => JArr([])
  }

  function Max(a: int, b: int): int { if a < b then b else a }

  /** `elems` extended with `filler` until it has at least `n` elements. */
  function PadTo(elems: seq<Json>, n: nat, filler: Json): (r: seq<Json>)
    ensures |r| == Max(|elems|, n)
    ensures r[..|elems|] == elems
    ensures forall k :: |elems| <= k < |r| ==> r[k] == filler
  {
    if |elems| >= n then elems else elems + seq(n - |elems|, _ => filler)
  }

  /**
   * The node `cur` after writing `v` along `segs`, with the Java builder's
   * rules: a missing or wrongly typed member on the way is replaced (by `{}`
   * for a plain part, by `[]` for an indexed one); a plain part applied to an
   * array leaves the cursor on that array; an indexed part applied to an
   * array indexes it directly. Where the Java code throws (an index above
   * `Integer.MAX_VALUE`, or a cast of a non-object or non-array node) the
   * exception is caught, so the node keeps the changes made before it.
   */
  function SetPath(cur: Json, segs: seq<Segment>, v: Json): (r: Json)
    decreases |segs|, 1
  {
    if segs == [] then cur
    else match segs[0]
      case BadIndex => cur
      case Field(name) =>
        if |segs| == 1 then
          (if cur.JObj? then JObj(Set(cur.fields, name, v)) else cur)
        else if cur.JObj? then
          JObj(Set(cur.fields, name, SetPath(ObjectChild(cur.fields, name), segs[1..], v)))
        else SetPath(cur, segs[1..], v)
      case Indexed(name, index) =>
        if cur.JObj? then
          JObj(Set(cur.fields, name, AtIndex(ArrayChild(cur.fields, name), index, segs[1..], v)))
        else if cur.JArr? then AtIndex(cur, index, segs[1..], v)
        else cur
  }

  /**
   * An indexed write into array `arr`: as the last part, pad with nulls and
   * replace element `index` (`setArrayValue`); otherwise pad with empty
   * objects and continue inside element `index` (`ensureArrayElement`).
   */
  function AtIndex(arr: Json, index: nat, rest: seq<Segment>, v: Json): (r: Json)
    requires arr.JArr?
    ensures r.JArr?
    decreases |rest| + 1, 0
  {
    if rest == [] then JArr(PadTo(arr.elems, index + 1, JNull)[index := v])
    else
      var padded := PadTo(arr.elems, index + 1, JObj([]));
      JArr(padded[index := SetPath(padded[index], rest, v)])
  }

  /**
   * `setValue(path, value)`: a blank path or a null value changes nothing;
   * otherwise the converted value is written along the parsed path.
   */
  function SetAt(root: Json, path: string, value: Value): Json
  {
    if JavaStr.IsBlank(path) || value.Null? then root
    else SetPath(root, ParsePath(path), ToNode(value))
  }

  // ---- properties of setValue ----

  /** Writing never changes the kind of the node written into. */
  lemma {:induction false} SetPathKeepsKind(cur: Json, segs: seq<Segment>, v: Json)
    ensures cur.JObj? ==> SetPath(cur, segs, v).JObj?
    ensures cur.JArr? ==> SetPath(cur, segs, v).JArr?
    ensures !cur.JObj? && !cur.JArr? ==> SetPath(cur, segs, v) == cur
    decreases |segs|
  {
    if segs != [] && segs[0].Field? && |segs| > 1 && !cur.JObj? {
      SetPathKeepsKind(cur, segs[1..], v);
    }
  }

  /** A blank path or a null value leaves the document unchanged. */
  lemma NoOpWrites(root: Json, path: string, value: Value)
    requires JavaStr.IsBlank(path) || value.Null?
    ensures SetAt(root, path, value) == root
  {
  }

  /**
   * Writing the same path twice is the same as writing only the second
   * value: the last write wins and the first leaves no trace.
   */
  lemma {:induction false} SetPathTwice(cur: Json, segs: seq<Segment>, v1: Json, v2: Json)
    ensures SetPath(SetPath(cur, segs, v1), segs, v2) == SetPath(cur, segs, v2)
    decreases |segs|, 2
  {
    if segs != [] && cur.JObj? {
      match segs[0]
      case BadIndex =>
      case Field(name) =>
        if |segs| == 1 {
          SetSet(cur.fields, name, v1, v2);
        } else {
          FieldTwice(cur, name, segs, v1, v2);
        }
      case Indexed(name, index) =>
        IndexedTwice(cur, name, index, segs, v1, v2);
    } else if segs != [] {
      NonObjectTwice(cur, segs, v1, v2);
    }
  }

  lemma {:induction false} NonObjectTwice(cur: Json, segs: seq<Segment>, v1: Json, v2: Json)
    requires !cur.JObj? && segs != []
    ensures SetPath(SetPath(cur, segs, v1), segs, v2) == SetPath(cur, segs, v2)
    decreases |segs|, 1
  {
    if segs[0].Field? && |segs| > 1 {
      NonObjectFieldTwice(cur, segs[0].name, segs, v1, v2);
    } else if segs[0].Indexed? && cur.JArr? {
      AtIndexTwice(cur, segs[0].index, segs[1..], v1, v2);
    } else {
      NonObjectNoOp(cur, segs, v1);
      NonObjectNoOp(cur, segs, v2);
    }
  }

  /** The writes that leave a non-object node alone. */
  lemma NonObjectNoOp(cur: Json, segs: seq<Segment>, v: Json)
    requires !cur.JObj? && segs != []
    requires !(segs[0].Field? && |segs| > 1) && !(segs[0].Indexed? && cur.JArr?)
    ensures SetPath(cur, segs, v) == cur
  {
  }

  lemma {:induction false} NonObjectFieldTwice(cur: Json, name: string, segs: seq<Segment>, v1: Json, v2: Json)
    requires !cur.JObj? && |segs| > 1 && segs[0] == Field(name)
    ensures SetPath(SetPath(cur, segs, v1), segs, v2) == SetPath(cur, segs, v2)
    decreases |segs|, 0
  {
    var rest := segs[1..];
    var w1 := SetPath(cur, rest, v1);
    assert SetPath(cur, segs, v1) == w1;
    SetPathKeepsKind(cur, rest, v1);
    assert SetPath(w1, segs, v2) == SetPath(w1, rest, v2);
    SetPathTwice(cur, rest, v1, v2);
  }

  lemma {:induction false} FieldTwice(cur: Json, name: string, segs: seq<Segment>, v1: Json, v2: Json)
    requires cur.JObj? && |segs| > 1 && segs[0] == Field(name)
    ensures SetPath(SetPath(cur, segs, v1), segs, v2) == SetPath(cur, segs, v2)
    decreases |segs|, 1
  {
    var rest := segs[1..];
    var child := ObjectChild(cur.fields, name);
    var c1 := SetPath(child, rest, v1);
    SetPathKeepsKind(child, rest, v1);
    assert ObjectChild(Set(cur.fields, name, c1), name) == c1;
    SetPathTwice(child, rest, v1, v2);
    SetSet(cur.fields, name, c1, SetPath(child, rest, v2));
  }

  lemma {:induction false} IndexedTwice(cur: Json, name: string, index: nat, segs: seq<Segment>, v1: Json, v2: Json)
    requires cur.JObj? && segs != [] && segs[0] == Indexed(name, index)
    ensures SetPath(SetPath(cur, segs, v1), segs, v2) == SetPath(cur, segs, v2)
    decreases |segs|, 1
  {
    var rest := segs[1..];
    var arr := ArrayChild(cur.fields, name);
    var a1 := AtIndex(arr, index, rest, v1);
    assert ArrayChild(Set(cur.fields, name, a1), name) == a1;
    AtIndexTwice(arr, index, rest, v1, v2);
    SetSet(cur.fields, name, a1, AtIndex(arr, index, rest, v2));
  }

  lemma {:induction false} AtIndexTwice(arr: Json, index: nat, rest: seq<Segment>, v1: Json, v2: Json)
    requires arr.JArr?
    ensures AtIndex(AtIndex(arr, index, rest, v1), index, rest, v2) == AtIndex(arr, index, rest, v2)
    decreases |rest| + 1, 0
  {
    var a1 := AtIndex(arr, index, rest, v1);
    if rest == [] {
      var p := PadTo(arr.elems, index + 1, JNull);
      assert PadTo(a1.elems, index + 1, JNull) == a1.elems;
      assert a1.elems[index := v2] == p[index := v2];
    } else {
      var p := PadTo(arr.elems, index + 1, JObj([]));
      assert PadTo(a1.elems, index + 1, JObj([])) == a1.elems;
      SetPathTwice(p[index], rest, v1, v2);
      assert a1.elems[index := SetPath(a1.elems[index], rest, v2)] == p[index := SetPath(p[index], rest, v2)];
    }
  }

  /** Last write wins, at the level of `setValue`. */
  lemma SetAtTwice(root: Json, path: string, v1: Value, v2: Value)
    requires !v1.Null? && !v2.Null?
    ensures SetAt(SetAt(root, path, v1), path, v2) == SetAt(root, path, v2)
  {
    if !JavaStr.IsBlank(path) {
      SetPathTwice(root, ParsePath(path), ToNode(v1), ToNode(v2));
    }
  }

  /**
   * A final indexed write pads with nulls to `index + 1` elements and
   * replaces only element `index`: the new length is max(old, index + 1) and
   * every other old element is kept.
   */
  lemma FinalIndexedWrite(arr: Json, index: nat, v: Json)
    requires arr.JArr?
    ensures var r := AtIndex(arr, index, [], v).elems;
      && |r| == Max(|arr.elems|, index + 1)
      && r[index] == v
      && (forall k :: 0 <= k < |arr.elems| && k != index ==> r[k] == arr.elems[k])
      && (forall k :: |arr.elems| <= k < |r| && k != index ==> r[k] == JNull)
  {
    var p := PadTo(arr.elems, index + 1, JNull);
    forall k | 0 <= k < |arr.elems| && k != index ensures p[k] == arr.elems[k] {
      assert p[..|arr.elems|][k] == p[k];
    }
  }

  /**
   * A final plain write into an object sets exactly that member: the member
   * reads back as the converted value and every sibling is unchanged.
   */
  lemma FinalFieldWrite(fields: Fields, name: string, value: Value)
    requires !value.Null? && !JavaStr.IsBlank(name) && '.' !in name
    requires FindIndexMatch(name, 0).None?
    ensures var r := SetAt(JObj(fields), name, value);
      && r.JObj?
      && Get(r.fields, name) == Some(ToNode(value))
      && forall k :: k != name ==> Get(r.fields, k) == Get(fields, k)
  {
    assert ParsePath(name) == [Field(name)];
  }

  /** Members other than the first part's name are never touched by a write. */
  lemma SiblingsUntouched(fields: Fields, segs: seq<Segment>, v: Json, other: string)
    requires segs != [] && !segs[0].BadIndex? && segs[0].name != other
    ensures var r := SetPath(JObj(fields), segs, v);
      r.JObj? && Get(r.fields, other) == Get(fields, other)
  {
  }

  /**
   * Writing `"x"` at `a.b[1].c` into an empty document gives
   * `{"a":{"b":[{},{"c":"x"}]}}`.
   */
  lemma ExampleNestedArrayPath()
    ensures SetPath(JObj([]), [Field("a"), Indexed("b", 1), Field("c")], JStr("x"))
      == JObj([("a", JObj([("b", JArr([JObj([]), JObj([("c", JStr("x"))])]))]))])
  {
    var inner := AtIndex(JArr([]), 1, [Field("c")], JStr("x"));
    assert PadTo([], 2, JObj([])) == [JObj([]), JObj([])];
    assert inner == JArr([JObj([]), JObj([("c", JStr("x"))])]);
  }

  /** A part without `[` is a plain member name. */
  lemma PlainSegment(part: string)
    requires '[' !in part
    ensures ParseSegment(part) == Field(part)
  {
    forall q | 0 <= q < |part| ensures !IndexMatchAt(part, q) {
      assert part[q] != '[';
    }
  }

  lemma ExampleSplitTail()
    ensures JavaStr.SplitAll("b[1].c", '.') == ["b[1]", "c"]
  {
    assert JavaStr.IndexOf("b[1].c", '.') == 4;
    assert JavaStr.SplitAll("c", '.') == ["c"];
    assert "b[1].c"[..4] == "b[1]" && "b[1].c"[5..] == "c";
  }

  lemma ExampleSplitAll()
    ensures JavaStr.SplitAll("a.b[1].c", '.') == ["a", "b[1]", "c"]
  {
    ExampleSplitTail();
    assert JavaStr.IndexOf("a.b[1].c", '.') == 1;
    assert "a.b[1].c"[..1] == "a" && "a.b[1].c"[2..] == "b[1].c";
  }

  lemma ExampleSplit()
    ensures JavaStr.Split("a.b[1].c", '.') == ["a", "b[1]", "c"]
  {
    ExampleSplitAll();
    assert '.' in "a.b[1].c";
    assert JavaStr.DropTrailingEmpty(["a", "b[1]", "c"]) == ["a", "b[1]", "c"];
  }

  lemma ExampleIndexedSegment()
    ensures ParseSegment("b[1]") == Indexed("b", 1)
  {
    assert JavaStr.DigitsValue("1") == 1;
    IndexedSegment("b", "1");
    assert "b" + "[" + "1" + "]" == "b[1]";
  }

  lemma ExampleParts(parts: seq<string>)
    requires parts == ["a", "b[1]", "c"]
    ensures ParseParts(parts) == [Field("a"), Indexed("b", 1), Field("c")]
  {
    PlainSegment("a");
    PlainSegment("c");
    ExampleIndexedSegment();
  }

  /** The path `a.b[1].c` parses to a plain part, an indexed part and a plain part. */
  lemma ExamplePathParse(path: string)
    requires path == "a.b[1].c"
    ensures ParsePath(path) == [Field("a"), Indexed("b", 1), Field("c")]
  {
    ExampleSplit();
    ExampleParts(JavaStr.Split(path, '.'));
  }

  /**
   * From an empty document, `setValue("a.b[1].c", "x")` makes `a.b` an array
   * of two elements, the first an empty object and the second `{"c":"x"}`.
   */
  lemma ExampleSetValue(path: string)
    requires path == "a.b[1].c"
    ensures SetAt(JObj([]), path, Str("x"))
      == JObj([("a", JObj([("b", JArr([JObj([]), JObj([("c", JStr("x"))])]))]))])
  {
    ExamplePathParse(path);
    assert !JavaStr.IsBlank(path) by {
      assert path[0] == 'a';
      JavaStr.BlankIffAllTrimmable(path);
    }
    ExampleNestedArrayPath();
  }

  // ---- addArrayItem ----

  /**
   * `navigateToPath(path, true)` followed by the append of `addArrayItem`:
   * parts holding `[` are skipped; inside an object a missing member is
   * created as `[]` and entered; a node that is not an object is never left
   * again; the item is appended only if the node finally reached is an array.
   */
  function AddItemPath(cur: Json, parts: seq<string>, item: Json): Json
    decreases |parts|
  {
    if parts == [] then (if cur.JArr? then JArr(cur.elems + [item]) else cur)
    else if '[' in parts[0] then AddItemPath(cur, parts[1..], item)
    else if cur.JObj? then
      var child := Get(cur.fields, parts[0]).GetOr(JArr([]));
      JObj(Set(cur.fields, parts[0], AddItemPath(child, parts[1..], item)))
    else AddItemPath(cur, parts[1..], item)
  }

  /** `addArrayItem(path, item)`: a blank path or a null item changes nothing. */
  function AddItemAt(root: Json, path: string, item: Value): Json
  {
    if JavaStr.IsBlank(path) || item.Null? then root
    else AddItemPath(root, JavaStr.Split(path, '.'), ToNode(item))
  }

  lemma {:induction false} AddItemPathKeepsObject(cur: Json, parts: seq<string>, item: Json)
    requires cur.JObj?
    ensures AddItemPath(cur, parts, item).JObj?
    decreases |parts|
  {
    if parts != [] && '[' in parts[0] {
      AddItemPathKeepsObject(cur, parts[1..], item);
    }
  }

  /** A node that is neither an object nor an array is never changed. */
  lemma {:induction false} AddItemPathScalar(cur: Json, parts: seq<string>, item: Json)
    requires !cur.JObj? && !cur.JArr?
    ensures AddItemPath(cur, parts, item) == cur
    decreases |parts|
  {
    if parts != [] {
      AddItemPathScalar(cur, parts[1..], item);
    }
  }

  /**
   * Once inside an array, the remaining parts are ignored and the item is
   * appended to that array.
   */
  lemma {:induction false} AddItemPathArray(cur: Json, parts: seq<string>, item: Json)
    requires cur.JArr?
    ensures AddItemPath(cur, parts, item) == JArr(cur.elems + [item])
    decreases |parts|
  {
    if parts != [] {
      AddItemPathArray(cur, parts[1..], item);
    }
  }

  /** The member path `a.b.c` of plain names, read from a document. */
  function GetPath(j: Json, names: seq<string>): Option<Json>
    decreases |names|
  {
    if names == [] then Some(j)
    else if j.JObj? then
      match Get(j.fields, names[0])
      case Some(c) => GetPath(c, names[1..])
      case None => None
    else None
  }

  /**
   * As written, adding an item at the documented example path
   * `extension.crops` of an empty document creates `extension` as an array
   * and appends the item there; no `crops` member is ever made.
   */
  lemma AddArrayItemAsWritten(path: string, item: Json)
    requires path == "extension.crops"
    ensures AddItemAt(JObj([]), path, Node(item)) == JObj([("extension", JArr([item]))])
    ensures GetPath(AddItemAt(JObj([]), path, Node(item)), ["extension", "crops"]) == None
  {
    ExampleSplitExtension(path);
    ExampleNotBlank(path);
    AddItemExtensionCrops(path, item);
  }

  /** The same, for any path that is not blank and splits into `extension` and `crops`. */
  lemma AddItemExtensionCrops(path: string, item: Json)
    requires !JavaStr.IsBlank(path) && JavaStr.Split(path, '.') == ["extension", "crops"]
    ensures AddItemAt(JObj([]), path, Node(item)) == JObj([("extension", JArr([item]))])
    ensures GetPath(AddItemAt(JObj([]), path, Node(item)), ["extension", "crops"]) == None
  {
    var parts := JavaStr.Split(path, '.');
    var r := AddItemAt(JObj([]), path, Node(item));
    assert r == AddItemPath(JObj([]), parts, item) by { AddItemAtPlain(JObj([]), path, item); }
    assert r == JObj([("extension", JArr([item]))]) by { ExampleAddItemParts(parts, item); }
    NoCropsMember(["extension", "crops"], item);
  }

  lemma AddItemAtPlain(root: Json, path: string, item: Json)
    requires !JavaStr.IsBlank(path)
    ensures AddItemAt(root, path, Node(item)) == AddItemPath(root, JavaStr.Split(path, '.'), item)
  {
    assert ToNode(Node(item)) == item;
  }

  lemma ExampleNotBlank(path: string)
    requires path == "extension.crops"
    ensures !JavaStr.IsBlank(path)
  {
    assert path[0] == 'e';
    JavaStr.BlankIffAllTrimmable(path);
  }

  lemma NoCropsMember(names: seq<string>, item: Json)
    requires names == ["extension", "crops"]
    ensures GetPath(JObj([("extension", JArr([item]))]), names) == None
  {
    var fs: Fields := [("extension", JArr([item]))];
    assert Get(fs, "extension") == Some(JArr([item]));
    assert GetPath(JArr([item]), names[1..]) == None;
  }

  lemma ExampleSplitExtension(path: string)
    requires path == "extension.crops"
    ensures JavaStr.Split(path, '.') == ["extension", "crops"]
  {
    assert JavaStr.IndexOf(path, '.') == 9;
    assert path[..9] == "extension" && path[10..] == "crops";
    assert JavaStr.SplitAll("crops", '.') == ["crops"];
  }

  lemma ExampleAddItemParts(parts: seq<string>, item: Json)
    requires parts == ["extension", "crops"]
    ensures AddItemPath(JObj([]), parts, item) == JObj([("extension", JArr([item]))])
  {
    assert '[' !in parts[0];
    var empty: Fields := [];
    assert Get(empty, "extension") == None;
    AddItemPathArray(JArr([]), parts[1..], item);
    var inner := AddItemPath(JArr([]), parts[1..], item);
    assert inner == JArr([item]);
    assert AddItemPath(JObj([]), parts, item) == JObj(Set(empty, "extension", inner));
    assert Set(empty, "extension", JArr([item])) == [("extension", JArr([item]))];
  }

  /**
   * The evidently intended `addArrayItem`: every part but the last is an
   * object (created or replaced as `ensureObject` does), the last is an array
   * (as `ensureArray` does), and the item is appended to that array.
   */
  function AppendAt(cur: Json, names: seq<string>, item: Json): (r: Json)
    requires cur.JObj? && names != []
    ensures r.JObj?
    decreases |names|
  {
    var name := names[0];
    if |names| == 1 then
      JObj(Set(cur.fields, name, JArr(ArrayChild(cur.fields, name).elems + [item])))
    else
      JObj(Set(cur.fields, name, AppendAt(ObjectChild(cur.fields, name), names[1..], item)))
  }

  /** The plain parts of a split path (bracketed parts are skipped, as in the source). */
  function PlainParts(parts: seq<string>): (r: seq<string>)
    ensures forall k :: 0 <= k < |r| ==> '[' !in r[k]
  {
    if parts == [] then []
    else if '[' in parts[0] then PlainParts(parts[1..])
    else [parts[0]] + PlainParts(parts[1..])
  }

  function AddItemCorrected(root: Json, path: string, item: Value): Json
    requires root.JObj?
  {
    var names := PlainParts(JavaStr.Split(path, '.'));
    if JavaStr.IsBlank(path) || item.Null? || names == [] then root
    else AppendAt(root, names, ToNode(item))
  }

  /** The node read is an array whose last element is `item`. */
  predicate LastItem(a: Option<Json>, item: Json)
  {
    && a.Some? && a.value.JArr? && |a.value.elems| >= 1
    && a.value.elems[|a.value.elems| - 1] == item
  }

  /**
   * With the correction, the member path reaches an array whose last element
   * is the item and which is one longer than the array that was there (or
   * than the empty array, if there was none).
   */
  lemma {:induction false} AppendAtReadBack(cur: Json, names: seq<string>, item: Json)
    requires cur.JObj? && names != []
    ensures LastItem(GetPath(AppendAt(cur, names, item), names), item)
    decreases |names|
  {
    if |names| > 1 {
      AppendAtReadBack(ObjectChild(cur.fields, names[0]), names[1..], item);
    }
  }

  lemma AddItemCorrectedPlain(root: Json, path: string, item: Value)
    requires root.JObj? && !JavaStr.IsBlank(path) && !item.Null?
    requires PlainParts(JavaStr.Split(path, '.')) != []
    ensures AddItemCorrected(root, path, item) == AppendAt(root, PlainParts(JavaStr.Split(path, '.')), ToNode(item))
  {
  }

  lemma AddItemCorrectedReadBack(root: Json, path: string, item: Value)
    requires root.JObj? && !JavaStr.IsBlank(path) && !item.Null?
    requires PlainParts(JavaStr.Split(path, '.')) != []
    ensures LastItem(GetPath(AddItemCorrected(root, path, item), PlainParts(JavaStr.Split(path, '.'))), ToNode(item))
  {
    var names := PlainParts(JavaStr.Split(path, '.'));
    var j := ToNode(item);
    var r := AddItemCorrected(root, path, item);
    assert r == AppendAt(root, names, j) by { AddItemCorrectedPlain(root, path, item); }
    AppendAtReadBack(root, names, j);
  }

  // ---- the builder object ----

  /**
   * A place the cursor descended through: a member of an object, or an
   * element of an array, each holding the rest of its container.
   */
  datatype Frame = InField(fields: Fields, name: string) | InElement(elems: seq<Json>, index: nat)

  function Fill(f: Frame, c: Json): Json
  {
    match f
    case InField(fs, name) => JObj(Set(fs, name, c))
    case InElement(es, index) => if index < |es| then JArr(es[index := c]) else JArr(es)
  }

  /** The whole document, given the frames from the root down and the node at the cursor. */
  function Plug(frames: seq<Frame>, c: Json): Json
    decreases |frames|
  {
    if frames == [] then c else Plug(frames[..|frames| - 1], Fill(frames[|frames| - 1], c))
  }

  lemma PlugPush(frames: seq<Frame>, f: Frame, c: Json)
    ensures Plug(frames + [f], c) == Plug(frames, Fill(f, c))
  {
    assert (frames + [f])[..|frames|] == frames;
  }

  /**
   * The two padding loops of the builder (`ensureArrayElement` pads with
   * empty objects, `setArrayValue` with nulls): append `filler` until element
   * `index` exists.
   */
  method PadElements(elems: seq<Json>, index: nat, filler: Json) returns (r: seq<Json>)
    ensures r == PadTo(elems, index + 1, filler)
  {
    r := elems;
    while |r| <= index
      invariant |elems| <= |r| <= Max(|elems|, index + 1)
      invariant r[..|elems|] == elems
      invariant forall k :: |elems| <= k < |r| ==> r[k] == filler
    {
      r := r + [filler];
    }
    PadIsPadTo(elems, index, filler, r);
  }

  lemma PadIsPadTo(elems: seq<Json>, index: nat, filler: Json, r: seq<Json>)
    requires |r| == Max(|elems|, index + 1) && r[..|elems|] == elems
    requires forall k :: |elems| <= k < |r| ==> r[k] == filler
    ensures r == PadTo(elems, index + 1, filler)
  {
    var p := PadTo(elems, index + 1, filler);
    forall k | 0 <= k < |r| ensures r[k] == p[k] {
      if k < |elems| {
        assert r[k] == r[..|elems|][k] && p[k] == p[..|elems|][k];
      }
    }
  }

  // ---- one step of the builder's cursor, as the loop of setValue takes it ----

  lemma StepIntoObject(frames: seq<Frame>, cur: Json, name: string, segs: seq<Segment>, v: Json)
    requires cur.JObj? && |segs| > 1 && segs[0] == Field(name)
    ensures Plug(frames + [InField(cur.fields, name)], SetPath(ObjectChild(cur.fields, name), segs[1..], v))
      == Plug(frames, SetPath(cur, segs, v))
  {
    PlugPush(frames, InField(cur.fields, name), SetPath(ObjectChild(cur.fields, name), segs[1..], v));
  }

  lemma StepIndexed(frames: seq<Frame>, cur: Json, name: string, index: nat, segs: seq<Segment>, v: Json)
    requires cur.JObj? && segs != [] && segs[0] == Indexed(name, index)
    ensures Plug(frames + [InField(cur.fields, name)], AtIndex(ArrayChild(cur.fields, name), index, segs[1..], v))
      == Plug(frames, SetPath(cur, segs, v))
  {
    PlugPush(frames, InField(cur.fields, name), AtIndex(ArrayChild(cur.fields, name), index, segs[1..], v));
  }

  lemma StepIndexedArray(cur: Json, name: string, index: nat, segs: seq<Segment>, v: Json)
    requires cur.JArr? && segs != [] && segs[0] == Indexed(name, index)
    ensures AtIndex(cur, index, segs[1..], v) == SetPath(cur, segs, v)
  {
  }

  lemma StepElementLast(arr: Json, index: nat, padded: seq<Json>, v: Json)
    requires arr.JArr? && padded == PadTo(arr.elems, index + 1, JNull)
    ensures AtIndex(arr, index, [], v) == JArr(padded[index := v])
  {
  }

  lemma StepIntoElement(frames: seq<Frame>, arr: Json, index: nat, padded: seq<Json>, rest: seq<Segment>, v: Json)
    requires arr.JArr? && rest != [] && padded == PadTo(arr.elems, index + 1, JObj([]))
    ensures Plug(frames + [InElement(padded, index)], SetPath(padded[index], rest, v))
      == Plug(frames, AtIndex(arr, index, rest, v))
  {
    PlugPush(frames, InElement(padded, index), SetPath(padded[index], rest, v));
  }

  /**
   * One part of `setValue`'s walk. `stop` is set where the builder's walk
   * ends early (an index that does not fit an int, or a node that is
   * neither an object nor an array where one is needed); otherwise the
   * cursor and the frames above it move on to the next part.
   */
  method StepPart(frames: seq<Frame>, cur: Json, seg: Segment, isLast: bool, ghost rest: seq<Segment>, v: Json)
    returns (stop: bool, frames2: seq<Frame>, cur2: Json)
    requires rest != [] && rest[0] == seg && (isLast <==> |rest| == 1)
    ensures stop ==> SetPath(cur, rest, v) == cur && frames2 == frames && cur2 == cur
    ensures !stop ==> Plug(frames2, SetPath(cur2, rest[1..], v)) == Plug(frames, SetPath(cur, rest, v))
  {
    frames2, cur2 := frames, cur;
    match seg
    case BadIndex =>
      stop := true;
    case Indexed(name, index) =>
      if cur.JObj? {
        var arr := ArrayChild(cur.fields, name);
        StepIndexed(frames, cur, name, index, rest, v);
        frames2, cur2 := IndexedPart(frames + [InField(cur.fields, name)], arr, index, isLast, rest[1..], v);
        stop := false;
      } else if cur.JArr? {
        StepIndexedArray(cur, name, index, rest, v);
        frames2, cur2 := IndexedPart(frames, cur, index, isLast, rest[1..], v);
        stop := false;
      } else {
        stop := true;
      }
    case Field(name) =>
      if isLast {
        if cur.JObj? {
          cur2 := JObj(Set(cur.fields, name, v));
          stop := false;
        } else {
          stop := true;
        }
      } else if cur.JObj? {
        StepIntoObject(frames, cur, name, rest, v);
        frames2, cur2 := frames + [InField(cur.fields, name)], ObjectChild(cur.fields, name);
        stop := false;
      } else {
        stop := false;
      }
  }

  /**
   * An indexed part applied to array `arr`: the last part pads with nulls and
   * replaces the element (`setArrayValue`); any other part pads with empty
   * objects and moves the cursor into the element (`ensureArrayElement`).
   */
  method IndexedPart(frames: seq<Frame>, arr: Json, index: nat, isLast: bool, ghost rest: seq<Segment>, v: Json)
    returns (frames2: seq<Frame>, cur2: Json)
    requires arr.JArr? && (isLast <==> rest == [])
    ensures Plug(frames2, SetPath(cur2, rest, v)) == Plug(frames, AtIndex(arr, index, rest, v))
  {
    if isLast {
      var padded := PadElements(arr.elems, index, JNull);
      StepElementLast(arr, index, padded, v);
      frames2, cur2 := frames, JArr(padded[index := v]);
    } else {
      var padded := PadElements(arr.elems, index, JObj([]));
      StepIntoElement(frames, arr, index, padded, rest, v);
      frames2, cur2 := frames + [InElement(padded, index)], padded[index];
    }
  }

  /** JsonBuilder: the document under construction, always an object at the root. */
  class JsonBuilder {
    var root: Json

    predicate Valid()
      reads this
    {
      root.JObj?
    }

    constructor ()
      ensures Valid() && root == JObj([])
    {
      root := JObj([]);
    }

    /** `getJsonNode`. */
    function Document(): (r: Json)
      reads this
      requires Valid()
      ensures r.JObj?
    {
      root
    }

    /**
     * `setValue(path, value)`: walks the parts with a cursor, creating and
     * replacing nodes on the way, and writes the value at the last part.
     */
    method SetValue(path: string, value: Value)
      requires Valid()
      modifies this
      ensures Valid()
      ensures root == SetAt(old(root), path, value)
    {
      if JavaStr.IsBlank(path) || value.Null? {
        return;
      }
      var parts := JavaStr.Split(path, '.');
      var v := ToNode(value);
      ghost var segs := ParsePath(path);
      ghost var target := SetPath(root, segs, v);
      var cur := root;
      var frames: seq<Frame> := [];
      var todo := parts;
      while todo != []
        invariant Plug(frames, SetPath(cur, ParseParts(todo), v)) == target
      {
        var stop;
        ghost var here := ParseParts(todo);
        ParsePartsCons(todo);
        stop, frames, cur := StepPart(frames, cur, ParseSegment(todo[0]), |todo| == 1, here, v);
        if stop {
          break;
        }
        todo := todo[1..];
      }
      SetPathKeepsKind(root, segs, v);
      root := Plug(frames, cur);
    }

    /**
     * `addArrayItem(path, item)`: walks the plain parts, creating missing
     * members as arrays, and appends if it ends on an array.
     */
    method AddArrayItem(path: string, item: Value)
      requires Valid()
      modifies this
      ensures Valid()
      ensures root == AddItemAt(old(root), path, item)
    {
      if JavaStr.IsBlank(path) || item.Null? {
        return;
      }
      var parts := JavaStr.Split(path, '.');
      var node := ToNode(item);
      ghost var target := AddItemPath(root, parts, node);
      AddItemPathKeepsObject(root, parts, node);
      var cur := root;
      var frames: seq<Frame> := [];
      var todo := parts;
      while todo != []
        invariant Plug(frames, AddItemPath(cur, todo, node)) == target
      {
        var part := todo[0];
        if '[' !in part && cur.JObj? {
          var child := Get(cur.fields, part).GetOr(JArr([]));
          PlugPush(frames, InField(cur.fields, part), AddItemPath(child, todo[1..], node));
          frames := frames + [InField(cur.fields, part)];
          cur := child;
        }
        todo := todo[1..];
      }
      if cur.JArr? {
        cur := JArr(cur.elems + [node]);
      }
      root := Plug(frames, cur);
    }
  }
}
