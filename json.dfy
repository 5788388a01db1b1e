/**
 * Jackson's JSON tree (RFC 8259 values) as an immutable datatype. Object
 * members keep insertion order, as Jackson's ObjectNode does.
 */
module JsonNodes {
  import opened Wrappers
  import JavaStr

  datatype Json =
    | JNull
    | JBool(b: bool)
    | JNum(n: int)
    | JDbl(repr: string)
    | JStr(s: string)
    | JArr(elems: seq<Json>)
    | JObj(fields: seq<(string, Json)>)

  type Fields = seq<(string, Json)>

  function Keys(fields: Fields): (r: seq<string>)
    ensures |r| == |fields|
  {
    if fields == [] then [] else [fields[0].0] + Keys(fields[1..])
  }

  /** `ObjectNode.has`. */
  predicate HasKey(fields: Fields, k: string)
  {
    fields != [] && (fields[0].0 == k || HasKey(fields[1..], k))
  }

  /** `ObjectNode.get`: the member named `k`, if any. */
  function Get(fields: Fields, k: string): (r: Option<Json>)
    ensures r.Some? <==> HasKey(fields, k)
    ensures r.Some? ==> (k, r.value) in fields
  {
    if fields == [] then None
    else if fields[0].0 == k then Some(fields[0].1)
    else Get(fields[1..], k)
  }

  /**
   * `ObjectNode.set`: an existing member keeps its place and takes the new
   * value; a new member goes at the end.
   */
  function Set(fields: Fields, k: string, v: Json): (r: Fields)
    ensures Get(r, k) == Some(v)
    ensures forall k2 :: k2 != k ==> Get(r, k2) == Get(fields, k2)
  {
    if fields == [] then [(k, v)]
    else if fields[0].0 == k then [(k, v)] + fields[1..]
    else [fields[0]] + Set(fields[1..], k, v)
  }

  /** Members keep their order; a new member is appended after them. */
  lemma {:induction false} SetKeys(fields: Fields, k: string, v: Json)
    ensures Keys(Set(fields, k, v)) == if HasKey(fields, k) then Keys(fields) else Keys(fields) + [k]
  {
    if fields != [] && fields[0].0 != k {
      SetKeys(fields[1..], k, v);
    }
  }

  /** Setting a member twice keeps only the second value. */
  lemma {:induction false} SetSet(fields: Fields, k: string, v1: Json, v2: Json)
    ensures Set(Set(fields, k, v1), k, v2) == Set(fields, k, v2)
  {
    if fields != [] && fields[0].0 != k {
      SetSet(fields[1..], k, v1, v2);
    }
  }

  /** Setting a member to the value it already has changes nothing. */
  lemma {:induction false} SetSame(fields: Fields, k: string)
    requires HasKey(fields, k)
    ensures Set(fields, k, Get(fields, k).value) == fields
  {
    if fields[0].0 != k {
      SetSame(fields[1..], k);
    }
  }

  // ---- compact text, as JsonNode.toString writes it ----

  function HexDigit(d: nat): (c: char)
    requires d < 16
  {
    "0123456789ABCDEF"[d]
  }

  /** Jackson's escape for one char inside a JSON string. */
  function EscapeChar(c: char): (r: string)
    ensures r != []
    ensures c != '"' && c != '\\' && c >= ' ' ==> r == [c]
  {
    if c == '"' then "\\\""
    else if c == '\\' then "\\\\"
    else if c == '\n' then "\\n"
    else if c == '\r' then "\\r"
    else if c == '\t' then "\\t"
    else if c == '\U{8}' then "\\b"
    else if c == '\U{C}' then "\\f"
    else if c < ' ' then "\\u00" + [HexDigit(c as int / 16), HexDigit(c as int % 16)]
    else [c]
  }

  function Escape(s: string): (r: string)
    ensures |r| >= |s|
  {
    if s == [] then [] else EscapeChar(s[0]) + Escape(s[1..])
  }

  function Text(j: Json): (r: string)
    ensures !j.JDbl? ==> r != []
  {
    match j
    case JNull => "null"
    case JBool(b) => if b then "true" else "false"
    case JNum(n) => JavaStr.IntToString(n)
    case JDbl(t) => t
    case JStr(s) => "\"" + Escape(s) + "\""
    case JArr(es) => "[" + ElemsText(es) + "]"
    case JObj(fs) => "{" + FieldsText(fs) + "}"
  }

  function ElemsText(es: seq<Json>): string
  {
    if es == [] then ""
    else if |es| == 1 then Text(es[0])
    else Text(es[0]) + "," + ElemsText(es[1..])
  }

  function FieldsText(fs: Fields): string
  {
    if fs == [] then ""
    else
      assert fs[0].1 < fs[0];
      var member := "\"" + Escape(fs[0].0) + "\":" + Text(fs[0].1);
      if |fs| == 1 then member else member + "," + FieldsText(fs[1..])
  }
}

/**
 * The Java objects that flow between the extractor, the codecs and the JSON
 * builder: null, String, Boolean, Integer/Long, Double, List, Map and
 * JsonNode. A Double is carried by its `Double.toString` text; parsing and
 * printing binary floating point is not part of this model.
 */
module JavaValues {
  import opened Wrappers
  import opened JsonNodes
  import JavaStr

  datatype Value =
    | Null
    | Str(s: string)
    | Bool(b: bool)
    | Int(i: int)
    | Dbl(repr: string)
    | List(items: seq<Value>)
    | Dict(entries: seq<(string, Value)>)
    | Node(node: Json)

  /**
   * `ObjectMapper.valueToTree`: strings, booleans and integers become the
   * matching JSON scalar, a List an array of its converted items in order, a
   * Map an object, and a JsonNode is kept as it is.
   */
  function ToNode(v: Value): (r: Json)
    ensures v.Null? ==> r == JNull
    ensures v.Str? ==> r == JStr(v.s)
    ensures v.Bool? ==> r == JBool(v.b)
    ensures v.Int? ==> r == JNum(v.i)
    ensures v.Dbl? ==> r == JDbl(v.repr)
    ensures v.Node? ==> r == v.node
    ensures v.List? ==> r.JArr? && |r.elems| == |v.items|
    ensures v.List? ==> forall k :: 0 <= k < |v.items| ==> r.elems[k] == ToNode(v.items[k])
    ensures v.Dict? ==> r.JObj? && |r.fields| == |v.entries|
    ensures v.Dict? ==> forall k :: 0 <= k < |v.entries| ==> r.fields[k] == (v.entries[k].0, ToNode(v.entries[k].1))
  {
    match v
    case Null => JNull
    case Str(s) => JStr(s)
    case Bool(b) => JBool(b)
    case Int(i) => JNum(i)
    case Dbl(t) => JDbl(t)
    case List(items) => JArr(seq(|items|, k requires 0 <= k < |items| => ToNode(items[k])))
    case Dict(entries) =>
      JObj(seq(|entries|, k requires 0 <= k < |entries| => (entries[k].0, ToNode(entries[k].1))))
    case Node(j) => j
  }

  /**
   * Reading a member of the converted map is converting what the map holds
   * under that key: the object has the member exactly when the map has the
   * key, and both take the first entry with it.
   */
  lemma {:induction false} DictGet(entries: seq<(string, Value)>, key: string)
    ensures Get(ToNode(Dict(entries)).fields, key) ==
      if ContainsKey(Dict(entries), key) then Some(ToNode(MapGet(Dict(entries), key))) else None
    decreases |entries|
  {
    if entries != [] {
      var fs := ToNode(Dict(entries)).fields;
      assert fs[0] == (entries[0].0, ToNode(entries[0].1));
      if entries[0].0 == key {
        assert ContainsKey(Dict(entries), key);
      } else {
        DictGet(entries[1..], key);
        DictTail(entries);
        ContainsKeyTail(entries, key);
      }
    }
  }

  lemma DictTail(entries: seq<(string, Value)>)
    requires entries != []
    ensures ToNode(Dict(entries)).fields[1..] == ToNode(Dict(entries[1..])).fields
  {
  }

  lemma ContainsKeyTail(entries: seq<(string, Value)>, key: string)
    requires entries != [] && entries[0].0 != key
    ensures ContainsKey(Dict(entries), key) <==> ContainsKey(Dict(entries[1..]), key)
  {
    if ContainsKey(Dict(entries), key) {
      var i :| 0 <= i < |entries| && entries[i].0 == key;
      assert entries[1..][i - 1] == entries[i];
    }
    if ContainsKey(Dict(entries[1..]), key) {
      var i :| 0 <= i < |entries[1..]| && entries[1..][i].0 == key;
      assert entries[i + 1] == entries[1..][i];
    }
  }

  /** `String.valueOf(Object)`: `toString()`, or "null" for null. */
  function ToJavaString(v: Value): (r: string)
    ensures v.Str? ==> r == v.s
    ensures v.Null? ==> r == "null"
  {
    match v
    case Null => "null"
    case Str(s) => s
    case Bool(b) => if b then "true" else "false"
    case Int(i) => JavaStr.IntToString(i)
    case Dbl(t) => t
    case List(items) => "[" + ItemsString(items) + "]"
    case Dict(entries) => "{" + EntriesString(entries) + "}"
    case Node(j) => Text(j)
  }

  /** `AbstractCollection.toString` without its brackets. */
  function ItemsString(items: seq<Value>): string
  {
    if items == [] then ""
    else if |items| == 1 then ToJavaString(items[0])
    else ToJavaString(items[0]) + ", " + ItemsString(items[1..])
  }

  /** `AbstractMap.toString` without its braces. */
  function EntriesString(entries: seq<(string, Value)>): string
  {
    if entries == [] then ""
    else
      assert entries[0].1 < entries[0];
      var e := entries[0].0 + "=" + ToJavaString(entries[0].1);
      if |entries| == 1 then e else e + ", " + EntriesString(entries[1..])
  }

  /**
   * `Map.get` on a parsed YAML mapping: the value of the first entry with
   * that key, null when there is none or `m` is not a mapping.
   */
  function MapGet(m: Value, key: string): (r: Value)
    ensures !r.Null? ==> m.Dict?
    decreases if m.Dict? then |m.entries| else 0
  {
    if !m.Dict? || m.entries == [] then Null
    else if m.entries[0].0 == key then m.entries[0].1
    else MapGet(Dict(m.entries[1..]), key)
  }

  /** A value found under `key` is an entry of the mapping; a key no entry has reads as null. */
  lemma {:induction false} MapGetEntry(m: Value, key: string)
    ensures !MapGet(m, key).Null? ==> exists i :: 0 <= i < |m.entries| && m.entries[i] == (key, MapGet(m, key))
    ensures m.Dict? && (forall i :: 0 <= i < |m.entries| ==> m.entries[i].0 != key) ==> MapGet(m, key).Null?
    decreases if m.Dict? then |m.entries| else 0
  {
    if m.Dict? && m.entries != [] && m.entries[0].0 != key {
      var rest := Dict(m.entries[1..]);
      MapGetEntry(rest, key);
      var r := MapGet(m, key);
      if !r.Null? {
        var i :| 0 <= i < |rest.entries| && rest.entries[i] == (key, r);
        assert m.entries[i + 1] == (key, r);
      }
      if forall i :: 0 <= i < |m.entries| ==> m.entries[i].0 != key {
        assert forall i :: 0 <= i < |rest.entries| ==> rest.entries[i] == m.entries[i + 1];
      }
    }
  }

  /** A key that reads as non-null is a key of the mapping. */
  lemma MapGetPresent(m: Value, key: string)
    requires !MapGet(m, key).Null?
    ensures ContainsKey(m, key)
  {
    MapGetEntry(m, key);
  }

  /** `String.valueOf` of a String that may be null: null prints as "null". */
  function StringOf(s: Option<string>): (r: string)
    ensures s.Some? ==> r == s.value
    ensures s.None? ==> r == "null"
  {
    if s.Some? then s.value else "null"
  }

  const NULL_POINTER: string := "NullPointerException"
  const CLASS_CAST: string := "ClassCastException"

  /** A `(String)` cast: null stays null, any other non-string throws. */
  function CastStr(v: Value): (r: Result<Option<string>>)
    ensures r.Ok? <==> v.Null? || v.Str?
    ensures r.Ok? ==> (r.value.Some? <==> v.Str?) && (v.Str? ==> r.value.value == v.s)
  {
    if v.Null? then Ok(None) else if v.Str? then Ok(Some(v.s)) else Err(CLASS_CAST)
  }

  /** A `(List)` cast that is then iterated: null throws as well. */
  function IterList(v: Value): (r: Result<seq<Value>>)
    ensures r.Ok? <==> v.List?
    ensures r.Ok? ==> r.value == v.items
  {
    if v.List? then Ok(v.items) else if v.Null? then Err(NULL_POINTER) else Err(CLASS_CAST)
  }

  /** The exception raised when an element that should be a map is used as one. */
  function NotMap(v: Value): string
  {
    if v.Null? then NULL_POINTER else CLASS_CAST
  }

  /** `Map.containsKey` on a parsed YAML mapping; false when `m` is not a mapping. */
  predicate ContainsKey(m: Value, key: string)
  {
    m.Dict? && exists i :: 0 <= i < |m.entries| && m.entries[i].0 == key
  }

  /** A `(String)` cast of a YAML value; a value that is not a string reads as null. */
  function StrOf(v: Value): (r: Option<string>)
    ensures r.Some? <==> v.Str?
    ensures v.Str? ==> r.value == v.s
  {
    if v.Str? then Some(v.s) else None
  }

  /** A Java String that is null or `trim().isEmpty()`. */
  predicate IsNullOrBlank(v: Value) { v.Null? || (v.Str? && JavaStr.IsBlank(v.s)) }
}
