/**
 * TransformationService: the registry of value transformers that the JSON
 * encoder consults. The first registered transformer that supports a
 * transformation type handles it; a failing transformer leaves the value
 * as it was.
 */
module TransformationService {
  import opened Wrappers
  import opened JavaStr
  import opened JavaValues
  import DateTransformer
  import BooleanTransformer
  import NumericTransformer
  import MultiCheckboxTransformer

  /**
   * The JDK text parsers the built-in transformers lean on: the lenient
   * `SimpleDateFormat` round trips of the date transformer (encode and
   * decode side), the zone region ids `ZoneId` knows, and
   * `Double.parseDouble` with `Double.toString`.
   */
  datatype Parsers = Parsers(
    dateEncode: string -> Option<string>,
    dateDecode: string -> Option<string>,
    zoneIds: string -> bool,
    parseDouble: string -> Option<string>)

  /**
   * A registered transformer: one of the four built-in ones, or one added
   * through `registerTransformer`, whose encode and decode may throw (Err).
   */
  datatype Transformer =
    | DateT
    | BooleanT
    | NumericT
    | MultiCheckboxT
    | Custom(accepts: string -> bool,
             enc: (Value, string) -> Result<Value>,
             dec: (Value, string) -> Result<Value>)

  predicate Supports(t: Transformer, transformType: string)
  {
    match t
    case DateT => DateTransformer.Supports(transformType)
    case BooleanT => BooleanTransformer.Supports(transformType)
    case NumericT => NumericTransformer.Supports(transformType)
    case MultiCheckboxT => MultiCheckboxTransformer.Supports(transformType)
    case Custom(accepts, _, _) => accepts(transformType)
  }

  function EncodeWith(t: Transformer, p: Parsers, v: Value, transformType: string): Result<Value>
  {
    match t
    case DateT => Ok(DateTransformer.Encode(v, p.dateEncode))
    case BooleanT => Ok(Bool(BooleanTransformer.Encode(v)))
    case NumericT => Ok(NumericTransformer.Encode(v, p.parseDouble))
    case MultiCheckboxT => Ok(MultiCheckboxTransformer.Encode(v))
    case Custom(_, enc, _) => enc(v, transformType)
  }

  function DecodeWith(t: Transformer, p: Parsers, v: Value, transformType: string): Result<Value>
  {
    match t
    case DateT => Ok(DateTransformer.Decode(v, p.dateDecode, p.zoneIds))
    case BooleanT => Ok(Str(BooleanTransformer.Decode(v)))
    case NumericT => Ok(Str(NumericTransformer.Decode(v)))
    case MultiCheckboxT => Ok(Str(MultiCheckboxTransformer.Decode(v)))
    case Custom(_, _, dec) => dec(v, transformType)
  }

  /** The position of the first transformer that supports the type, if any. */
  function FirstSupporting(ts: seq<Transformer>, transformType: string): (r: Option<nat>)
    ensures r.Some? ==> r.value < |ts| && Supports(ts[r.value], transformType)
    ensures r.Some? ==> forall j :: 0 <= j < r.value ==> !Supports(ts[j], transformType)
    ensures r.None? <==> forall j :: 0 <= j < |ts| ==> !Supports(ts[j], transformType)
  {
    if ts == [] then None
    else if Supports(ts[0], transformType) then Some(0)
    else match FirstSupporting(ts[1..], transformType)
      case None => None
      case Some(i) => Some(i + 1)
  }

  /** A transformation type that is null or blank selects no transformer. */
  predicate IsNoType(transformType: Option<string>)
  {
    transformType.None? || IsBlank(transformType.value)
  }

  /** What `encode` returns for a registry `ts`. */
  function EncodeSpec(ts: seq<Transformer>, p: Parsers, v: Value, transformType: Option<string>): Value
  {
    if IsNoType(transformType) then v
    else match FirstSupporting(ts, transformType.value)
      case None => v
      case Some(i) =>
        match EncodeWith(ts[i], p, v, transformType.value)
        case Ok(r) => r
        case Err(_) => v
  }

  /** What `decode` returns for a registry `ts`. */
  function DecodeSpec(ts: seq<Transformer>, p: Parsers, v: Value, transformType: Option<string>): Value
  {
    if IsNoType(transformType) then v
    else match FirstSupporting(ts, transformType.value)
      case None => v
      case Some(i) =>
        match DecodeWith(ts[i], p, v, transformType.value)
        case Ok(r) => r
        case Err(_) => v
  }

  const Defaults: seq<Transformer> := [DateT, BooleanT, NumericT, MultiCheckboxT]

  class Registry {
    /** The registered transformers, in registration order. */
    var transformers: seq<Transformer>
    /** Stand-ins for the JDK parsers the built-in transformers call. */
    const parsers: Parsers

    /** The four built-in transformers, date first, as `registerDefaultTransformers` adds them. */
    constructor(parsers: Parsers)
      ensures transformers == Defaults
      ensures this.parsers == parsers
    {
      this.parsers := parsers;
      transformers := Defaults;
    }

    /** `registerTransformer`: appended after everything already registered. */
    method RegisterTransformer(t: Transformer)
      modifies this
      ensures transformers == old(transformers) + [t]
    {
      transformers := transformers + [t];
    }

    /** The loop both `encode` and `decode` run: the first transformer that supports the type. */
    method Find(transformType: string) returns (r: Option<nat>)
      ensures r == FirstSupporting(transformers, transformType)
    {
      var i := 0;
      while i < |transformers|
        invariant 0 <= i <= |transformers|
        invariant forall j :: 0 <= j < i ==> !Supports(transformers[j], transformType)
      {
        if Supports(transformers[i], transformType) {
          FirstSupportingAt(transformers, transformType, i);
          return Some(i);
        }
        i := i + 1;
      }
      return None;
    }

    /** `encode`: the first supporting transformer's result, or the value itself. */
    method Encode(v: Value, transformType: Option<string>) returns (r: Value)
      ensures r == EncodeSpec(transformers, parsers, v, transformType)
    {
      if IsNoType(transformType) {
        return v;
      }
      var found := Find(transformType.value);
      if found.None? {
        return v;
      }
      var result := EncodeWith(transformers[found.value], parsers, v, transformType.value);
      r := if result.Ok? then result.value else v;
    }

    /** `decode`: the first supporting transformer's result, or the value itself. */
    method Decode(v: Value, transformType: Option<string>) returns (r: Value)
      ensures r == DecodeSpec(transformers, parsers, v, transformType)
    {
      if IsNoType(transformType) {
        return v;
      }
      var found := Find(transformType.value);
      if found.None? {
        return v;
      }
      var result := DecodeWith(transformers[found.value], parsers, v, transformType.value);
      r := if result.Ok? then result.value else v;
    }

    /** `isTransformationSupported`: a non-blank type some transformer accepts. */
    function IsTransformationSupported(transformType: Option<string>): (r: bool)
      reads this
      ensures r <==> (!IsNoType(transformType) &&
                      exists j :: 0 <= j < |transformers| && Supports(transformers[j], transformType.value))
    {
      !IsNoType(transformType) && FirstSupporting(transformers, transformType.value).Some?
    }
  }

  // ---- value mappings ----

  /** A `valueMapping` map in its YAML order. */
  type Mapping = seq<(string, Value)>

  predicate HasKey(m: Mapping, k: string)
  {
    exists i :: 0 <= i < |m| && m[i].0 == k
  }

  /** `Map.get` for a key that is present; keys are unique in a map. */
  function Lookup(m: Mapping, k: string): (r: Value)
    requires HasKey(m, k)
    ensures exists i :: 0 <= i < |m| && m[i] == (k, r)
  {
    if m[0].0 == k then m[0].1 else Lookup(m[1..], k)
  }

  /** The key of the first entry whose value prints as `text`, if any. */
  function ReverseLookup(m: Mapping, text: string): (r: Option<string>)
    ensures r.Some? ==> exists i :: 0 <= i < |m| && m[i].0 == r.value && ToJavaString(m[i].1) == text
    ensures r.None? <==> forall i :: 0 <= i < |m| ==> ToJavaString(m[i].1) != text
  {
    if m == [] then None
    else if ToJavaString(m[0].1) == text then Some(m[0].0)
    else ReverseLookup(m[1..], text)
  }

  /** What `applyValueMapping` returns. A null mapping is None. */
  function MappingSpec(v: Value, mapping: Option<Mapping>, direction: string): Value
  {
    if v.Null? || mapping.None? || mapping.value == [] then v
    else
      var text := ToJavaString(v);
      if ToLower(direction) == "encode" then
        (if HasKey(mapping.value, text) then Lookup(mapping.value, text) else v)
      else if ToLower(direction) == "decode" then
        (match ReverseLookup(mapping.value, text)
         case Some(k) => Str(k)
         case None => v)
      else v
  }

  /**
   * `applyValueMapping`: encoding looks the value's text up as a key;
   * decoding walks the entries in order and answers the key of the first
   * entry whose value prints as the value's text. Anything unmapped, and
   * every other direction, leaves the value alone.
   */
  method ApplyValueMapping(v: Value, mapping: Option<Mapping>, direction: string) returns (r: Value)
    ensures r == MappingSpec(v, mapping, direction)
  {
    if v.Null? || mapping.None? || mapping.value == [] {
      return v;
    }
    var m := mapping.value;
    var text := ToJavaString(v);
    if ToLower(direction) == "encode" {
      if HasKey(m, text) {
        return Lookup(m, text);
      }
    } else if ToLower(direction) == "decode" {
      var i := 0;
      while i < |m|
        invariant 0 <= i <= |m|
        invariant ReverseLookup(m, text) == ReverseLookup(m[i..], text)
      {
        if text == ToJavaString(m[i].1) {
          return Str(m[i].0);
        }
        assert m[i..][1..] == m[i + 1..];
        i := i + 1;
      }
    }
    return v;
  }

  // ---- properties ----

  /** The transformer at `i` is the first supporting one when none before it supports the type. */
  lemma {:induction false} FirstSupportingAt(ts: seq<Transformer>, transformType: string, i: nat)
    requires i < |ts| && Supports(ts[i], transformType)
    requires forall j :: 0 <= j < i ==> !Supports(ts[j], transformType)
    ensures FirstSupporting(ts, transformType) == Some(i)
  {
    if i > 0 {
      assert !Supports(ts[0], transformType);
      FirstSupportingAt(ts[1..], transformType, i - 1);
    }
  }

  /** A null or blank type leaves the value alone in both directions. */
  lemma NoTypeKeepsValue(ts: seq<Transformer>, p: Parsers, v: Value, transformType: Option<string>)
    requires IsNoType(transformType)
    ensures EncodeSpec(ts, p, v, transformType) == v
    ensures DecodeSpec(ts, p, v, transformType) == v
  {
  }

  /** A transformer registered later never overrides one that already supports the type. */
  lemma {:induction false} FirstSupportingAppend(ts: seq<Transformer>, t: Transformer, transformType: string)
    requires FirstSupporting(ts, transformType).Some?
    ensures FirstSupporting(ts + [t], transformType) == FirstSupporting(ts, transformType)
  {
    if !Supports(ts[0], transformType) {
      assert (ts + [t])[1..] == ts[1..] + [t];
      FirstSupportingAppend(ts[1..], t, transformType);
    }
  }

  lemma RegisterKeepsHandled(ts: seq<Transformer>, t: Transformer, p: Parsers, v: Value, transformType: string)
    requires FirstSupporting(ts, transformType).Some?
    ensures EncodeSpec(ts + [t], p, v, Some(transformType)) == EncodeSpec(ts, p, v, Some(transformType))
    ensures DecodeSpec(ts + [t], p, v, Some(transformType)) == DecodeSpec(ts, p, v, Some(transformType))
  {
    FirstSupportingAppend(ts, t, transformType);
    var i := FirstSupporting(ts, transformType).value;
    assert (ts + [t])[i] == ts[i];
  }

  /** A type nobody supported is handled by a newly registered transformer that accepts it. */
  lemma {:induction false} FirstSupportingNew(ts: seq<Transformer>, t: Transformer, transformType: string)
    requires FirstSupporting(ts, transformType).None?
    requires Supports(t, transformType)
    ensures FirstSupporting(ts + [t], transformType) == Some(|ts|)
  {
    if ts != [] {
      assert (ts + [t])[1..] == ts[1..] + [t];
      FirstSupportingNew(ts[1..], t, transformType);
    }
  }

  lemma BooleanNameFacts()
    ensures !IsBlank("boolean")
    ensures !DateTransformer.Supports("boolean") && BooleanTransformer.Supports("boolean")
  {
    TrimKeeps("boolean");
    BooleanLower();
  }

  lemma BooleanLower()
    ensures ToLower("boolean") == "boolean"
  {
    LowerKeeps("boolean");
  }

  /** The default registry hands "boolean" to the boolean transformer. */
  lemma DefaultsBoolean(p: Parsers, v: Value)
    ensures EncodeSpec(Defaults, p, v, Some("boolean")) == Bool(BooleanTransformer.Encode(v))
    ensures DecodeSpec(Defaults, p, v, Some("boolean")) == Str(BooleanTransformer.Decode(v))
  {
    BooleanNameFacts();
    DefaultsBooleanType(p, v, "boolean");
  }

  /** Any type the date transformer declines and the boolean one accepts goes to the boolean transformer. */
  lemma DefaultsBooleanType(p: Parsers, v: Value, t: string)
    requires !IsBlank(t) && !DateTransformer.Supports(t) && BooleanTransformer.Supports(t)
    ensures EncodeSpec(Defaults, p, v, Some(t)) == Bool(BooleanTransformer.Encode(v))
    ensures DecodeSpec(Defaults, p, v, Some(t)) == Str(BooleanTransformer.Decode(v))
  {
    DefaultsSelectBoolean(t);
    SelectedTransformer(Defaults, p, v, t, 1);
  }

  lemma DefaultsSelectBoolean(t: string)
    requires !DateTransformer.Supports(t) && BooleanTransformer.Supports(t)
    ensures FirstSupporting(Defaults, t) == Some(1) && Defaults[1] == BooleanT
  {
    assert Defaults[0] == DateT && Defaults[1] == BooleanT;
    FirstSupportingAt(Defaults, t, 1);
  }

  /** A type that is not blank goes to the first transformer that supports it; a failure keeps the value. */
  lemma SelectedTransformer(ts: seq<Transformer>, p: Parsers, v: Value, t: string, i: nat)
    requires !IsBlank(t) && FirstSupporting(ts, t) == Some(i)
    ensures EncodeSpec(ts, p, v, Some(t)) == (if EncodeWith(ts[i], p, v, t).Ok? then EncodeWith(ts[i], p, v, t).value else v)
    ensures DecodeSpec(ts, p, v, Some(t)) == (if DecodeWith(ts[i], p, v, t).Ok? then DecodeWith(ts[i], p, v, t).value else v)
  {
  }

  /** Encoding a value whose text is a key gives the value mapped to that key. */
  lemma EncodeFindsEntry(v: Value, m: Mapping)
    requires !v.Null? && HasKey(m, ToJavaString(v))
    ensures MappingSpec(v, Some(m), "encode") == Lookup(m, ToJavaString(v))
  {
    EncodeDecodeNames();
  }

  /** Encoding a present key's text gives the value mapped to that key. */
  lemma EncodeLooksUp(m: Mapping, k: string)
    requires HasKey(m, k)
    ensures MappingSpec(Str(k), Some(m), "encode") == Lookup(m, k)
  {
    EncodeDecodeNames();
  }

  /**
   * When the values print differently, decoding an entry's non-null value
   * gives that entry's key.
   */
  lemma DecodeFindsKey(m: Mapping, i: nat)
    requires i < |m| && !m[i].1.Null?
    requires forall a, b :: 0 <= a < b < |m| ==> ToJavaString(m[a].1) != ToJavaString(m[b].1)
    ensures MappingSpec(m[i].1, Some(m), "decode") == Str(m[i].0)
  {
    EncodeDecodeNames();
    var back := ReverseLookup(m, ToJavaString(m[i].1));
    var j :| 0 <= j < |m| && m[j].0 == back.value && ToJavaString(m[j].1) == ToJavaString(m[i].1);
    assert i == j;
  }

  /**
   * Value mappings whose keys are unique and whose values are non-null and
   * print differently invert each other: decoding what a key encodes to
   * gives the key back.
   */
  lemma MappingRoundTrip(m: Mapping, k: string)
    requires forall i, j :: 0 <= i < j < |m| ==> m[i].0 != m[j].0
    requires forall i, j :: 0 <= i < j < |m| ==> ToJavaString(m[i].1) != ToJavaString(m[j].1)
    requires forall i :: 0 <= i < |m| ==> !m[i].1.Null?
    requires HasKey(m, k)
    ensures MappingSpec(MappingSpec(Str(k), Some(m), "encode"), Some(m), "decode") == Str(k)
  {
    EncodeLooksUp(m, k);
    var w := Lookup(m, k);
    var i :| 0 <= i < |m| && m[i] == (k, w);
    DecodeFindsKey(m, i);
  }

  /**
   * A value whose text is no key encodes to itself, and one whose text no
   * mapped value prints as decodes to itself.
   */
  lemma UnmappedKeepsValue(v: Value, m: Mapping)
    requires !HasKey(m, ToJavaString(v))
    requires forall i :: 0 <= i < |m| ==> ToJavaString(m[i].1) != ToJavaString(v)
    ensures MappingSpec(v, Some(m), "encode") == v
    ensures MappingSpec(v, Some(m), "decode") == v
  {
    EncodeDecodeNames();
  }

  lemma EncodeDecodeNames()
    ensures ToLower("encode") == "encode" && ToLower("decode") == "decode"
  {
    LowerKeeps("encode");
    LowerKeeps("decode");
  }
}
