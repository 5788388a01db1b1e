/**
 * GovStackJsonEncoder: turns one extracted record into the GovStack JSON
 * document. Every section of the form mappings that the record holds is
 * written through the path builder: an object section field by field, an
 * array section as one item object per row. The metadata fields follow.
 * Any exception makes the whole encoding answer null (None).
 */
module GovStackJsonEncoderModel {
  import opened Wrappers
  import opened JsonNodes
  import opened JavaValues
  import JavaStr
  import JsonBuilderModel
  import TransformationService
  import YamlMetadataServiceModel

  /** The record handed to the encoder: section name to section data, plus "id". */
  type FormData = map<string, Value>

  const INDEX_OUT_OF_BOUNDS: string := "ArrayIndexOutOfBoundsException"

  /** `Map.get` on the record. */
  function DataOf(formData: FormData, key: string): Value
  {
    if key in formData then formData[key] else Null
  }

  /**
   * A field's source name (`field_id`, else `joget`) and target path
   * (`jsonPath`, else `govstack`); a non-string in any of the four throws.
   */
  function FieldNames(field: Value): (r: Result<(Option<string>, Option<string>)>)
  {
    var fieldId := CastStr(MapGet(field, "field_id"));
    var joget := CastStr(MapGet(field, "joget"));
    var jsonPath := CastStr(MapGet(field, "jsonPath"));
    var govstack := CastStr(MapGet(field, "govstack"));
    if fieldId.Err? || joget.Err? || jsonPath.Err? || govstack.Err? then Err(CLASS_CAST)
    else Ok((if fieldId.value.Some? then fieldId.value else joget.value,
             if jsonPath.value.Some? then jsonPath.value else govstack.value))
  }

  // ---- setNestedValue ----

  /**
   * The object `cur` after writing `v` at the dotted `parts` with the
   * cursor of `setNestedValue`: a missing member is created as `{}`, an
   * object member is entered, and any other member is stepped over, the
   * cursor staying where it is.
   */
  function NestedPath(cur: Json, parts: seq<string>, v: Json): (r: Json)
    requires cur.JObj? && |parts| >= 1
    ensures r.JObj?
    decreases |parts|
  {
    if |parts| == 1 then JObj(Set(cur.fields, parts[0], v))
    else match Get(cur.fields, parts[0])
      case None => JObj(Set(cur.fields, parts[0], NestedPath(JObj([]), parts[1..], v)))
      case Some(child) =>
        if child.JObj? then JObj(Set(cur.fields, parts[0], NestedPath(child, parts[1..], v)))
        else NestedPath(cur, parts[1..], v)
  }

  /**
   * `setNestedValue(node, path, value)`: the path split at dots; a path
   * that splits into nothing (only dots) has no last part and throws.
   */
  function Nested(node: Json, path: string, value: Value): (r: Result<Json>)
    requires node.JObj?
    ensures r.Ok? ==> r.value.JObj?
  {
    var parts := JavaStr.Split(path, '.');
    if parts == [] then Err(INDEX_OUT_OF_BOUNDS) else Ok(NestedPath(node, parts, ToNode(value)))
  }

  /** Along `parts`, every member the cursor meets before the last is missing or an object. */
  predicate OpenPath(cur: Json, parts: seq<string>)
    requires cur.JObj?
    decreases |parts|
  {
    |parts| <= 1 ||
    match Get(cur.fields, parts[0])
    case None => true
    case Some(child) => child.JObj? && OpenPath(child, parts[1..])
  }

  /** The cursor loop of `setNestedValue`, proved against `NestedPath`. */
  method SetNestedValue(node: Json, path: string, value: Value) returns (r: Result<Json>)
    requires node.JObj?
    ensures r == Nested(node, path, value)
  {
    var parts := JavaStr.Split(path, '.');
    if parts == [] {
      return Err(INDEX_OUT_OF_BOUNDS);
    }
    var v := ToNode(value);
    ghost var target := NestedPath(node, parts, v);
    var frames: seq<JsonBuilderModel.Frame> := [];
    var current := node;
    var i := 0;
    while i < |parts| - 1
      invariant 0 <= i <= |parts| - 1
      invariant current.JObj?
      invariant JsonBuilderModel.Plug(frames, NestedPath(current, parts[i..], v)) == target
    {
      var part := parts[i];
      assert parts[i..][0] == part && parts[i..][1..] == parts[i + 1..];
      var child := Get(current.fields, part);
      if child.None? || child.value.JObj? {
        var next := if child.None? then JObj([]) else child.value;
        JsonBuilderModel.PlugPush(frames, JsonBuilderModel.InField(current.fields, part), NestedPath(next, parts[i + 1..], v));
        frames := frames + [JsonBuilderModel.InField(current.fields, part)];
        current := next;
      }
      i := i + 1;
    }
    assert parts[i..] == [parts[|parts| - 1]];
    current := JObj(Set(current.fields, parts[|parts| - 1], v));
    return Ok(JsonBuilderModel.Plug(frames, current));
  }

  /** A write by the builder never turns the root object into something else. */
  lemma SetAtKeepsObject(root: Json, path: string, value: Value)
    requires root.JObj?
    ensures JsonBuilderModel.SetAt(root, path, value).JObj?
  {
    if !(JavaStr.IsBlank(path) || value.Null?) {
      JsonBuilderModel.SetPathKeepsKind(root, JsonBuilderModel.ParsePath(path), ToNode(value));
    }
  }

  /** A builder write at a plain name (no dot, no bracket, not blank) sets exactly that member. */
  lemma PlainWrite(fields: Fields, name: string, value: Value)
    requires !value.Null? && '.' !in name && '[' !in name
    requires exists i :: 0 <= i < |name| && !JavaStr.IsTrimmable(name[i])
    ensures JsonBuilderModel.SetAt(JObj(fields), name, value) == JObj(Set(fields, name, ToNode(value)))
  {
    JavaStr.BlankIffAllTrimmable(name);
    JsonBuilderModel.PlainSegment(name);
    assert JsonBuilderModel.ParsePath(name) == [JsonBuilderModel.Field(name)];
  }

  class GovStackJsonEncoder {
    const metadataService: YamlMetadataServiceModel.YamlMetadataService
    const transformationService: TransformationService.Registry

    /** A fresh transformation registry with the four built-in transformers. */
    constructor(metadataService: YamlMetadataServiceModel.YamlMetadataService, parsers: TransformationService.Parsers)
      ensures this.metadataService == metadataService
      ensures fresh(transformationService)
      ensures transformationService.transformers == TransformationService.Defaults
      ensures transformationService.parsers == parsers
    {
      this.metadataService := metadataService;
      transformationService := new TransformationService.Registry(parsers);
    }

    // ---- applyFieldTransformations ----

    /** The field's `transform` through the registry, then its `valueMapping` in the encode direction. */
    function Transformed(field: Value, value: Value): (r: Result<Value>)
      reads transformationService
    {
      var transform := CastStr(MapGet(field, "transform"));
      if transform.Err? then Err(transform.message)
      else
        var encoded := if transform.value.Some? then
          TransformationService.EncodeSpec(transformationService.transformers, transformationService.parsers, value, transform.value)
        else value;
        var mapping := MapGet(field, "valueMapping");
        if mapping.Null? then Ok(encoded)
        else if mapping.Dict? then Ok(TransformationService.MappingSpec(encoded, Some(mapping.entries), "encode"))
        else Err(CLASS_CAST)
    }

    method ApplyFieldTransformations(field: Value, value: Value) returns (r: Result<Value>)
      ensures r == Transformed(field, value)
    {
      var transform := CastStr(MapGet(field, "transform"));
      if transform.Err? {
        return Err(transform.message);
      }
      var v := value;
      if transform.value.Some? {
        v := transformationService.Encode(v, transform.value);
      }
      var valueMapping := MapGet(field, "valueMapping");
      if valueMapping.Null? {
        return Ok(v);
      }
      if !valueMapping.Dict? {
        return Err(CLASS_CAST);
      }
      v := TransformationService.ApplyValueMapping(v, Some(valueMapping.entries), "encode");
      return Ok(v);
    }

    // ---- processField / processFormSection ----

    /**
     * `processField` on document `root`: a present value goes to the target
     * path, transformed; a field naming a type path and a type value also
     * writes that pair.
     */
    function FieldWrite(root: Json, field: Value, dataMap: Value): (r: Result<Json>)
      reads transformationService
    {
      if !field.Dict? then Err(NotMap(field))
      else
        var names := FieldNames(field);
        if names.Err? then Err(names.message)
        else if names.value.0.None? || names.value.1.None? then Ok(root)
        else
          var value := MapGet(dataMap, names.value.0.value);
          if IsNullOrBlank(value) then
            var required := MapGet(field, "required");
            if required.Null? || required.Bool? then Ok(root) else Err(CLASS_CAST)
          else
            var t := Transformed(field, value);
            if t.Err? then Err(t.message)
            else
              var written := JsonBuilderModel.SetAt(root, names.value.1.value, t.value);
              var govstackType := CastStr(MapGet(field, "govstackType"));
              var typeValue := CastStr(MapGet(field, "typeValue"));
              if govstackType.Err? || typeValue.Err? then Err(CLASS_CAST)
              else if govstackType.value.Some? && typeValue.value.Some? then
                Ok(JsonBuilderModel.SetAt(written, govstackType.value.value, Str(typeValue.value.value)))
              else Ok(written)
    }

    /** The field loop of `processFormSection`; an exception ends it. */
    function FieldsWrite(root: Json, fields: seq<Value>, dataMap: Value): Result<Json>
      reads transformationService
      decreases |fields|
    {
      if fields == [] then Ok(root)
      else
        var next := FieldWrite(root, fields[0], dataMap);
        if next.Err? then next else FieldsWrite(next.value, fields[1..], dataMap)
    }

    /** `processFormSection`: section data that is not a map, or a section without fields, writes nothing. */
    function FormSectionWrite(root: Json, sectionConfig: YamlMetadataServiceModel.Entries, sectionData: Value): Result<Json>
      reads transformationService
    {
      if !sectionData.Dict? then Ok(root)
      else
        var fields := YamlMetadataServiceModel.Get(sectionConfig, "fields");
        if fields.Null? then Ok(root)
        else if !fields.List? then Err(CLASS_CAST)
        else FieldsWrite(root, fields.items, sectionData)
    }

    method ProcessField(builder: JsonBuilderModel.JsonBuilder, field: Value, dataMap: Value) returns (r: Result<()>)
      requires builder.Valid()
      modifies builder
      ensures builder.Valid()
      ensures r.Ok? <==> FieldWrite(old(builder.root), field, dataMap).Ok?
      ensures r.Ok? ==> builder.root == FieldWrite(old(builder.root), field, dataMap).value
    {
      if !field.Dict? {
        return Err(NotMap(field));
      }
      var names := FieldNames(field);
      if names.Err? {
        return Err(names.message);
      }
      var fieldName := names.value.0;
      var targetPath := names.value.1;
      if fieldName.None? || targetPath.None? {
        return Ok(());
      }
      var value := MapGet(dataMap, fieldName.value);
      if IsNullOrBlank(value) {
        var required := MapGet(field, "required");
        if !(required.Null? || required.Bool?) {
          return Err(CLASS_CAST);
        }
        return Ok(());
      }
      var transformed := ApplyFieldTransformations(field, value);
      if transformed.Err? {
        return Err(transformed.message);
      }
      builder.SetValue(targetPath.value, transformed.value);
      var govstackType := CastStr(MapGet(field, "govstackType"));
      var typeValue := CastStr(MapGet(field, "typeValue"));
      if govstackType.Err? || typeValue.Err? {
        return Err(CLASS_CAST);
      }
      if govstackType.value.Some? && typeValue.value.Some? {
        builder.SetValue(govstackType.value.value, Str(typeValue.value.value));
      }
      return Ok(());
    }

    method ProcessFormSection(builder: JsonBuilderModel.JsonBuilder, sectionConfig: YamlMetadataServiceModel.Entries, sectionData: Value)
      returns (r: Result<()>)
      requires builder.Valid()
      modifies builder
      ensures builder.Valid()
      ensures r.Ok? <==> FormSectionWrite(old(builder.root), sectionConfig, sectionData).Ok?
      ensures r.Ok? ==> builder.root == FormSectionWrite(old(builder.root), sectionConfig, sectionData).value
    {
      if !sectionData.Dict? {
        return Ok(());
      }
      var fields := YamlMetadataServiceModel.Get(sectionConfig, "fields");
      if fields.Null? {
        return Ok(());
      }
      if !fields.List? {
        return Err(CLASS_CAST);
      }
      ghost var target := FieldsWrite(builder.root, fields.items, sectionData);
      var i := 0;
      while i < |fields.items|
        invariant 0 <= i <= |fields.items|
        invariant builder.Valid()
        invariant FieldsWrite(builder.root, fields.items[i..], sectionData) == target
      {
        assert fields.items[i..][0] == fields.items[i] && fields.items[i..][1..] == fields.items[i + 1..];
        var done := ProcessField(builder, fields.items[i], sectionData);
        if done.Err? {
          return Err(done.message);
        }
        i := i + 1;
      }
      assert fields.items[i..] == [];
      return Ok(());
    }

    // ---- processArraySection ----

    /** The field loop for one row: each present value (blank ones too) written at its path in the item. */
    function ItemFields(item: Value, fields: seq<Value>, node: Json): (r: Result<Json>)
      reads transformationService
      requires node.JObj?
      ensures r.Ok? ==> r.value.JObj?
      decreases |fields|
    {
      if fields == [] then Ok(node)
      else if !fields[0].Dict? then Err(NotMap(fields[0]))
      else
        var names := FieldNames(fields[0]);
        if names.Err? then Err(names.message)
        else if names.value.0.None? || names.value.1.None? then ItemFields(item, fields[1..], node)
        else if item.Null? then Err(NULL_POINTER)
        else
          var value := MapGet(item, names.value.0.value);
          if value.Null? then ItemFields(item, fields[1..], node)
          else
            var t := Transformed(fields[0], value);
            if t.Err? then Err(t.message)
            else
              var next := Nested(node, names.value.1.value, t.value);
              if next.Err? then next else ItemFields(item, fields[1..], next.value)
    }

    /** One row's item object: a row that is neither a map nor null throws. */
    function ItemNode(item: Value, fields: seq<Value>): (r: Result<Json>)
      reads transformationService
      ensures r.Ok? ==> r.value.JObj?
    {
      if !(item.Null? || item.Dict?) then Err(CLASS_CAST) else ItemFields(item, fields, JObj([]))
    }

    /** The row loop: one item per row, appended to `acc` in order. */
    function Items(rows: seq<Value>, fields: seq<Value>, acc: seq<Json>): Result<seq<Json>>
      reads transformationService
      decreases |rows|
    {
      if rows == [] then Ok(acc)
      else
        var item := ItemNode(rows[0], fields);
        if item.Err? then Err(item.message) else Items(rows[1..], fields, acc + [item.value])
    }

    /**
     * `processArraySection`: the rows' items as one array at the section's
     * `govstack` path. Data that is not a list, a section without a path,
     * or one without fields writes nothing.
     */
    function ArraySectionWrite(root: Json, sectionConfig: YamlMetadataServiceModel.Entries, sectionData: Value): Result<Json>
      reads transformationService
    {
      if !sectionData.List? then Ok(root)
      else
        var path := CastStr(YamlMetadataServiceModel.Get(sectionConfig, "govstack"));
        if path.Err? then Err(path.message)
        else if path.value.None? then Ok(root)
        else
          var controlField := CastStr(YamlMetadataServiceModel.Get(sectionConfig, "controlField"));
          var controlValue := CastStr(YamlMetadataServiceModel.Get(sectionConfig, "controlValue"));
          if controlField.Err? || controlValue.Err? then Err(CLASS_CAST)
          else
            var fields := YamlMetadataServiceModel.Get(sectionConfig, "fields");
            if fields.Null? then Ok(root)
            else if !fields.List? then Err(CLASS_CAST)
            else
              var items := Items(sectionData.items, fields.items, []);
              if items.Err? then Err(items.message)
              else Ok(JsonBuilderModel.SetAt(root, path.value.value, Node(JArr(items.value))))
    }

    method BuildItem(item: Value, fields: seq<Value>) returns (r: Result<Json>)
      ensures r == ItemNode(item, fields)
    {
      if !(item.Null? || item.Dict?) {
        return Err(CLASS_CAST);
      }
      var itemNode := JObj([]);
      var i := 0;
      while i < |fields|
        invariant 0 <= i <= |fields|
        invariant itemNode.JObj?
        invariant ItemFields(item, fields[i..], itemNode) == ItemFields(item, fields, JObj([]))
      {
        var field := fields[i];
        assert fields[i..][0] == field && fields[i..][1..] == fields[i + 1..];
        if !field.Dict? {
          return Err(NotMap(field));
        }
        var names := FieldNames(field);
        if names.Err? {
          return Err(names.message);
        }
        if names.value.0.Some? && names.value.1.Some? {
          if item.Null? {
            return Err(NULL_POINTER);
          }
          var value := MapGet(item, names.value.0.value);
          if !value.Null? {
            var transformed := ApplyFieldTransformations(field, value);
            if transformed.Err? {
              return Err(transformed.message);
            }
            var next := SetNestedValue(itemNode, names.value.1.value, transformed.value);
            if next.Err? {
              return next;
            }
            itemNode := next.value;
          }
        }
        i := i + 1;
      }
      assert fields[i..] == [];
      return Ok(itemNode);
    }

    method ProcessArraySection(builder: JsonBuilderModel.JsonBuilder, sectionConfig: YamlMetadataServiceModel.Entries, sectionData: Value)
      returns (r: Result<()>)
      requires builder.Valid()
      modifies builder
      ensures builder.Valid()
      ensures r.Ok? <==> ArraySectionWrite(old(builder.root), sectionConfig, sectionData).Ok?
      ensures r.Ok? ==> builder.root == ArraySectionWrite(old(builder.root), sectionConfig, sectionData).value
    {
      if !sectionData.List? {
        return Ok(());
      }
      var govstackPath := CastStr(YamlMetadataServiceModel.Get(sectionConfig, "govstack"));
      if govstackPath.Err? {
        return Err(govstackPath.message);
      }
      if govstackPath.value.None? {
        return Ok(());
      }
      var controlField := CastStr(YamlMetadataServiceModel.Get(sectionConfig, "controlField"));
      var controlValue := CastStr(YamlMetadataServiceModel.Get(sectionConfig, "controlValue"));
      if controlField.Err? || controlValue.Err? {
        return Err(CLASS_CAST);
      }
      var fields := YamlMetadataServiceModel.Get(sectionConfig, "fields");
      if fields.Null? {
        return Ok(());
      }
      if !fields.List? {
        return Err(CLASS_CAST);
      }
      var rows := sectionData.items;
      var arrayNode: seq<Json> := [];
      var i := 0;
      while i < |rows|
        invariant 0 <= i <= |rows|
        invariant Items(rows[i..], fields.items, arrayNode) == Items(rows, fields.items, [])
        invariant builder.root == old(builder.root)
      {
        assert rows[i..][0] == rows[i] && rows[i..][1..] == rows[i + 1..];
        var item := BuildItem(rows[i], fields.items);
        if item.Err? {
          return Err(item.message);
        }
        arrayNode := arrayNode + [item.value];
        i := i + 1;
      }
      assert rows[i..] == [];
      builder.SetValue(govstackPath.value.value, Node(JArr(arrayNode)));
      return Ok(());
    }

    // ---- the section loop and addMetadata ----

    /** One entry of the form mappings: skipped without config or data, else an array or an object section. */
    function SectionWrite(root: Json, sectionName: string, config: Value, formData: FormData): Result<Json>
      reads transformationService
    {
      var sectionConfig := YamlMetadataServiceModel.CastMap(config);
      if sectionConfig.Err? then Err(sectionConfig.message)
      else if sectionConfig.value.None? then Ok(root)
      else
        var sectionData := DataOf(formData, sectionName);
        if sectionData.Null? then Ok(root)
        else
          var kind := CastStr(YamlMetadataServiceModel.Get(sectionConfig.value.value, "type"));
          if kind.Err? then Err(kind.message)
          else if kind.value == Some("array") then ArraySectionWrite(root, sectionConfig.value.value, sectionData)
          else FormSectionWrite(root, sectionConfig.value.value, sectionData)
    }

    function SectionsWrite(todo: YamlMetadataServiceModel.Entries, formData: FormData, root: Json): Result<Json>
      reads transformationService
      decreases |todo|
    {
      if todo == [] then Ok(root)
      else
        var next := SectionWrite(root, todo[0].0, todo[0].1, formData);
        if next.Err? then next else SectionsWrite(todo[1..], formData, next.value)
    }

    method ProcessSection(builder: JsonBuilderModel.JsonBuilder, sectionName: string, config: Value, formData: FormData)
      returns (r: Result<()>)
      requires builder.Valid()
      modifies builder
      ensures builder.Valid()
      ensures r.Ok? <==> SectionWrite(old(builder.root), sectionName, config, formData).Ok?
      ensures r.Ok? ==> builder.root == SectionWrite(old(builder.root), sectionName, config, formData).value
    {
      var sectionConfig := YamlMetadataServiceModel.CastMap(config);
      if sectionConfig.Err? {
        return Err(sectionConfig.message);
      }
      if sectionConfig.value.None? {
        return Ok(());
      }
      var sectionData := DataOf(formData, sectionName);
      if sectionData.Null? {
        return Ok(());
      }
      var kind := CastStr(YamlMetadataServiceModel.Get(sectionConfig.value.value, "type"));
      if kind.Err? {
        return Err(kind.message);
      }
      if kind.value == Some("array") {
        r := ProcessArraySection(builder, sectionConfig.value.value, sectionData);
      } else {
        r := ProcessFormSection(builder, sectionConfig.value.value, sectionData);
      }
    }

    /**
     * `addMetadata`: the timestamp, the record id as a string when there is
     * one, then the service's `id`, `version` and `metadataVersion` when
     * they are set.
     */
    function Metadata(root: Json, formData: FormData, timestamp: string): (r: Result<Json>)
      reads metadataService
    {
      var withTime := JsonBuilderModel.SetAt(root, "timestamp", Str(timestamp));
      var id := DataOf(formData, "id");
      var withId := if id.Null? then withTime else JsonBuilderModel.SetAt(withTime, "id", Str(ToJavaString(id)));
      var service := metadataService.ServiceMetadata();
      var serviceId := CastStr(YamlMetadataServiceModel.Get(service, "id"));
      var serviceVersion := CastStr(YamlMetadataServiceModel.Get(service, "version"));
      var metadataVersion := CastStr(YamlMetadataServiceModel.Get(service, "metadataVersion"));
      if serviceId.Err? || serviceVersion.Err? || metadataVersion.Err? then Err(CLASS_CAST)
      else
        var a := if serviceId.value.Some? then JsonBuilderModel.SetAt(withId, "serviceId", Str(serviceId.value.value)) else withId;
        var b := if serviceVersion.value.Some? then JsonBuilderModel.SetAt(a, "serviceVersion", Str(serviceVersion.value.value)) else a;
        Ok(if metadataVersion.value.Some? then JsonBuilderModel.SetAt(b, "metadataVersion", Str(metadataVersion.value.value)) else b)
    }

    method AddMetadata(builder: JsonBuilderModel.JsonBuilder, formData: FormData, timestamp: string) returns (r: Result<()>)
      requires builder.Valid()
      modifies builder
      ensures builder.Valid()
      ensures r.Ok? <==> Metadata(old(builder.root), formData, timestamp).Ok?
      ensures r.Ok? ==> builder.root == Metadata(old(builder.root), formData, timestamp).value
    {
      builder.SetValue("timestamp", Str(timestamp));
      var id := DataOf(formData, "id");
      if !id.Null? {
        builder.SetValue("id", Str(ToJavaString(id)));
      }
      var serviceMetadata := metadataService.ServiceMetadata();
      var serviceId := CastStr(YamlMetadataServiceModel.Get(serviceMetadata, "id"));
      var serviceVersion := CastStr(YamlMetadataServiceModel.Get(serviceMetadata, "version"));
      var metadataVersion := CastStr(YamlMetadataServiceModel.Get(serviceMetadata, "metadataVersion"));
      if serviceId.Err? || serviceVersion.Err? || metadataVersion.Err? {
        return Err(CLASS_CAST);
      }
      if serviceId.value.Some? {
        builder.SetValue("serviceId", Str(serviceId.value.value));
      }
      if serviceVersion.value.Some? {
        builder.SetValue("serviceVersion", Str(serviceVersion.value.value));
      }
      if metadataVersion.value.Some? {
        builder.SetValue("metadataVersion", Str(metadataVersion.value.value));
      }
      return Ok(());
    }

    /**
     * `encodeToGovStackJson`: None (null) when there are no form mappings
     * or anything throws; otherwise the document the builder holds.
     */
    function Encoded(formData: FormData, timestamp: string): Option<Json>
      reads metadataService, transformationService
    {
      var mappings := metadataService.FormMappings();
      if mappings == [] then None
      else
        var sections := SectionsWrite(mappings, formData, JObj([]));
        if sections.Err? then None
        else
          var document := Metadata(sections.value, formData, timestamp);
          if document.Err? then None else Some(document.value)
    }

    method EncodeToGovStackJson(formData: FormData, timestamp: string) returns (json: Option<Json>)
      ensures json == Encoded(formData, timestamp)
    {
      var builder := new JsonBuilderModel.JsonBuilder();
      var formMappings := metadataService.FormMappings();
      if formMappings == [] {
        return None;
      }
      var i := 0;
      while i < |formMappings|
        invariant 0 <= i <= |formMappings|
        invariant builder.Valid()
        invariant SectionsWrite(formMappings[i..], formData, builder.root) == SectionsWrite(formMappings, formData, JObj([]))
      {
        assert formMappings[i..][0] == formMappings[i] && formMappings[i..][1..] == formMappings[i + 1..];
        var done := ProcessSection(builder, formMappings[i].0, formMappings[i].1, formData);
        if done.Err? {
          return None;
        }
        i := i + 1;
      }
      assert formMappings[i..] == [];
      var done := AddMetadata(builder, formData, timestamp);
      if done.Err? {
        return None;
      }
      return Some(builder.Document());
    }
  }

  // ---- properties ----

  /** Without form mappings there is nothing to encode: the answer is null. */
  lemma NoMappingsNoDocument(x: GovStackJsonEncoder, formData: FormData, timestamp: string)
    requires x.metadataService.FormMappings() == []
    ensures x.Encoded(formData, timestamp) == None
  {
  }

  /** A section the record does not hold writes nothing. */
  lemma MissingSectionSkipped(x: GovStackJsonEncoder, root: Json, sectionName: string, config: Value, formData: FormData)
    requires config.Null? || config.Dict?
    requires sectionName !in formData
    ensures x.SectionWrite(root, sectionName, config, formData) == Ok(root)
  {
  }

  /** The source name is `field_id` when it is set, else `joget`; the target is `jsonPath`, else `govstack`. */
  lemma FieldNamePriority(field: Value)
    requires FieldNames(field).Ok?
    ensures MapGet(field, "field_id").Str? ==> FieldNames(field).value.0 == Some(MapGet(field, "field_id").s)
    ensures MapGet(field, "field_id").Null? ==> FieldNames(field).value.0 == StrOf(MapGet(field, "joget"))
    ensures MapGet(field, "jsonPath").Str? ==> FieldNames(field).value.1 == Some(MapGet(field, "jsonPath").s)
    ensures MapGet(field, "jsonPath").Null? ==> FieldNames(field).value.1 == StrOf(MapGet(field, "govstack"))
  {
  }

  /** A field without a source name or a target path is ignored. */
  lemma FieldWithoutNamesIgnored(x: GovStackJsonEncoder, root: Json, field: Value, dataMap: Value)
    requires field.Dict? && FieldNames(field).Ok?
    requires FieldNames(field).value.0.None? || FieldNames(field).value.1.None?
    ensures x.FieldWrite(root, field, dataMap) == Ok(root)
  {
  }

  /**
   * In an object section a null or blank value is never written; a
   * `required` flag does not change that.
   */
  lemma BlankValueNotWritten(x: GovStackJsonEncoder, root: Json, field: Value, dataMap: Value)
    requires field.Dict? && FieldNames(field).Ok? && FieldNames(field).value.0.Some?
    requires IsNullOrBlank(MapGet(dataMap, FieldNames(field).value.0.value))
    requires MapGet(field, "required").Null? || MapGet(field, "required").Bool?
    ensures x.FieldWrite(root, field, dataMap) == Ok(root)
  {
  }

  /**
   * The type pair is written only when both `govstackType` and `typeValue`
   * are set: otherwise the field's write is the value alone.
   */
  lemma TypePairNeedsBoth(x: GovStackJsonEncoder, root: Json, field: Value, dataMap: Value)
    requires x.FieldWrite(root, field, dataMap).Ok? && field.Dict?
    requires MapGet(field, "govstackType").Null? || MapGet(field, "typeValue").Null?
    requires FieldNames(field).value.0.Some? && FieldNames(field).value.1.Some?
    requires !IsNullOrBlank(MapGet(dataMap, FieldNames(field).value.0.value))
    ensures x.FieldWrite(root, field, dataMap) ==
      Ok(JsonBuilderModel.SetAt(root, FieldNames(field).value.1.value,
                                x.Transformed(field, MapGet(dataMap, FieldNames(field).value.0.value)).value))
  {
    var names := FieldNames(field).value;
    var value := MapGet(dataMap, names.0.value);
    var t := x.Transformed(field, value);
    assert t.Ok?;
    var written := JsonBuilderModel.SetAt(root, names.1.value, t.value);
    assert !(StrOf(MapGet(field, "govstackType")).Some? && StrOf(MapGet(field, "typeValue")).Some?);
    assert x.FieldWrite(root, field, dataMap) == Ok(written);
  }

  /**
   * A present value written at a plain target name reads back there,
   * transformed, and the type pair reads back at its own plain name.
   */
  lemma FieldReadsBack(x: GovStackJsonEncoder, fields: Fields, field: Value, dataMap: Value, target: string)
    requires x.FieldWrite(JObj(fields), field, dataMap).Ok? && field.Dict?
    requires FieldNames(field).value.0.Some? && FieldNames(field).value.1 == Some(target)
    requires '.' !in target && '[' !in target && exists i :: 0 <= i < |target| && !JavaStr.IsTrimmable(target[i])
    requires !IsNullOrBlank(MapGet(dataMap, FieldNames(field).value.0.value))
    requires !x.Transformed(field, MapGet(dataMap, FieldNames(field).value.0.value)).value.Null?
    requires MapGet(field, "govstackType").Null?
    ensures x.FieldWrite(JObj(fields), field, dataMap).value.JObj?
    ensures Get(x.FieldWrite(JObj(fields), field, dataMap).value.fields, target) ==
      Some(ToNode(x.Transformed(field, MapGet(dataMap, FieldNames(field).value.0.value)).value))
  {
    PlainWrite(fields, target, x.Transformed(field, MapGet(dataMap, FieldNames(field).value.0.value)).value);
  }

  /**
   * The value-mapping is applied to the transformed value: a mapping keyed
   * by the transformed text answers its entry for that text.
   */
  lemma MappingAfterTransform(x: GovStackJsonEncoder, field: Value, value: Value)
    requires MapGet(field, "transform").Str? && MapGet(field, "valueMapping").Dict?
    requires var encoded := TransformationService.EncodeSpec(x.transformationService.transformers, x.transformationService.parsers,
                                                             value, Some(MapGet(field, "transform").s));
      !encoded.Null? && TransformationService.HasKey(MapGet(field, "valueMapping").entries, ToJavaString(encoded))
    ensures var encoded := TransformationService.EncodeSpec(x.transformationService.transformers, x.transformationService.parsers,
                                                            value, Some(MapGet(field, "transform").s));
      x.Transformed(field, value) ==
        Ok(TransformationService.Lookup(MapGet(field, "valueMapping").entries, ToJavaString(encoded)))
  {
    var encoded := TransformationService.EncodeSpec(x.transformationService.transformers, x.transformationService.parsers,
                                                    value, Some(MapGet(field, "transform").s));
    var entries := MapGet(field, "valueMapping").entries;
    assert x.Transformed(field, value) == Ok(TransformationService.MappingSpec(encoded, Some(entries), "encode"));
    TransformationService.EncodeFindsEntry(encoded, entries);
  }

  /** Without a transform or a value-mapping the value passes unchanged. */
  lemma UntransformedPassesThrough(x: GovStackJsonEncoder, field: Value, value: Value)
    requires MapGet(field, "transform").Null? && MapGet(field, "valueMapping").Null?
    ensures x.Transformed(field, value) == Ok(value)
  {
  }

  /**
   * An array section has exactly one item per row, in order, each the
   * row's own item object.
   */
  lemma {:induction false} OneItemPerRow(x: GovStackJsonEncoder, rows: seq<Value>, fields: seq<Value>, acc: seq<Json>)
    requires x.Items(rows, fields, acc).Ok?
    ensures |x.Items(rows, fields, acc).value| == |acc| + |rows|
    ensures x.Items(rows, fields, acc).value[..|acc|] == acc
    ensures forall k :: 0 <= k < |rows| ==>
      x.ItemNode(rows[k], fields).Ok? && x.Items(rows, fields, acc).value[|acc| + k] == x.ItemNode(rows[k], fields).value
    decreases |rows|
  {
    if rows != [] {
      var item := x.ItemNode(rows[0], fields).value;
      var rest := x.Items(rows[1..], fields, acc + [item]);
      OneItemPerRow(x, rows[1..], fields, acc + [item]);
      assert rest.value[..|acc|] == (rest.value[..|acc| + 1])[..|acc|];
      forall k | 0 <= k < |rows|
        ensures x.ItemNode(rows[k], fields).Ok? && rest.value[|acc| + k] == x.ItemNode(rows[k], fields).value
      {
        if k == 0 {
          assert rest.value[|acc|] == (rest.value[..|acc| + 1])[|acc|];
        } else {
          assert rows[1..][k - 1] == rows[k];
          assert |acc + [item]| + (k - 1) == |acc| + k;
        }
      }
    }
  }

  /** A row that holds none of the fields' source names still yields an (empty) item. */
  lemma {:induction false} RowWithoutValuesGivesEmptyItem(x: GovStackJsonEncoder, item: Value, fields: seq<Value>, node: Json)
    requires item.Dict? && node.JObj?
    requires forall k :: 0 <= k < |fields| ==> fields[k].Dict? && FieldNames(fields[k]).Ok?
    requires forall k :: 0 <= k < |fields| && FieldNames(fields[k]).value.0.Some? ==>
      MapGet(item, FieldNames(fields[k]).value.0.value).Null?
    ensures x.ItemFields(item, fields, node) == Ok(node)
    decreases |fields|
  {
    if fields != [] {
      forall k | 0 <= k < |fields[1..]| ensures fields[1..][k] == fields[k + 1] { }
      RowWithoutValuesGivesEmptyItem(x, item, fields[1..], node);
    }
  }

  /**
   * In an array item a blank string is kept: a field reading a blank value
   * writes it at its plain target.
   */
  lemma BlankKeptInItems(x: GovStackJsonEncoder, item: Value, field: Value, source: string, target: string)
    requires item.Dict? && field.Dict? && FieldNames(field) == Ok((Some(source), Some(target)))
    requires MapGet(field, "transform").Null? && MapGet(field, "valueMapping").Null?
    requires MapGet(item, source).Str? && JavaStr.IsBlank(MapGet(item, source).s)
    requires '.' !in target
    ensures x.ItemNode(item, [field]) == Ok(JObj([(target, JStr(MapGet(item, source).s))]))
  {
    var value := MapGet(item, source);
    assert x.Transformed(field, value) == Ok(value);
    assert JavaStr.Split(target, '.') == [target];
    var node := NestedPath(JObj([]), [target], ToNode(value));
    assert node == JObj([(target, JStr(value.s))]);
    assert Nested(JObj([]), target, value) == Ok(node);
    assert x.ItemFields(item, [field], JObj([])) == x.ItemFields(item, [], node);
  }

  /** Writing along an open path from any object reads back at that path. */
  lemma {:induction false} NestedReadsBack(cur: Json, parts: seq<string>, v: Json)
    requires cur.JObj? && |parts| >= 1 && OpenPath(cur, parts)
    ensures JsonBuilderModel.GetPath(NestedPath(cur, parts, v), parts) == Some(v)
    decreases |parts|
  {
    if |parts| > 1 {
      var child := Get(cur.fields, parts[0]);
      var next := if child.None? then JObj([]) else child.value;
      if child.None? {
        EmptyIsOpen(parts[1..]);
      }
      NestedReadsBack(next, parts[1..], v);
    }
  }

  lemma EmptyIsOpen(parts: seq<string>)
    ensures OpenPath(JObj([]), parts)
  {
  }

  /** Members other than the first part's are untouched when the cursor descends. */
  lemma NestedSiblings(cur: Json, parts: seq<string>, v: Json, other: string)
    requires cur.JObj? && |parts| >= 1 && other != parts[0]
    requires |parts| == 1 || Get(cur.fields, parts[0]).None? || Get(cur.fields, parts[0]).value.JObj?
    ensures Get(NestedPath(cur, parts, v).fields, other) == Get(cur.fields, other)
  {
  }

  /**
   * A member on the way that is not an object is stepped over: writing
   * `a.b` where `a` holds a scalar sets `b` beside it and keeps `a`.
   */
  lemma ScalarOnPathSteppedOver(cur: Json, a: string, b: string, v: Json)
    requires cur.JObj? && a != b
    requires Get(cur.fields, a).Some? && !Get(cur.fields, a).value.JObj?
    ensures NestedPath(cur, [a, b], v) == JObj(Set(cur.fields, b, v))
    ensures Get(NestedPath(cur, [a, b], v).fields, a) == Get(cur.fields, a)
  {
    assert [a, b][1..] == [b];
  }

  /** The metadata member names are plain names. */
  lemma MetadataNamesPlain()
    ensures '.' !in "timestamp" && '[' !in "timestamp" && !JavaStr.IsTrimmable("timestamp"[0])
    ensures '.' !in "id" && '[' !in "id" && !JavaStr.IsTrimmable("id"[0])
    ensures '.' !in "serviceId" && '[' !in "serviceId" && !JavaStr.IsTrimmable("serviceId"[0])
    ensures '.' !in "serviceVersion" && '[' !in "serviceVersion" && !JavaStr.IsTrimmable("serviceVersion"[0])
    ensures '.' !in "metadataVersion" && '[' !in "metadataVersion" && !JavaStr.IsTrimmable("metadataVersion"[0])
  {
  }

  /**
   * The metadata reads back: the timestamp, the record id as a string when
   * the record has one, and the service id when it is set.
   */
  lemma MetadataReadsBack(x: GovStackJsonEncoder, fields: Fields, formData: FormData, timestamp: string)
    requires x.Metadata(JObj(fields), formData, timestamp).Ok?
    ensures x.Metadata(JObj(fields), formData, timestamp).value.JObj?
    ensures var r := x.Metadata(JObj(fields), formData, timestamp).value.fields;
      && Get(r, "timestamp") == Some(JStr(timestamp))
      && (!DataOf(formData, "id").Null? ==> Get(r, "id") == Some(JStr(ToJavaString(DataOf(formData, "id")))))
      && (DataOf(formData, "id").Null? ==> Get(r, "id") == Get(fields, "id"))
      && (YamlMetadataServiceModel.Get(x.metadataService.ServiceMetadata(), "id").Str? ==>
            Get(r, "serviceId") == Some(JStr(YamlMetadataServiceModel.Get(x.metadataService.ServiceMetadata(), "id").s)))
  {
    MetadataNamesPlain();
    var service := x.metadataService.ServiceMetadata();
    var id := DataOf(formData, "id");
    var serviceId := YamlMetadataServiceModel.Get(service, "id");
    var serviceVersion := YamlMetadataServiceModel.Get(service, "version");
    var metadataVersion := YamlMetadataServiceModel.Get(service, "metadataVersion");
    var f1 := Set(fields, "timestamp", JStr(timestamp));
    PlainWrite(fields, "timestamp", Str(timestamp));
    var f2 := if id.Null? then f1 else Set(f1, "id", JStr(ToJavaString(id)));
    if !id.Null? {
      PlainWrite(f1, "id", Str(ToJavaString(id)));
    }
    var f3 := if serviceId.Str? then Set(f2, "serviceId", JStr(serviceId.s)) else f2;
    if serviceId.Str? {
      PlainWrite(f2, "serviceId", serviceId);
    }
    var f4 := if serviceVersion.Str? then Set(f3, "serviceVersion", JStr(serviceVersion.s)) else f3;
    if serviceVersion.Str? {
      PlainWrite(f3, "serviceVersion", serviceVersion);
    }
    var f5 := if metadataVersion.Str? then Set(f4, "metadataVersion", JStr(metadataVersion.s)) else f4;
    if metadataVersion.Str? {
      PlainWrite(f4, "metadataVersion", metadataVersion);
    }
    assert x.Metadata(JObj(fields), formData, timestamp) == Ok(JObj(f5));
    MetadataGets(fields, timestamp, id, serviceId, serviceVersion, metadataVersion, f1, f2, f3, f4, f5);
  }

  /** The member reads of the metadata chain, one `Set` at a time. */
  lemma MetadataGets(fields: Fields, timestamp: string, id: Value, serviceId: Value, serviceVersion: Value,
                     metadataVersion: Value, f1: Fields, f2: Fields, f3: Fields, f4: Fields, f5: Fields)
    requires f1 == Set(fields, "timestamp", JStr(timestamp))
    requires f2 == if id.Null? then f1 else Set(f1, "id", JStr(ToJavaString(id)))
    requires f3 == if serviceId.Str? then Set(f2, "serviceId", JStr(serviceId.s)) else f2
    requires f4 == if serviceVersion.Str? then Set(f3, "serviceVersion", JStr(serviceVersion.s)) else f3
    requires f5 == if metadataVersion.Str? then Set(f4, "metadataVersion", JStr(metadataVersion.s)) else f4
    ensures Get(f5, "timestamp") == Some(JStr(timestamp))
    ensures !id.Null? ==> Get(f5, "id") == Some(JStr(ToJavaString(id)))
    ensures id.Null? ==> Get(f5, "id") == Get(fields, "id")
    ensures serviceId.Str? ==> Get(f5, "serviceId") == Some(JStr(serviceId.s))
  {
    MetadataNamesDistinct();
  }

  lemma MetadataNamesDistinct()
    ensures "timestamp" != "id" && "timestamp" != "serviceId" && "timestamp" != "serviceVersion" && "timestamp" != "metadataVersion"
    ensures "id" != "serviceId" && "id" != "serviceVersion" && "id" != "metadataVersion"
    ensures "serviceId" != "serviceVersion" && "serviceId" != "metadataVersion"
  {
    assert "timestamp"[0] != "serviceId"[0];
  }

  /**
   * A document, when there is one, is an object that carries the
   * timestamp and, when the record has an id, that id as a string.
   */
  lemma DocumentCarriesMetadata(x: GovStackJsonEncoder, formData: FormData, timestamp: string)
    requires x.Encoded(formData, timestamp).Some?
    ensures x.Encoded(formData, timestamp).value.JObj?
    ensures Get(x.Encoded(formData, timestamp).value.fields, "timestamp") == Some(JStr(timestamp))
    ensures !DataOf(formData, "id").Null? ==>
      Get(x.Encoded(formData, timestamp).value.fields, "id") == Some(JStr(ToJavaString(DataOf(formData, "id"))))
  {
    var mappings := x.metadataService.FormMappings();
    SectionsKeepObject(x, mappings, formData, JObj([]));
    var sections := x.SectionsWrite(mappings, formData, JObj([])).value;
    MetadataReadsBack(x, sections.fields, formData, timestamp);
  }

  /** The section loop keeps the document an object. */
  lemma {:induction false} SectionsKeepObject(x: GovStackJsonEncoder, todo: YamlMetadataServiceModel.Entries, formData: FormData, root: Json)
    requires root.JObj? && x.SectionsWrite(todo, formData, root).Ok?
    ensures x.SectionsWrite(todo, formData, root).value.JObj?
    decreases |todo|
  {
    if todo != [] {
      var next := x.SectionWrite(root, todo[0].0, todo[0].1, formData).value;
      SectionKeepsObject(x, root, todo[0].0, todo[0].1, formData);
      SectionsKeepObject(x, todo[1..], formData, next);
    }
  }

  lemma SectionKeepsObject(x: GovStackJsonEncoder, root: Json, sectionName: string, config: Value, formData: FormData)
    requires root.JObj? && x.SectionWrite(root, sectionName, config, formData).Ok?
    ensures x.SectionWrite(root, sectionName, config, formData).value.JObj?
  {
    var sectionConfig := YamlMetadataServiceModel.CastMap(config);
    var sectionData := DataOf(formData, sectionName);
    if sectionConfig.value.Some? && !sectionData.Null? {
      var sc := sectionConfig.value.value;
      if CastStr(YamlMetadataServiceModel.Get(sc, "type")).value == Some("array") {
        var path := CastStr(YamlMetadataServiceModel.Get(sc, "govstack"));
        if sectionData.List? && path.value.Some? && YamlMetadataServiceModel.Get(sc, "fields").List? {
          var items := x.Items(sectionData.items, YamlMetadataServiceModel.Get(sc, "fields").items, []);
          if items.Ok? {
            SetAtKeepsObject(root, path.value.value, Node(JArr(items.value)));
          }
        }
      } else if sectionData.Dict? && YamlMetadataServiceModel.Get(sc, "fields").List? {
        FieldsKeepObject(x, root, YamlMetadataServiceModel.Get(sc, "fields").items, sectionData);
      }
    }
  }

  lemma {:induction false} FieldsKeepObject(x: GovStackJsonEncoder, root: Json, fields: seq<Value>, dataMap: Value)
    requires root.JObj? && x.FieldsWrite(root, fields, dataMap).Ok?
    ensures x.FieldsWrite(root, fields, dataMap).value.JObj?
    decreases |fields|
  {
    if fields != [] {
      FieldKeepsObject(x, root, fields[0], dataMap);
      FieldsKeepObject(x, x.FieldWrite(root, fields[0], dataMap).value, fields[1..], dataMap);
    }
  }

  lemma FieldKeepsObject(x: GovStackJsonEncoder, root: Json, field: Value, dataMap: Value)
    requires root.JObj? && x.FieldWrite(root, field, dataMap).Ok?
    ensures x.FieldWrite(root, field, dataMap).value.JObj?
  {
    if field.Dict? && FieldNames(field).value.0.Some? && FieldNames(field).value.1.Some? {
      var value := MapGet(dataMap, FieldNames(field).value.0.value);
      if !IsNullOrBlank(value) {
        var t := x.Transformed(field, value).value;
        var written := JsonBuilderModel.SetAt(root, FieldNames(field).value.1.value, t);
        SetAtKeepsObject(root, FieldNames(field).value.1.value, t);
        var govstackType := MapGet(field, "govstackType");
        var typeValue := MapGet(field, "typeValue");
        if govstackType.Str? && typeValue.Str? {
          SetAtKeepsObject(written, govstackType.s, Str(typeValue.s));
        }
      }
    }
  }
}
