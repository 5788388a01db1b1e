/**
 * YamlMetadataService: the parsed services.yml of one service (its
 * `service` block and its `formMappings`) and the parsed
 * form_structure.yaml, with the lookups the extractor and the encoder make
 * in them. Parsing the files is not part of this model: `LoadMetadata` is
 * given what the YAML parser returned. A cast that would throw, or a
 * method called on null, is an `Err` carrying the exception's name.
 */
module YamlMetadataServiceModel {
  import opened Wrappers
  import opened JavaValues
  import opened JavaStr

  /** A parsed YAML mapping, its entries in document order. */
  type Entries = seq<(string, Value)>

  const LOAD_ERROR: string := "Error loading metadata: "
  const SERVICE_NOT_FOUND: string := "Service metadata not found in YAML"
  const ID_MISMATCH: string := "Service ID mismatch. Expected: "
  const MAPPINGS_NOT_FOUND: string := "Form mappings not found in YAML"
  const COLUMN_PREFIX: string := "c_"

  function Get(m: Entries, key: string): Value
  {
    MapGet(Dict(m), key)
  }

  predicate Has(m: Entries, key: string)
  {
    ContainsKey(Dict(m), key)
  }

  /** A `(Map<String, Object>)` cast: null stays null, a value that is not a mapping throws. */
  function CastMap(v: Value): (r: Result<Option<Entries>>)
    ensures r.Ok? <==> v.Null? || v.Dict?
    ensures r.Ok? ==> (r.value.Some? <==> v.Dict?) && (v.Dict? ==> r.value.value == v.entries)
  {
    if v.Null? then Ok(None) else if v.Dict? then Ok(Some(v.entries)) else Err(CLASS_CAST)
  }

  // ---- loading ----

  /**
   * The checks `loadMetadata` makes on the parsed services.yml: a `service`
   * mapping whose `id` is the requested service, and a `formMappings`
   * mapping. A ConfigurationException keeps its message; any other
   * exception is wrapped.
   */
  function CheckLoad(serviceId: string, yamlData: Value): (r: Result<(Entries, Entries)>)
    ensures r.Ok? <==>
      yamlData.Dict? && MapGet(yamlData, "service").Dict? &&
      MapGet(MapGet(yamlData, "service"), "id") == Str(serviceId) && MapGet(yamlData, "formMappings").Dict?
    ensures r.Ok? ==> r.value == (MapGet(yamlData, "service").entries, MapGet(yamlData, "formMappings").entries)
  {
    if !yamlData.Dict? then Err(LOAD_ERROR + NotMap(yamlData))
    else
      var service := CastMap(MapGet(yamlData, "service"));
      if service.Err? then Err(LOAD_ERROR + service.message)
      else if service.value.None? then Err(SERVICE_NOT_FOUND)
      else
        var configured := CastStr(Get(service.value.value, "id"));
        if configured.Err? then Err(LOAD_ERROR + configured.message)
        else if configured.value != Some(serviceId) then
          Err(ID_MISMATCH + serviceId + ", Found: " + StringOf(configured.value))
        else
          var mappings := CastMap(MapGet(yamlData, "formMappings"));
          if mappings.Err? then Err(LOAD_ERROR + mappings.message)
          else if mappings.value.None? then Err(MAPPINGS_NOT_FOUND)
          else Ok((service.value.value, mappings.value.value))
  }

  /** Whether `loadMetadata` gets as far as reading `formMappings`. */
  predicate ReachesMappings(serviceId: string, yamlData: Value)
  {
    yamlData.Dict? && MapGet(yamlData, "service").Dict? &&
    MapGet(MapGet(yamlData, "service"), "id") == Str(serviceId)
  }

  /**
   * form_structure.yaml as it is stored: a file that cannot be read (None)
   * or does not hold a mapping becomes an empty mapping; an empty document
   * is null.
   */
  function StructureOrEmpty(formStructure: Option<Value>): (r: Option<Entries>)
    ensures formStructure.None? ==> r == Some([])
    ensures formStructure.Some? && formStructure.value.Dict? ==> r == Some(formStructure.value.entries)
  {
    if formStructure.None? then Some([])
    else if formStructure.value.Null? then None
    else if formStructure.value.Dict? then Some(formStructure.value.entries)
    else Some([])
  }

  /** A column name as Joget stores it: with the `c_` prefix, added when missing. */
  function WithColumnPrefix(field: string): (r: string)
    ensures StartsWith(r, COLUMN_PREFIX) && EndsWith(r, field)
    ensures StartsWith(field, COLUMN_PREFIX) ==> r == field
  {
    if StartsWith(field, COLUMN_PREFIX) then field
    else
      assert (COLUMN_PREFIX + field)[..|COLUMN_PREFIX|] == COLUMN_PREFIX;
      assert (COLUMN_PREFIX + field)[|COLUMN_PREFIX + field| - |field|..] == field;
      COLUMN_PREFIX + field
  }

  /**
   * The two-step lookup `getForeignKeyColumn` makes in one configuration
   * mapping: the key column as it stands, else the parent field as a
   * column.
   */
  function ParentColumn(config: Entries, keyName: string, fieldName: string): (r: Result<Option<string>>)
  {
    var key := CastStr(Get(config, keyName));
    if key.Err? then Err(key.message)
    else if key.value.Some? then Ok(key.value)
    else
      var field := CastStr(Get(config, fieldName));
      if field.Err? then Err(field.message)
      else if field.value.None? then Ok(None)
      else Ok(Some(WithColumnPrefix(field.value.value)))
  }

  function MissingConfig(key: string): string
  {
    key + " must be specified in service configuration for: "
  }

  function MissingForeignKey(sectionName: string): string
  {
    "Missing foreign key column configuration for section '" + sectionName + "'. " +
    "Add to services.yml:\n" +
    "  serviceConfig.defaults.gridParentColumn: \"c_your_field_name\""
  }

  // ---- searching the field mappings ----

  /** A mapping field for `jogetField`; with `needMap`, one that also has a `valueMapping` map. */
  predicate Matches(field: Value, jogetField: string, needMap: bool)
  {
    MapGet(field, "joget") == Str(jogetField) && (needMap ==> MapGet(field, "valueMapping").Dict?)
  }

  /** A section's `fields`, as the loops over all sections read them: absent is none, a non-list throws. */
  function SectionFields(section: Value): (r: Result<seq<Value>>)
  {
    if !section.Dict? then Err(NotMap(section))
    else
      var fields := MapGet(section, "fields");
      if fields.Null? then Ok([]) else if fields.List? then Ok(fields.items) else Err(CLASS_CAST)
  }

  /** The inner loop: the first matching field; an element that is not a mapping throws when reached. */
  function FindInFields(fields: seq<Value>, jogetField: string, needMap: bool): (r: Result<Option<Value>>)
    ensures r.Ok? && r.value.Some? ==> Matches(r.value.value, jogetField, needMap)
  {
    if fields == [] then Ok(None)
    else if !fields[0].Dict? then Err(NotMap(fields[0]))
    else if Matches(fields[0], jogetField, needMap) then Ok(Some(fields[0]))
    else FindInFields(fields[1..], jogetField, needMap)
  }

  /** The loops of `getValueMapping` and `getTransformation`: sections in order, then their fields. */
  function FindField(sections: Entries, jogetField: string, needMap: bool): (r: Result<Option<Value>>)
    ensures r.Ok? && r.value.Some? ==> Matches(r.value.value, jogetField, needMap)
  {
    if sections == [] then Ok(None)
    else
      var fields := SectionFields(sections[0].1);
      if fields.Err? then Err(fields.message)
      else
        var found := FindInFields(fields.value, jogetField, needMap);
        if found.Err? || found.value.Some? then found
        else FindField(sections[1..], jogetField, needMap)
  }

  /** Every section's fields, in order: what the two loops walk through. */
  function AllSectionFields(sections: Entries): (r: Result<seq<Value>>)
  {
    if sections == [] then Ok([])
    else
      var fields := SectionFields(sections[0].1);
      if fields.Err? then Err(fields.message)
      else
        var rest := AllSectionFields(sections[1..]);
        if rest.Err? then rest else Ok(fields.value + rest.value)
  }

  predicate AllMaps(fields: seq<Value>)
  {
    forall k :: 0 <= k < |fields| ==> fields[k].Dict?
  }

  /** An independent statement of "the first match": the position of the first field that matches. */
  function FirstMatch(fields: seq<Value>, jogetField: string, needMap: bool): (r: Option<nat>)
    ensures r.Some? ==> r.value < |fields|
  {
    if fields == [] then None
    else if Matches(fields[0], jogetField, needMap) then Some(0)
    else
      var rest := FirstMatch(fields[1..], jogetField, needMap);
      if rest.None? then None else Some(rest.value + 1)
  }

  /** No field before the first match matches, and with no match no field matches at all. */
  lemma {:induction false} FirstMatchIsFirst(fields: seq<Value>, jogetField: string, needMap: bool)
    ensures FirstMatch(fields, jogetField, needMap).Some? ==>
      Matches(fields[FirstMatch(fields, jogetField, needMap).value], jogetField, needMap)
    ensures FirstMatch(fields, jogetField, needMap).Some? ==>
      forall k :: 0 <= k < FirstMatch(fields, jogetField, needMap).value ==> !Matches(fields[k], jogetField, needMap)
    ensures FirstMatch(fields, jogetField, needMap).None? ==>
      forall k :: 0 <= k < |fields| ==> !Matches(fields[k], jogetField, needMap)
  {
    if fields != [] && !Matches(fields[0], jogetField, needMap) {
      FirstMatchIsFirst(fields[1..], jogetField, needMap);
      forall k | 1 <= k < |fields| ensures fields[k] == fields[1..][k - 1] { }
    }
  }

  /** `String.valueOf` of each key and value, a later entry replacing an earlier one with the same key. */
  function StringMap(entries: Entries): (r: map<string, string>)
    ensures forall k :: k in r <==> exists i :: 0 <= i < |entries| && entries[i].0 == k
  {
    if entries == [] then map[]
    else
      var init := entries[..|entries| - 1];
      var last := entries[|entries| - 1];
      var r := StringMap(init)[last.0 := ToJavaString(last.1)];
      assert forall k :: (exists i :: 0 <= i < |entries| && entries[i].0 == k) ==> k in r by {
        forall k | exists i :: 0 <= i < |entries| && entries[i].0 == k ensures k in r {
          var i :| 0 <= i < |entries| && entries[i].0 == k;
          if i < |entries| - 1 {
            assert init[i].0 == k;
          }
        }
      }
      assert forall k :: k in r ==> exists i :: 0 <= i < |entries| && entries[i].0 == k by {
        forall k | k in r ensures exists i :: 0 <= i < |entries| && entries[i].0 == k {
          if k != last.0 {
            var i :| 0 <= i < |init| && init[i].0 == k;
            assert entries[i].0 == k;
          }
        }
      }
      r
  }

  // ---- the grid foreign key ----

  /**
   * The grid loop of one form: the first grid whose `grid_id` is the grid's
   * name, with its `foreign_key` and `sub_form_id`.
   */
  function FindGrid(grids: seq<Value>, gridName: string): (r: Result<Option<(Option<string>, Option<string>)>>)
  {
    if grids == [] then Ok(None)
    else if !grids[0].Dict? then Err(NotMap(grids[0]))
    else
      var gridId := CastStr(MapGet(grids[0], "grid_id"));
      if gridId.Err? then Err(gridId.message)
      else if gridId.value == Some(gridName) then
        var foreignKey := CastStr(MapGet(grids[0], "foreign_key"));
        if foreignKey.Err? then Err(foreignKey.message)
        else
          var subForm := CastStr(MapGet(grids[0], "sub_form_id"));
          if subForm.Err? then Err(subForm.message)
          else Ok(Some((foreignKey.value, subForm.value)))
      else FindGrid(grids[1..], gridName)
  }

  /** A form's `grids`: absent is none, a non-list throws. */
  function GridsOf(form: Entries): (r: Result<seq<Value>>)
  {
    var grids := Get(form, "grids");
    if grids.Null? then Ok([]) else if grids.List? then Ok(grids.items) else Err(CLASS_CAST)
  }

  /**
   * The form loop: forms in order, each searched for the grid; the search
   * ends at the first form where the grid names a foreign key.
   */
  function LocateGrid(forms: Entries, gridName: string): (r: Result<Option<(string, Option<string>)>>)
  {
    if forms == [] then Ok(None)
    else
      var form := CastMap(forms[0].1);
      if form.Err? then Err(form.message)
      else if form.value.None? then LocateGrid(forms[1..], gridName)
      else
        var grids := GridsOf(form.value.value);
        if grids.Err? then Err(grids.message)
        else
          var found := FindGrid(grids.value, gridName);
          if found.Err? then Err(found.message)
          else if found.value.Some? && found.value.value.0.Some? then
            Ok(Some((found.value.value.0.value, found.value.value.1)))
          else LocateGrid(forms[1..], gridName)
  }

  /** The sub-form field loop: the `column` of the first field whose `field_id` is the foreign key. */
  function ColumnOf(fields: seq<Value>, foreignKey: string): (r: Result<Option<string>>)
  {
    if fields == [] then Ok(None)
    else if !fields[0].Dict? then Err(NotMap(fields[0]))
    else
      var fieldId := CastStr(MapGet(fields[0], "field_id"));
      if fieldId.Err? then Err(fieldId.message)
      else if fieldId.value == Some(foreignKey) then CastStr(MapGet(fields[0], "column"))
      else ColumnOf(fields[1..], foreignKey)
  }

  // ---- the sections of a form structure ----

  /** One section's `fields` when the section is a mapping and they are a list; otherwise nothing. */
  function FieldsOfSection(section: Value): seq<Value>
  {
    if section.Dict? && MapGet(section, "fields").List? then MapGet(section, "fields").items else []
  }

  /** The concatenation, in order, of the sections' field lists. */
  function SectionsFields(sections: seq<Value>): seq<Value>
  {
    if sections == [] then []
    else SectionsFields(sections[..|sections| - 1]) + FieldsOfSection(sections[|sections| - 1])
  }

  // ---- merging structure fields with mapping fields ----

  /** `put(key, v)` on a mapping: the key's entry holds `v` and every other key keeps its value. */
  function Put(m: Entries, key: string, v: Value): (r: Entries)
    ensures Get(r, key) == v
  {
    if m == [] then [(key, v)]
    else if m[0].0 == key then Put(m[1..], key, v)
    else
      var rest := Put(m[1..], key, v);
      assert ([m[0]] + rest)[1..] == rest;
      [m[0]] + rest
  }

  /** The keys a merged field takes from its mapping field. */
  const ENRICHED: seq<string> := ["govstack", "transform", "valueMapping", "govstackType", "typeValue"]

  /** The five keys a structure field takes from its mapping field. */
  function Enrich(m: Entries, serviceField: Value): (r: Entries)
  {
    var m1 := Put(m, "govstack", MapGet(serviceField, "govstack"));
    var m2 := Put(m1, "transform", MapGet(serviceField, "transform"));
    var m3 := Put(m2, "valueMapping", MapGet(serviceField, "valueMapping"));
    var m4 := Put(m3, "govstackType", MapGet(serviceField, "govstackType"));
    Put(m4, "typeValue", MapGet(serviceField, "typeValue"))
  }

  /** The lookup loop: each mapping field under its `joget`, a later one replacing an earlier one. */
  function ServiceFieldMap(fields: seq<Value>, acc: map<string, Value>): (r: Result<map<string, Value>>)
    decreases |fields|
  {
    if fields == [] then Ok(acc)
    else if !fields[0].Dict? then Err(NotMap(fields[0]))
    else
      var joget := CastStr(MapGet(fields[0], "joget"));
      if joget.Err? then Err(joget.message)
      else ServiceFieldMap(fields[1..], if joget.value.Some? then acc[joget.value.value := fields[0]] else acc)
  }

  /** One structure field, copied, and enriched when a mapping field has its `field_id` as `joget`. */
  function Merge(structureField: Value, serviceFields: map<string, Value>): (r: Result<Value>)
  {
    if !structureField.Dict? then Err(NotMap(structureField))
    else
      var fieldId := CastStr(MapGet(structureField, "field_id"));
      if fieldId.Err? then Err(fieldId.message)
      else if fieldId.value.None? || fieldId.value.value !in serviceFields then Ok(structureField)
      else Ok(Dict(Enrich(structureField.entries, serviceFields[fieldId.value.value])))
  }

  /** The merge loop, with the merged fields so far in `acc`. */
  function MergeAll(fields: seq<Value>, serviceFields: map<string, Value>, acc: seq<Value>): (r: Result<seq<Value>>)
    decreases |fields|
  {
    if fields == [] then Ok(acc)
    else
      var merged := Merge(fields[0], serviceFields);
      if merged.Err? then Err(merged.message)
      else MergeAll(fields[1..], serviceFields, acc + [merged.value])
  }

  class YamlMetadataService {
    /** `service`, `formMappings` and form_structure.yaml as loaded; None is null. */
    var serviceMetadata: Option<Entries>
    var formMappings: Option<Entries>
    var formStructureData: Option<Entries>
    var serviceId: Option<string>

    /** Nothing is loaded until `loadMetadata` is called. */
    constructor()
      ensures serviceMetadata == None && formMappings == None && formStructureData == None && serviceId == None
    {
      serviceMetadata := None;
      formMappings := None;
      formStructureData := None;
      serviceId := None;
    }

    /**
     * `loadMetadata` once the two files are parsed: the service id is
     * recorded first; `service` and `formMappings` are stored as they are
     * read, so a failed check leaves what was read before it; the structure
     * is stored only when the checks pass, and its absence is no error.
     */
    method LoadMetadata(serviceId: string, yamlData: Value, formStructure: Option<Value>) returns (r: Result<()>)
      modifies this
      ensures this.serviceId == Some(serviceId)
      ensures r.Err? <==> CheckLoad(serviceId, yamlData).Err?
      ensures r.Err? ==> r.message == CheckLoad(serviceId, yamlData).message
      ensures r.Ok? ==> serviceMetadata == Some(CheckLoad(serviceId, yamlData).value.0)
      ensures r.Ok? ==> formMappings == Some(CheckLoad(serviceId, yamlData).value.1)
      ensures r.Ok? ==> formStructureData == StructureOrEmpty(formStructure)
      ensures r.Err? ==> formStructureData == old(formStructureData)
      ensures yamlData.Dict? && CastMap(MapGet(yamlData, "service")).Ok? ==>
        serviceMetadata == CastMap(MapGet(yamlData, "service")).value
      ensures !(yamlData.Dict? && CastMap(MapGet(yamlData, "service")).Ok?) ==> serviceMetadata == old(serviceMetadata)
      ensures ReachesMappings(serviceId, yamlData) && CastMap(MapGet(yamlData, "formMappings")).Ok? ==>
        formMappings == CastMap(MapGet(yamlData, "formMappings")).value
      ensures !(ReachesMappings(serviceId, yamlData) && CastMap(MapGet(yamlData, "formMappings")).Ok?) ==>
        formMappings == old(formMappings)
    {
      this.serviceId := Some(serviceId);
      if !yamlData.Dict? {
        return Err(LOAD_ERROR + NotMap(yamlData));
      }
      var service := CastMap(MapGet(yamlData, "service"));
      if service.Err? {
        return Err(LOAD_ERROR + service.message);
      }
      serviceMetadata := service.value;
      if serviceMetadata.None? {
        return Err(SERVICE_NOT_FOUND);
      }
      var configured := CastStr(Get(serviceMetadata.value, "id"));
      if configured.Err? {
        return Err(LOAD_ERROR + configured.message);
      }
      if configured.value != Some(serviceId) {
        return Err(ID_MISMATCH + serviceId + ", Found: " + StringOf(configured.value));
      }
      var mappings := CastMap(MapGet(yamlData, "formMappings"));
      if mappings.Err? {
        return Err(LOAD_ERROR + mappings.message);
      }
      formMappings := mappings.value;
      if formMappings.None? {
        return Err(MAPPINGS_NOT_FOUND);
      }
      formStructureData := StructureOrEmpty(formStructure);
      r := Ok(());
    }

    /** `getFormMappings`: the mappings, or an empty mapping before a load. */
    function FormMappings(): Entries
      reads this
    {
      if formMappings.Some? then formMappings.value else []
    }

    /** `getServiceMetadata`: the service block, or an empty mapping before a load. */
    function ServiceMetadata(): Entries
      reads this
    {
      if serviceMetadata.Some? then serviceMetadata.value else []
    }

    /**
     * `getFieldMappings`: the `fields` list of a section of the mappings;
     * empty before a load, for a section that is not there, or when its
     * `fields` is not a list.
     */
    function FieldMappings(sectionName: string): (r: Result<seq<Value>>)
      reads this
      ensures r.Err? <==> formMappings.Some? && CastMap(Get(formMappings.value, sectionName)).Err?
      ensures r.Ok? && r.value != [] ==>
        formMappings.Some? && Get(formMappings.value, sectionName).Dict? &&
        MapGet(Get(formMappings.value, sectionName), "fields") == List(r.value)
    {
      if formMappings.None? then Ok([])
      else
        var section := CastMap(Get(formMappings.value, sectionName));
        if section.Err? then Err(section.message)
        else if section.value.None? then Ok([])
        else
          var fields := Get(section.value.value, "fields");
          if fields.List? then Ok(fields.items) else Ok([])
    }

    /**
     * `getValueMapping`: the value map of the first field for `jogetField`
     * that has one, with keys and values turned into strings; None when no
     * field has one.
     */
    function ValueMapping(jogetField: string): (r: Result<Option<map<string, string>>>)
      reads this
    {
      if formMappings.None? then Err(NULL_POINTER)
      else
        var found := FindField(formMappings.value, jogetField, true);
        if found.Err? then Err(found.message)
        else if found.value.None? then Ok(None)
        else Ok(Some(StringMap(MapGet(found.value.value, "valueMapping").entries)))
    }

    /** `getTransformation`: the `transform` of the first field for `jogetField`, or None. */
    function Transformation(jogetField: string): (r: Result<Option<string>>)
      reads this
    {
      if formMappings.None? then Err(NULL_POINTER)
      else
        var found := FindField(formMappings.value, jogetField, false);
        if found.Err? then Err(found.message)
        else if found.value.None? then Ok(None)
        else CastStr(MapGet(found.value.value, "transform"))
    }

    /** `getFormId`: the service's `formId` when it has the key, else the service id. */
    function FormId(): (r: Result<Option<string>>)
      reads this
    {
      if serviceMetadata.Some? && Has(serviceMetadata.value, "formId") then CastStr(Get(serviceMetadata.value, "formId"))
      else Ok(serviceId)
    }

    /** `getServiceConfig`: the service's `serviceConfig` mapping, or None. */
    function ServiceConfig(): (r: Result<Option<Entries>>)
      reads this
    {
      if serviceMetadata.Some? && Has(serviceMetadata.value, "serviceConfig") then
        CastMap(Get(serviceMetadata.value, "serviceConfig"))
      else Ok(None)
    }

    /** A `serviceConfig` key that has no default: its absence is a ConfigurationException. */
    function RequiredConfig(key: string): (r: Result<Option<string>>)
      reads this
    {
      var config := ServiceConfig();
      if config.Err? then Err(config.message)
      else if config.value.Some? && Has(config.value.value, key) then CastStr(Get(config.value.value, key))
      else Err(MissingConfig(key) + StringOf(serviceId))
    }

    /** `getParentFormId`. */
    function ParentFormId(): (r: Result<Option<string>>)
      reads this
    {
      RequiredConfig("parentFormId")
    }

    /** `getParentTableName`. */
    function ParentTableName(): (r: Result<Option<string>>)
      reads this
    {
      RequiredConfig("parentTableName")
    }

    /** `getUuidReferenceField`: a section's `uuidReferenceField`, or None. */
    function UuidReferenceField(sectionName: string): (r: Result<Option<string>>)
      reads this
    {
      var mappings := FormMappings();
      if !Has(mappings, sectionName) then Ok(None)
      else
        var section := CastMap(Get(mappings, sectionName));
        if section.Err? then Err(section.message)
        else if section.value.None? || !Has(section.value.value, "uuidReferenceField") then Ok(None)
        else CastStr(Get(section.value.value, "uuidReferenceField"))
    }

    /**
     * `getFormStructureData`: the structure's `forms`, an empty mapping when
     * nothing is loaded or the key is absent; a `forms` key holding null
     * gives null.
     */
    function FormStructureData(): (r: Result<Option<Entries>>)
      reads this
    {
      if formStructureData.None? || !Has(formStructureData.value, "forms") then Ok(Some([]))
      else CastMap(Get(formStructureData.value, "forms"))
    }

    /** `getFormStructure`: one form of the structure, or None. */
    function FormStructure(formName: string): (r: Result<Option<Entries>>)
      reads this
    {
      var forms := FormStructureData();
      if forms.Err? then Err(forms.message)
      else if forms.value.None? then Err(NULL_POINTER)
      else CastMap(Get(forms.value.value, formName))
    }

    /** `getTableName`: a form's `table_name`, or None when the form is not there. */
    function TableName(formName: string): (r: Result<Option<string>>)
      reads this
    {
      var structure := FormStructure(formName);
      if structure.Err? then Err(structure.message)
      else if structure.value.None? then Ok(None)
      else CastStr(Get(structure.value.value, "table_name"))
    }

    /** `getDefaultGridParentColumn`: `serviceConfig.defaults.gridParentColumn`, None at any missing level. */
    function DefaultGridParentColumn(): (r: Result<Option<string>>)
      reads this
    {
      if serviceMetadata.None? then Ok(None)
      else
        var config := CastMap(Get(serviceMetadata.value, "serviceConfig"));
        if config.Err? then Err(config.message)
        else if config.value.None? then Ok(None)
        else
          var defaults := CastMap(Get(config.value.value, "defaults"));
          if defaults.Err? then Err(defaults.message)
          else if defaults.value.None? then Ok(None)
          else CastStr(Get(defaults.value.value, "gridParentColumn"))
    }

    /**
     * `getForeignKeyColumn`: the section's mapping first, then the form
     * structure, then a non-empty configured default; with none of them it
     * throws.
     */
    function ForeignKeyColumn(sectionName: string): (r: Result<string>)
      reads this
    {
      var section := CastMap(Get(FormMappings(), sectionName));
      if section.Err? then Err(section.message)
      else
        var fromSection := if section.value.Some? then ParentColumn(section.value.value, "parentKey", "parentField") else Ok(None);
        if fromSection.Err? then Err(fromSection.message)
        else if fromSection.value.Some? then Ok(fromSection.value.value)
        else
          var structure := FormStructure(sectionName);
          if structure.Err? then Err(structure.message)
          else
            var fromStructure :=
              if structure.value.Some? then ParentColumn(structure.value.value, "parent_key", "parentField") else Ok(None);
            if fromStructure.Err? then Err(fromStructure.message)
            else if fromStructure.value.Some? then Ok(fromStructure.value.value)
            else
              var default := DefaultGridParentColumn();
              if default.Err? then Err(default.message)
              else if default.value.Some? && default.value.value != [] then Ok(default.value.value)
              else Err(MissingForeignKey(sectionName))
    }

    /**
     * `getFormStructureFields`: a form's `all_fields` when that is a list,
     * else its sections' field lists one after the other.
     */
    function StructureFields(formName: string): (r: Result<seq<Value>>)
      reads this
    {
      var structure := FormStructure(formName);
      if structure.Err? then Err(structure.message)
      else if structure.value.None? then Ok([])
      else
        var allFields := Get(structure.value.value, "all_fields");
        if allFields.List? then Ok(allFields.items)
        else
          var sections := Get(structure.value.value, "sections");
          Ok(if sections.List? then SectionsFields(sections.items) else [])
    }

    /** The loop of `getFormStructureFields`. */
    method GetFormStructureFields(formName: string) returns (r: Result<seq<Value>>)
      ensures r == StructureFields(formName)
    {
      var structure := FormStructure(formName);
      if structure.Err? {
        return Err(structure.message);
      }
      if structure.value.None? {
        return Ok([]);
      }
      var allFields := Get(structure.value.value, "all_fields");
      if allFields.List? {
        return Ok(allFields.items);
      }
      var fields: seq<Value> := [];
      var sections := Get(structure.value.value, "sections");
      if sections.List? {
        var i := 0;
        while i < |sections.items|
          invariant 0 <= i <= |sections.items|
          invariant fields == SectionsFields(sections.items[..i])
        {
          assert sections.items[..i + 1][..i] == sections.items[..i];
          fields := fields + FieldsOfSection(sections.items[i]);
          i := i + 1;
        }
        assert sections.items[..i] == sections.items;
      }
      r := Ok(fields);
    }

    /**
     * `getMergedFieldMappings`: each structure field of the form, in order,
     * merged with the form's mapping field of the same name.
     */
    function MergedFieldMappings(formName: string): (r: Result<seq<Value>>)
      reads this
    {
      var structureFields := StructureFields(formName);
      if structureFields.Err? then Err(structureFields.message)
      else
        var serviceFields := FieldMappings(formName);
        if serviceFields.Err? then Err(serviceFields.message)
        else
          var lookup := ServiceFieldMap(serviceFields.value, map[]);
          if lookup.Err? then Err(lookup.message)
          else MergeAll(structureFields.value, lookup.value, [])
    }

    /** The two loops of `getMergedFieldMappings`. */
    method GetMergedFieldMappings(formName: string) returns (r: Result<seq<Value>>)
      ensures r == MergedFieldMappings(formName)
    {
      var structureFields := GetFormStructureFields(formName);
      if structureFields.Err? {
        return Err(structureFields.message);
      }
      var serviceFields := FieldMappings(formName);
      if serviceFields.Err? {
        return Err(serviceFields.message);
      }
      var fields := serviceFields.value;
      var serviceFieldMap: map<string, Value> := map[];
      var i := 0;
      while i < |fields|
        invariant 0 <= i <= |fields|
        invariant ServiceFieldMap(fields[i..], serviceFieldMap) == ServiceFieldMap(fields, map[])
      {
        assert fields[i..][0] == fields[i] && fields[i..][1..] == fields[i + 1..];
        var serviceField := fields[i];
        if !serviceField.Dict? {
          return Err(NotMap(serviceField));
        }
        var jogetName := CastStr(MapGet(serviceField, "joget"));
        if jogetName.Err? {
          return Err(jogetName.message);
        }
        if jogetName.value.Some? {
          serviceFieldMap := serviceFieldMap[jogetName.value.value := serviceField];
        }
        i := i + 1;
      }
      assert fields[i..] == [];
      var structure := structureFields.value;
      var mergedFields: seq<Value> := [];
      var j := 0;
      while j < |structure|
        invariant 0 <= j <= |structure|
        invariant MergeAll(structure[j..], serviceFieldMap, mergedFields) == MergeAll(structure, serviceFieldMap, [])
      {
        assert structure[j..][0] == structure[j] && structure[j..][1..] == structure[j + 1..];
        var merged := Merge(structure[j], serviceFieldMap);
        if merged.Err? {
          return Err(merged.message);
        }
        mergedFields := mergedFields + [merged.value];
        j := j + 1;
      }
      assert structure[j..] == [];
      r := Ok(mergedFields);
    }

    /**
     * The body of `getGridForeignKeyColumn` inside its try block: the grid's
     * foreign key looked up among the fields of its sub-form (`sub_form_id`,
     * else the given form id).
     */
    function GridColumn(gridName: string, formId: Option<string>): (r: Result<Option<string>>)
      reads this
    {
      var forms := FormStructureData();
      if forms.Err? then Err(forms.message)
      else if forms.value.None? then Err(NULL_POINTER)
      else
        var located := LocateGrid(forms.value.value, gridName);
        if located.Err? then Err(located.message)
        else if located.value.None? then Ok(None)
        else
          var key := if located.value.value.1.Some? then located.value.value.1 else formId;
          if key.None? then Ok(None)
          else
            var subForm := FormStructure(key.value);
            if subForm.Err? then Err(subForm.message)
            else if subForm.value.None? then Ok(None)
            else
              var fields := StructureFields(key.value);
              if fields.Err? then Err(fields.message)
              else ColumnOf(fields.value, located.value.value.0)
    }

    /** `getGridForeignKeyColumn`: any exception is caught and gives null. */
    function GridForeignKeyColumn(gridName: string, formId: Option<string>): (r: Option<string>)
      reads this
      ensures r.Some? ==> GridColumn(gridName, formId) == Ok(r)
      ensures GridColumn(gridName, formId).Err? ==> r.None?
    {
      var column := GridColumn(gridName, formId);
      if column.Ok? then column.value else None
    }
  }

  // ---- properties: loading ----

  /** The three ConfigurationExceptions of a load, and their messages. */
  lemma LoadFailures(serviceId: string, yamlData: Value)
    requires yamlData.Dict?
    ensures MapGet(yamlData, "service").Null? ==> CheckLoad(serviceId, yamlData) == Err(SERVICE_NOT_FOUND)
    ensures (MapGet(yamlData, "service").Dict? && MapGet(MapGet(yamlData, "service"), "id").Str? &&
      MapGet(MapGet(yamlData, "service"), "id").s != serviceId) ==>
      CheckLoad(serviceId, yamlData) ==
        Err(ID_MISMATCH + serviceId + ", Found: " + MapGet(MapGet(yamlData, "service"), "id").s)
    ensures MapGet(yamlData, "service").Dict? && MapGet(MapGet(yamlData, "service"), "id").Null? ==>
      CheckLoad(serviceId, yamlData) == Err(ID_MISMATCH + serviceId + ", Found: null")
    ensures ReachesMappings(serviceId, yamlData) && MapGet(yamlData, "formMappings").Null? ==>
      CheckLoad(serviceId, yamlData) == Err(MAPPINGS_NOT_FOUND)
  {
  }

  /**
   * After a load, whether the structure file could be read makes no
   * difference to the outcome; an unreadable one leaves every form without
   * structure fields.
   */
  lemma MissingStructureIsEmpty(svc: YamlMetadataService, formName: string)
    requires svc.formStructureData == StructureOrEmpty(None)
    ensures svc.FormStructureData() == Ok(Some([]))
    ensures svc.FormStructure(formName) == Ok(None)
    ensures svc.StructureFields(formName) == Ok([])
    ensures svc.TableName(formName) == Ok(None)
    ensures svc.GridForeignKeyColumn(formName, Some(formName)) == None
  {
    assert !Has(svc.formStructureData.value, "forms");
  }

  // ---- properties: configuration ----

  /** `getFormId` falls back to the service id; `getParentFormId` and `getParentTableName` have no default. */
  lemma RequiredKeys(svc: YamlMetadataService)
    ensures svc.serviceMetadata.None? || !Has(svc.serviceMetadata.value, "formId") ==> svc.FormId() == Ok(svc.serviceId)
    ensures svc.ServiceConfig() == Ok(None) ==>
      svc.ParentFormId() == Err(MissingConfig("parentFormId") + StringOf(svc.serviceId)) &&
      svc.ParentTableName() == Err(MissingConfig("parentTableName") + StringOf(svc.serviceId))
    ensures svc.ParentFormId().Ok? ==>
      svc.ServiceConfig().Ok? && svc.ServiceConfig().value.Some? && Has(svc.ServiceConfig().value.value, "parentFormId")
    ensures svc.ParentTableName().Ok? ==>
      svc.ServiceConfig().Ok? && svc.ServiceConfig().value.Some? && Has(svc.ServiceConfig().value.value, "parentTableName")
  {
  }

  /** A configured parent form id is returned as it stands. */
  lemma ParentFormIdConfigured(svc: YamlMetadataService, config: Entries, id: string)
    requires svc.ServiceConfig() == Ok(Some(config))
    requires Get(config, "parentFormId") == Str(id)
    ensures svc.ParentFormId() == Ok(Some(id))
  {
    MapGetEntry(Dict(config), "parentFormId");
    assert Has(config, "parentFormId");
  }

  /** A service loaded with a `formId` reports it; one loaded without reports the id it was loaded for. */
  lemma FormIdAfterLoad(svc: YamlMetadataService, serviceId: string, yamlData: Value)
    requires CheckLoad(serviceId, yamlData).Ok?
    requires svc.serviceId == Some(serviceId) && svc.serviceMetadata == Some(CheckLoad(serviceId, yamlData).value.0)
    ensures !ContainsKey(MapGet(yamlData, "service"), "formId") ==> svc.FormId() == Ok(Some(serviceId))
    ensures MapGet(MapGet(yamlData, "service"), "formId").Str? ==>
      svc.FormId() == Ok(Some(MapGet(MapGet(yamlData, "service"), "formId").s))
  {
    var service := MapGet(yamlData, "service");
    assert service.Dict? && Dict(service.entries) == service;
    if MapGet(service, "formId").Str? {
      MapGetEntry(service, "formId");
      var i :| 0 <= i < |service.entries| && service.entries[i] == ("formId", MapGet(service, "formId"));
      assert Has(svc.serviceMetadata.value, "formId");
    }
  }

  // ---- properties: the foreign key column ----

  /** Prefixing a column is idempotent: a name already prefixed is kept, any other gains exactly `c_`. */
  lemma ColumnPrefixIdempotent(field: string)
    ensures WithColumnPrefix(WithColumnPrefix(field)) == WithColumnPrefix(field)
    ensures !StartsWith(field, COLUMN_PREFIX) ==> WithColumnPrefix(field) == COLUMN_PREFIX + field
  {
  }

  /** The first tier: a section `parentKey` is the column; else its `parentField`, prefixed. */
  lemma ForeignKeyFromSection(svc: YamlMetadataService, sectionName: string, section: Entries)
    requires Get(svc.FormMappings(), sectionName) == Dict(section)
    ensures Get(section, "parentKey").Str? ==> svc.ForeignKeyColumn(sectionName) == Ok(Get(section, "parentKey").s)
    ensures Get(section, "parentKey").Null? && Get(section, "parentField").Str? ==>
      svc.ForeignKeyColumn(sectionName) == Ok(WithColumnPrefix(Get(section, "parentField").s))
  {
  }

  /** The second tier: without a section entry, the structure's `parent_key`, then its `parentField`. */
  lemma ForeignKeyFromStructure(svc: YamlMetadataService, sectionName: string, form: Entries)
    requires Get(svc.FormMappings(), sectionName).Null?
    requires svc.FormStructure(sectionName) == Ok(Some(form))
    ensures Get(form, "parent_key").Str? ==> svc.ForeignKeyColumn(sectionName) == Ok(Get(form, "parent_key").s)
    ensures Get(form, "parent_key").Null? && Get(form, "parentField").Str? ==>
      svc.ForeignKeyColumn(sectionName) == Ok(WithColumnPrefix(Get(form, "parentField").s))
  {
  }

  /** The last tiers: with nothing configured, a non-empty default, else the ConfigurationException. */
  lemma ForeignKeyDefault(svc: YamlMetadataService, sectionName: string)
    requires Get(svc.FormMappings(), sectionName).Null?
    requires svc.FormStructure(sectionName) == Ok(None)
    ensures svc.DefaultGridParentColumn() == Ok(None) ==> svc.ForeignKeyColumn(sectionName) == Err(MissingForeignKey(sectionName))
    ensures svc.DefaultGridParentColumn() == Ok(Some("")) ==> svc.ForeignKeyColumn(sectionName) == Err(MissingForeignKey(sectionName))
    ensures forall c :: svc.DefaultGridParentColumn() == Ok(Some(c)) && c != "" ==> svc.ForeignKeyColumn(sectionName) == Ok(c)
  {
    var d := svc.DefaultGridParentColumn();
    assert svc.ForeignKeyColumn(sectionName) ==
      if d.Err? then Err(d.message)
      else if d.value.Some? && d.value.value != [] then Ok(d.value.value)
      else Err(MissingForeignKey(sectionName))
    by {
      assert CastMap(Get(svc.FormMappings(), sectionName)) == Ok(None);
    }
  }

  /** Whatever tier answers, a column found from a parent field carries the `c_` prefix. */
  lemma ParentFieldColumnPrefixed(config: Entries, keyName: string, fieldName: string)
    requires Get(config, keyName).Null?
    ensures ParentColumn(config, keyName, fieldName).Ok? && ParentColumn(config, keyName, fieldName).value.Some? ==>
      StartsWith(ParentColumn(config, keyName, fieldName).value.value, COLUMN_PREFIX)
  {
  }

  // ---- properties: structure fields ----

  lemma SectionsFieldsLast(sections: seq<Value>)
    requires sections != []
    ensures SectionsFields(sections) == SectionsFields(sections[..|sections| - 1]) + FieldsOfSection(sections[|sections| - 1])
  {
  }

  lemma SectionsFieldsAppend(a: seq<Value>, b: seq<Value>)
    ensures SectionsFields(a + b) == SectionsFields(a) + SectionsFields(b)
  {
    var la, lb := SectionLists(a), SectionLists(b);
    assert SectionsFields(a + b) == Concat(la + lb) by {
      SectionsFieldsConcat(a + b);
      SectionListsAppend(a, b);
    }
    assert SectionsFields(a) == Concat(la) && SectionsFields(b) == Concat(lb) by {
      SectionsFieldsConcat(a);
      SectionsFieldsConcat(b);
    }
    ConcatAppend(la, lb);
  }

  lemma SectionListsAppend(a: seq<Value>, b: seq<Value>)
    ensures SectionLists(a + b) == SectionLists(a) + SectionLists(b)
  {
    var l, la, lb := SectionLists(a + b), SectionLists(a), SectionLists(b);
    forall i | 0 <= i < |l| ensures l[i] == (la + lb)[i] {
      if i < |a| {
        assert (a + b)[i] == a[i];
      } else {
        assert (a + b)[i] == b[i - |a|];
      }
    }
  }

  lemma {:induction false} ConcatAppend<T>(x: seq<seq<T>>, y: seq<seq<T>>)
    ensures Concat(x + y) == Concat(x) + Concat(y)
    decreases |y|
  {
    if y == [] {
      assert x + y == x;
    } else {
      var y' := y[..|y| - 1];
      assert (x + y)[..|x + y| - 1] == x + y';
      assert (x + y)[|x + y| - 1] == y[|y| - 1];
      ConcatAppend(x, y');
    }
  }

  /** Some section among `sections` that is a mapping lists `f`. */
  predicate InSomeSection(sections: seq<Value>, f: Value)
  {
    exists i :: 0 <= i < |sections| && f in FieldsOfSection(sections[i])
  }

  /** The lists joined in order. */
  function Concat<T>(lists: seq<seq<T>>): seq<T>
  {
    if lists == [] then [] else Concat(lists[..|lists| - 1]) + lists[|lists| - 1]
  }

  lemma {:induction false} ConcatMembers<T>(lists: seq<seq<T>>, x: T)
    ensures x in Concat(lists) <==> exists i :: 0 <= i < |lists| && x in lists[i]
    decreases |lists|
  {
    if lists != [] {
      var init := lists[..|lists| - 1];
      ConcatMembers(init, x);
      if x in Concat(lists) && x !in lists[|lists| - 1] {
        var i :| 0 <= i < |init| && x in init[i];
        assert lists[i] == init[i];
      }
      if exists i :: 0 <= i < |lists| && x in lists[i] {
        var i :| 0 <= i < |lists| && x in lists[i];
        if i < |init| {
          assert init[i] == lists[i];
        }
      }
    }
  }

  /** Each section's field list, in order. */
  function SectionLists(sections: seq<Value>): (r: seq<seq<Value>>)
    ensures |r| == |sections|
    ensures forall i :: 0 <= i < |sections| ==> r[i] == FieldsOfSection(sections[i])
  {
    seq(|sections|, i requires 0 <= i < |sections| => FieldsOfSection(sections[i]))
  }

  lemma {:induction false} SectionsFieldsConcat(sections: seq<Value>)
    ensures SectionsFields(sections) == Concat(SectionLists(sections))
    decreases |sections|
  {
    if sections != [] {
      var init := sections[..|sections| - 1];
      SectionsFieldsConcat(init);
      assert SectionLists(sections)[..|sections| - 1] == SectionLists(init);
      SectionsFieldsLast(sections);
    }
  }

  /** A field is in the concatenation exactly when some section that is a mapping lists it. */
  lemma SectionsFieldsMembers(sections: seq<Value>, f: Value)
    ensures f in SectionsFields(sections) <==> InSomeSection(sections, f)
  {
    var lists := SectionLists(sections);
    SectionsFieldsConcat(sections);
    ConcatMembers(lists, f);
    assert InSomeSection(sections, f) <==> exists i :: 0 <= i < |lists| && f in lists[i] by {
      if InSomeSection(sections, f) {
        var i :| 0 <= i < |sections| && f in FieldsOfSection(sections[i]);
        assert f in lists[i];
      }
    }
  }

  /** `all_fields` wins when it is a list; otherwise every section's field list is there, in order. */
  lemma StructureFieldsSources(svc: YamlMetadataService, formName: string, form: Entries)
    requires svc.FormStructure(formName) == Ok(Some(form))
    ensures Get(form, "all_fields").List? ==> svc.StructureFields(formName) == Ok(Get(form, "all_fields").items)
    ensures !Get(form, "all_fields").List? && Get(form, "sections").List? ==>
      svc.StructureFields(formName) == Ok(SectionsFields(Get(form, "sections").items))
    ensures !Get(form, "all_fields").List? && !Get(form, "sections").List? ==> svc.StructureFields(formName) == Ok([])
  {
  }

  /** With two sections, their field lists one after the other. */
  lemma TwoSections(s1: Value, s2: Value)
    ensures SectionsFields([s1, s2]) == FieldsOfSection(s1) + FieldsOfSection(s2)
  {
    assert SectionsFields([s1]) == FieldsOfSection(s1) by {
      assert [s1][..0] == [];
    }
    assert [s1, s2][..1] == [s1];
  }

  // ---- properties: merging ----

  /** `put` replaces: putting a key twice keeps the second value. */
  lemma {:induction false} PutPut(m: Entries, key: string, v1: Value, v2: Value)
    ensures Put(Put(m, key, v1), key, v2) == Put(m, key, v2)
  {
    if m != [] {
      PutPut(m[1..], key, v1, v2);
      if m[0].0 != key {
        assert Put(m, key, v1)[1..] == Put(m[1..], key, v1);
      }
    }
  }

  /** The merge loop gives one merged field per structure field, in order. */
  lemma {:induction false} MergeAllOnePerField(fields: seq<Value>, serviceFields: map<string, Value>, acc: seq<Value>)
    requires MergeAll(fields, serviceFields, acc).Ok?
    ensures |MergeAll(fields, serviceFields, acc).value| == |acc| + |fields|
    ensures MergeAll(fields, serviceFields, acc).value[..|acc|] == acc
    ensures forall k :: 0 <= k < |fields| ==>
      Ok(MergeAll(fields, serviceFields, acc).value[|acc| + k]) == Merge(fields[k], serviceFields)
    decreases |fields|
  {
    if fields != [] {
      var head := Merge(fields[0], serviceFields);
      var merged, tail, acc' := head.value, fields[1..], acc + [head.value];
      var r := MergeAll(fields, serviceFields, acc).value;
      assert r == MergeAll(tail, serviceFields, acc').value;
      MergeAllOnePerField(tail, serviceFields, acc');
      assert r[..|acc|] == acc by {
        assert r[..|acc'|][..|acc|] == r[..|acc|];
      }
      forall k | 0 <= k < |fields| ensures Ok(r[|acc| + k]) == Merge(fields[k], serviceFields) {
        if k == 0 {
          assert r[|acc|] == acc'[|acc|];
        } else {
          assert tail[k - 1] == fields[k];
          assert |acc'| + (k - 1) == |acc| + k;
        }
      }
    }
  }

  /** A merged field not named by any mapping is the structure field itself. */
  lemma MergeUnmapped(field: Value, serviceFields: map<string, Value>)
    requires field.Dict? && CastStr(MapGet(field, "field_id")).Ok?
    requires MapGet(field, "field_id").Null? || MapGet(field, "field_id").s !in serviceFields
    ensures Merge(field, serviceFields) == Ok(field)
  {
  }

  /**
   * A merged field named by a mapping takes that mapping's five keys and
   * keeps all its other keys.
   */
  lemma MergeMapped(field: Value, serviceFields: map<string, Value>, id: string)
    requires field.Dict? && MapGet(field, "field_id") == Str(id) && id in serviceFields
    ensures Merge(field, serviceFields) == Ok(Dict(Enrich(field.entries, serviceFields[id])))
    ensures forall k :: k in ENRICHED ==> Get(Enrich(field.entries, serviceFields[id]), k) == MapGet(serviceFields[id], k)
    ensures forall k :: k !in ENRICHED ==> Get(Enrich(field.entries, serviceFields[id]), k) == MapGet(field, k)
  {
    assert Dict(field.entries) == field;
    forall k ensures Get(Enrich(field.entries, serviceFields[id]), k) ==
      if k in ENRICHED then MapGet(serviceFields[id], k) else Get(field.entries, k)
    {
      EnrichGet(field.entries, serviceFields[id], k);
    }
  }

  /** `put` leaves every other key as it was. */
  lemma {:induction false} PutOther(m: Entries, key: string, v: Value, k: string)
    requires k != key
    ensures Get(Put(m, key, v), k) == Get(m, k)
  {
    if m == [] {
      var r: Entries := [(key, v)];
      assert Put(m, key, v) == r && r[1..] == [];
      assert Get(r, k) == Get(r[1..], k);
    } else {
      PutOther(m[1..], key, v, k);
      if m[0].0 != k {
        assert Get(m, k) == Get(m[1..], k);
      }
      if m[0].0 != key {
        var r := Put(m, key, v);
        assert r[0] == m[0] && r[1..] == Put(m[1..], key, v);
        if m[0].0 != k {
          assert Get(r, k) == Get(r[1..], k);
        }
      }
    }
  }

  lemma EnrichGet(m: Entries, serviceField: Value, k: string)
    ensures Get(Enrich(m, serviceField), k) == if k in ENRICHED then MapGet(serviceField, k) else Get(m, k)
  {
    assert k in ENRICHED <==>
      k == "govstack" || k == "transform" || k == "valueMapping" || k == "govstackType" || k == "typeValue";
    var m1 := Put(m, "govstack", MapGet(serviceField, "govstack"));
    var m2 := Put(m1, "transform", MapGet(serviceField, "transform"));
    var m3 := Put(m2, "valueMapping", MapGet(serviceField, "valueMapping"));
    var m4 := Put(m3, "govstackType", MapGet(serviceField, "govstackType"));
    var m5 := Put(m4, "typeValue", MapGet(serviceField, "typeValue"));
    assert Enrich(m, serviceField) == m5;
    if k == "typeValue" {
    } else {
      PutOther(m4, "typeValue", MapGet(serviceField, "typeValue"), k);
      if k == "govstackType" {
      } else {
        PutOther(m3, "govstackType", MapGet(serviceField, "govstackType"), k);
        if k == "valueMapping" {
        } else {
          PutOther(m2, "valueMapping", MapGet(serviceField, "valueMapping"), k);
          if k == "transform" {
          } else {
            PutOther(m1, "transform", MapGet(serviceField, "transform"), k);
            if k != "govstack" {
              PutOther(m, "govstack", MapGet(serviceField, "govstack"), k);
            }
          }
        }
      }
    }
  }

  /**
   * When several mapping fields share a `joget`, the lookup holds the last
   * of them.
   */
  lemma {:induction false} LastMappingWins(fields: seq<Value>, acc: map<string, Value>, k: nat, joget: string)
    requires ServiceFieldMap(fields, acc).Ok?
    requires k < |fields| && MapGet(fields[k], "joget") == Str(joget)
    requires forall k' :: k < k' < |fields| ==> MapGet(fields[k'], "joget") != Str(joget)
    ensures joget in ServiceFieldMap(fields, acc).value && ServiceFieldMap(fields, acc).value[joget] == fields[k]
    decreases |fields|
  {
    var joget0 := CastStr(MapGet(fields[0], "joget"));
    var acc' := if joget0.value.Some? then acc[joget0.value.value := fields[0]] else acc;
    if k == 0 {
      KeptUntilReplaced(fields[1..], acc', joget);
    } else {
      forall k' | k - 1 < k' < |fields[1..]| ensures MapGet(fields[1..][k'], "joget") != Str(joget) {
        assert fields[1..][k'] == fields[k' + 1];
      }
      LastMappingWins(fields[1..], acc', k - 1, joget);
    }
  }

  /** A key no later mapping field names keeps the field it had. */
  lemma {:induction false} KeptUntilReplaced(fields: seq<Value>, acc: map<string, Value>, joget: string)
    requires ServiceFieldMap(fields, acc).Ok? && joget in acc
    requires forall k :: 0 <= k < |fields| ==> MapGet(fields[k], "joget") != Str(joget)
    ensures joget in ServiceFieldMap(fields, acc).value && ServiceFieldMap(fields, acc).value[joget] == acc[joget]
    decreases |fields|
  {
    if fields != [] {
      var joget0 := CastStr(MapGet(fields[0], "joget"));
      var acc' := if joget0.value.Some? then acc[joget0.value.value := fields[0]] else acc;
      assert joget in acc' && acc'[joget] == acc[joget];
      forall k | 0 <= k < |fields[1..]| ensures MapGet(fields[1..][k], "joget") != Str(joget) {
        assert fields[1..][k] == fields[k + 1];
      }
      KeptUntilReplaced(fields[1..], acc', joget);
    }
  }

  /**
   * `getMergedFieldMappings` has exactly one entry per structure field, in
   * the same order, each the merge of that field.
   */
  lemma MergedOnePerField(svc: YamlMetadataService, formName: string)
    requires svc.MergedFieldMappings(formName).Ok?
    ensures svc.StructureFields(formName).Ok? && svc.FieldMappings(formName).Ok?
    ensures ServiceFieldMap(svc.FieldMappings(formName).value, map[]).Ok?
    ensures |svc.MergedFieldMappings(formName).value| == |svc.StructureFields(formName).value|
    ensures forall k :: 0 <= k < |svc.StructureFields(formName).value| ==>
      Ok(svc.MergedFieldMappings(formName).value[k]) ==
        Merge(svc.StructureFields(formName).value[k], ServiceFieldMap(svc.FieldMappings(formName).value, map[]).value)
  {
    var fields := svc.StructureFields(formName).value;
    var lookup := ServiceFieldMap(svc.FieldMappings(formName).value, map[]).value;
    var merged := MergeAll(fields, lookup, []);
    assert svc.MergedFieldMappings(formName) == merged;
    MergeAllOnePerField(fields, lookup, []);
    forall k | 0 <= k < |fields|
      ensures Ok(merged.value[k]) == Merge(fields[k], lookup)
    {
      assert merged.value[0 + k] == merged.value[k];
    }
  }

  // ---- properties: the first field for a joget ----

  lemma {:induction false} FindInFieldsIsFirst(fields: seq<Value>, jogetField: string, needMap: bool)
    requires AllMaps(fields)
    ensures FindInFields(fields, jogetField, needMap) ==
      if FirstMatch(fields, jogetField, needMap).Some? then Ok(Some(fields[FirstMatch(fields, jogetField, needMap).value]))
      else Ok(None)
    decreases |fields|
  {
    if fields != [] && !Matches(fields[0], jogetField, needMap) {
      assert AllMaps(fields[1..]) by {
        forall k | 0 <= k < |fields[1..]| ensures fields[1..][k].Dict? {
          assert fields[1..][k] == fields[k + 1];
        }
      }
      FindInFieldsIsFirst(fields[1..], jogetField, needMap);
    }
  }

  lemma {:induction false} FirstMatchAppend(a: seq<Value>, b: seq<Value>, jogetField: string, needMap: bool)
    ensures FirstMatch(a + b, jogetField, needMap) ==
      if FirstMatch(a, jogetField, needMap).Some? then FirstMatch(a, jogetField, needMap)
      else if FirstMatch(b, jogetField, needMap).Some? then Some(|a| + FirstMatch(b, jogetField, needMap).value)
      else None
    decreases |a|
  {
    if a == [] {
      assert a + b == b;
    } else {
      assert (a + b)[1..] == a[1..] + b;
      assert (a + b)[0] == a[0];
      FirstMatchAppend(a[1..], b, jogetField, needMap);
    }
  }

  /**
   * When every section reads cleanly and every field is a mapping, the
   * search finds the first field, across all sections in order, that
   * matches.
   */
  lemma {:induction false} FindFieldIsFirst(sections: Entries, jogetField: string, needMap: bool)
    requires AllSectionFields(sections).Ok? && AllMaps(AllSectionFields(sections).value)
    ensures FindField(sections, jogetField, needMap) ==
      if FirstMatch(AllSectionFields(sections).value, jogetField, needMap).Some? then
        Ok(Some(AllSectionFields(sections).value[FirstMatch(AllSectionFields(sections).value, jogetField, needMap).value]))
      else Ok(None)
    decreases |sections|
  {
    if sections != [] {
      var fields := SectionFields(sections[0].1).value;
      var rest := AllSectionFields(sections[1..]).value;
      var all := AllSectionFields(sections).value;
      assert all == fields + rest;
      assert AllMaps(fields) by {
        forall k | 0 <= k < |fields| ensures fields[k].Dict? {
          assert all[k] == fields[k];
        }
      }
      assert AllMaps(rest) by {
        forall k | 0 <= k < |rest| ensures rest[k].Dict? {
          assert all[|fields| + k] == rest[k];
        }
      }
      FindInFieldsIsFirst(fields, jogetField, needMap);
      FirstMatchAppend(fields, rest, jogetField, needMap);
      if FirstMatch(fields, jogetField, needMap).None? {
        FindFieldIsFirst(sections[1..], jogetField, needMap);
        var m := FirstMatch(rest, jogetField, needMap);
        if m.Some? {
          assert all[|fields| + m.value] == rest[m.value];
        }
      } else {
        var m := FirstMatch(fields, jogetField, needMap).value;
        assert all[m] == fields[m];
      }
    }
  }

  /** `getTransformation` answers with the `transform` of the first field for the name. */
  lemma TransformationOfFirst(svc: YamlMetadataService, jogetField: string)
    requires svc.formMappings.Some?
    requires AllSectionFields(svc.formMappings.value).Ok? && AllMaps(AllSectionFields(svc.formMappings.value).value)
    ensures FirstMatch(AllSectionFields(svc.formMappings.value).value, jogetField, false).None? ==>
      svc.Transformation(jogetField) == Ok(None)
    ensures FirstMatch(AllSectionFields(svc.formMappings.value).value, jogetField, false).Some? ==>
      svc.Transformation(jogetField) ==
        CastStr(MapGet(AllSectionFields(svc.formMappings.value).value[
          FirstMatch(AllSectionFields(svc.formMappings.value).value, jogetField, false).value], "transform"))
  {
    FindFieldIsFirst(svc.formMappings.value, jogetField, false);
  }

  /**
   * `getValueMapping` answers with the stringified map of the first field
   * for the name that has one, and None when none has.
   */
  lemma ValueMappingOfFirst(svc: YamlMetadataService, jogetField: string)
    requires svc.formMappings.Some?
    requires AllSectionFields(svc.formMappings.value).Ok? && AllMaps(AllSectionFields(svc.formMappings.value).value)
    ensures FirstMatch(AllSectionFields(svc.formMappings.value).value, jogetField, true).None? ==>
      svc.ValueMapping(jogetField) == Ok(None)
    ensures FirstMatch(AllSectionFields(svc.formMappings.value).value, jogetField, true).Some? ==>
      var field := AllSectionFields(svc.formMappings.value).value[
        FirstMatch(AllSectionFields(svc.formMappings.value).value, jogetField, true).value];
      && MapGet(field, "valueMapping").Dict?
      && svc.ValueMapping(jogetField) == Ok(Some(StringMap(MapGet(field, "valueMapping").entries)))
  {
    FindFieldIsFirst(svc.formMappings.value, jogetField, true);
    FirstMatchIsFirst(AllSectionFields(svc.formMappings.value).value, jogetField, true);
  }

  /** The stringified map keeps the last value given for a key, as `put` does. */
  lemma {:induction false} StringMapLastWins(entries: Entries, i: nat)
    requires i < |entries|
    requires forall j :: i < j < |entries| ==> entries[j].0 != entries[i].0
    ensures StringMap(entries)[entries[i].0] == ToJavaString(entries[i].1)
    decreases |entries|
  {
    var init := entries[..|entries| - 1];
    if i < |entries| - 1 {
      assert init[i] == entries[i];
      StringMapLastWins(init, i);
    }
  }

  // ---- properties: the grid foreign key ----

  /** The column found is that of the first sub-form field whose `field_id` is the foreign key. */
  lemma {:induction false} ColumnOfFirst(fields: seq<Value>, foreignKey: string)
    requires ColumnOf(fields, foreignKey).Ok? && ColumnOf(fields, foreignKey).value.Some?
    ensures exists k :: (0 <= k < |fields| && MapGet(fields[k], "field_id") == Str(foreignKey) &&
      MapGet(fields[k], "column") == Str(ColumnOf(fields, foreignKey).value.value) &&
      forall k' :: 0 <= k' < k ==> MapGet(fields[k'], "field_id") != Str(foreignKey))
    decreases |fields|
  {
    if MapGet(fields[0], "field_id") != Str(foreignKey) {
      ColumnOfFirst(fields[1..], foreignKey);
      var k :| 0 <= k < |fields[1..]| && MapGet(fields[1..][k], "field_id") == Str(foreignKey) &&
        MapGet(fields[1..][k], "column") == Str(ColumnOf(fields, foreignKey).value.value) &&
        forall k' :: 0 <= k' < k ==> MapGet(fields[1..][k'], "field_id") != Str(foreignKey);
      assert fields[k + 1] == fields[1..][k];
      forall k' | 0 <= k' < k + 1 ensures MapGet(fields[k'], "field_id") != Str(foreignKey) {
        if k' > 0 {
          assert fields[k'] == fields[1..][k' - 1];
        }
      }
    }
  }

  /** A grid that no form lists gives null. */
  lemma UnknownGrid(svc: YamlMetadataService, gridName: string, formId: Option<string>, forms: Entries)
    requires svc.FormStructureData() == Ok(Some(forms))
    requires LocateGrid(forms, gridName) == Ok(None)
    ensures svc.GridForeignKeyColumn(gridName, formId) == None
  {
  }

  /**
   * A grid found with a foreign key and a sub-form: the result is the
   * column of the first field of that sub-form whose `field_id` is the key.
   */
  lemma GridColumnFromSubForm(svc: YamlMetadataService, gridName: string, formId: Option<string>, forms: Entries,
                              foreignKey: string, subForm: Option<string>, form: Entries)
    requires svc.FormStructureData() == Ok(Some(forms))
    requires LocateGrid(forms, gridName) == Ok(Some((foreignKey, subForm)))
    requires subForm.Some? || formId.Some?
    requires svc.FormStructure(if subForm.Some? then subForm.value else formId.value) == Ok(Some(form))
    ensures svc.GridForeignKeyColumn(gridName, formId).Some? ==>
      var fields := svc.StructureFields(if subForm.Some? then subForm.value else formId.value);
      fields.Ok? && ColumnOf(fields.value, foreignKey) == Ok(svc.GridForeignKeyColumn(gridName, formId))
  {
  }

  /** A grid found in a form whose grids come first in the structure is the one searched. */
  lemma GridInFirstForm(name: string, form: Entries, rest: Entries, gridName: string, foreignKey: string, subForm: Option<string>)
    requires Get(form, "grids").List?
    requires FindGrid(Get(form, "grids").items, gridName) == Ok(Some((Some(foreignKey), subForm)))
    ensures LocateGrid([(name, Dict(form))] + rest, gridName) == Ok(Some((foreignKey, subForm)))
  {
  }
}
