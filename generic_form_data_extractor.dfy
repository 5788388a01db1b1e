/**
 * GenericFormDataExtractor: assembles one registration record from the
 * form tables by following the metadata. The parent row holds, for each
 * section, the id of that section's row in its own table; grids are rows
 * of their own tables that point back at their parent. The result maps
 * "id" to the record id and each section that yielded data to its fields
 * (or, for a grid, to its rows).
 *
 * The database is a `RowStore`: loading one row by table and id, and
 * finding the rows of a table whose column holds a value. A row is the map
 * of its non-null properties.
 */
module GenericFormDataExtractorModel {
  import opened Wrappers
  import opened JavaValues
  import opened JavaStr
  import opened YamlMetadataServiceModel

  type Row = map<string, string>

  /** `loadByTableNameAndColumnName(table, "id", id)` and `find(table, ..., "WHERE column = ?", value)`. */
  datatype RowStore = RowStore(load: (string, string) -> Option<Row>, find: (string, string, string) -> seq<Row>)

  /** What the result map holds under a key: the record id, a section's fields, or a grid's rows. */
  datatype Item = RecordId(id: string) | Section(fields: map<string, string>) | Grid(rows: seq<map<string, string>>)

  const TABLE_PREFIX: string := "app_fd_"

  /** `FormRow.getProperty`: null when the row has no such property. */
  function Prop(row: Row, key: string): Option<string>
  {
    if key in row then Some(row[key]) else None
  }

  /** A value the extractor keeps: not null and not blank. */
  predicate Present(v: Option<string>)
  {
    v.Some? && !IsBlank(v.value)
  }

  /** A reference in the parent row: the `c_` column first, then the bare name; blank counts as absent. */
  function Reference(row: Row, field: string): (r: Option<string>)
  {
    var uuid := Prop(row, COLUMN_PREFIX + field);
    if Present(uuid) then uuid
    else
      var bare := Prop(row, field);
      if Present(bare) then bare else None
  }

  /** A table name as the form data store expects it: without a leading `app_fd_`. */
  function StripTablePrefix(table: string): (r: string)
    ensures StartsWith(table, TABLE_PREFIX) ==> TABLE_PREFIX + r == table
    ensures !StartsWith(table, TABLE_PREFIX) ==> r == table
  {
    if StartsWith(table, TABLE_PREFIX) then
      assert table == table[..|TABLE_PREFIX|] + table[|TABLE_PREFIX|..];
      table[|TABLE_PREFIX|..]
    else table
  }

  /** A property name without its `c_` prefix. */
  function CleanName(name: string): (r: string)
    ensures StartsWith(name, COLUMN_PREFIX) ==> COLUMN_PREFIX + r == name
    ensures !StartsWith(name, COLUMN_PREFIX) ==> r == name
  {
    if StartsWith(name, COLUMN_PREFIX) then
      assert name == name[..|COLUMN_PREFIX|] + name[|COLUMN_PREFIX|..];
      name[|COLUMN_PREFIX|..]
    else name
  }

  // ---- field extraction ----

  /**
   * The loop of `extractFieldsFromRowUsingStructure`, with what it has
   * gathered in `acc`: each configured field with a `field_id` and a
   * `column` is read by its `field_id` and kept when present. An exception
   * ends the loop with what was gathered.
   */
  function RowFields(fields: seq<Value>, row: Row, acc: map<string, string>): map<string, string>
    decreases |fields|
  {
    if fields == [] || !fields[0].Dict? then acc
    else
      var fieldId := CastStr(MapGet(fields[0], "field_id"));
      var column := CastStr(MapGet(fields[0], "column"));
      if fieldId.Err? || column.Err? then acc
      else if fieldId.value.None? || column.value.None? then RowFields(fields[1..], row, acc)
      else
        var value := Prop(row, fieldId.value.value);
        RowFields(fields[1..], row, if Present(value) then acc[fieldId.value.value := value.value] else acc)
  }

  /** The loop of `extractFieldsFromParentRow`: each field's `joget` read from the parent row, kept when present. */
  function JogetFields(fields: seq<Value>, row: Row, acc: map<string, string>): map<string, string>
    decreases |fields|
  {
    if fields == [] || !fields[0].Dict? then acc
    else
      var joget := CastStr(MapGet(fields[0], "joget"));
      if joget.Err? then acc
      else if joget.value.None? then JogetFields(fields[1..], row, acc)
      else
        var value := Prop(row, joget.value.value);
        JogetFields(fields[1..], row, if Present(value) then acc[joget.value.value := value.value] else acc)
  }

  /** `extractFieldsFromParentRow`: the section's `fields` read from the parent row; a non-list gives nothing. */
  function ParentRowFields(sectionConfig: Entries, parentRow: Row): map<string, string>
  {
    var fields := Get(sectionConfig, "fields");
    if fields.List? then JogetFields(fields.items, parentRow, map[]) else map[]
  }

  /** One step of the `field_id`/`column` loop over a map field whose two casts succeed. */
  lemma RowFieldsStep(fields: seq<Value>, row: Row, acc: map<string, string>)
    requires fields != [] && fields[0].Dict?
    requires CastStr(MapGet(fields[0], "field_id")).Ok? && CastStr(MapGet(fields[0], "column")).Ok?
    ensures var fieldId := CastStr(MapGet(fields[0], "field_id")).value;
      var column := CastStr(MapGet(fields[0], "column")).value;
      RowFields(fields, row, acc) ==
        if fieldId.Some? && column.Some? && Present(Prop(row, fieldId.value))
        then RowFields(fields[1..], row, acc[fieldId.value := Prop(row, fieldId.value).value])
        else RowFields(fields[1..], row, acc)
  {
  }

  /** One step of the `joget` loop over a map field whose cast succeeds. */
  lemma JogetFieldsStep(fields: seq<Value>, row: Row, acc: map<string, string>)
    requires fields != [] && fields[0].Dict? && CastStr(MapGet(fields[0], "joget")).Ok?
    ensures var joget := CastStr(MapGet(fields[0], "joget")).value;
      JogetFields(fields, row, acc) ==
        if joget.Some? && Present(Prop(row, joget.value))
        then JogetFields(fields[1..], row, acc[joget.value := Prop(row, joget.value).value])
        else JogetFields(fields[1..], row, acc)
  {
  }

  // ---- finding a grid's parent section ----

  /** A field list holds the grid's field: `joget` is the grid and `transform` is `grid`. */
  function HasGridField(fields: seq<Value>, jogetGrid: string): (r: Result<bool>)
  {
    if fields == [] then Ok(false)
    else if !fields[0].Dict? then Err(NotMap(fields[0]))
    else
      var joget := CastStr(MapGet(fields[0], "joget"));
      var transform := CastStr(MapGet(fields[0], "transform"));
      if joget.Err? then Err(joget.message)
      else if transform.Err? then Err(transform.message)
      else if joget.value == Some(jogetGrid) && transform.value == Some("grid") then Ok(true)
      else HasGridField(fields[1..], jogetGrid)
  }

  /** The section loop of `findParentSectionForGrid`: the first section that is not an array and lists the grid. */
  function ParentSectionIn(sections: Entries, jogetGrid: string): (r: Result<Option<Entries>>)
  {
    if sections == [] then Ok(None)
    else
      var config := CastMap(sections[0].1);
      if config.Err? then Err(config.message)
      else if config.value.None? then ParentSectionIn(sections[1..], jogetGrid)
      else
        var kind := CastStr(Get(config.value.value, "type"));
        if kind.Err? then Err(kind.message)
        else if kind.value == Some("array") then ParentSectionIn(sections[1..], jogetGrid)
        else
          var fields := Get(config.value.value, "fields");
          if fields.Null? then ParentSectionIn(sections[1..], jogetGrid)
          else if !fields.List? then Err(CLASS_CAST)
          else
            var hit := HasGridField(fields.items, jogetGrid);
            if hit.Err? then Err(hit.message)
            else if hit.value then Ok(Some(config.value.value))
            else ParentSectionIn(sections[1..], jogetGrid)
  }

  /** `findParentSectionForGrid`: None when the grid has no `jogetGrid`, nothing lists it, or an exception is caught. */
  function FindParentSectionForGrid(gridConfig: Entries, sections: Entries): (r: Option<Entries>)
  {
    var jogetGrid := CastStr(Get(gridConfig, "jogetGrid"));
    if jogetGrid.Err? || jogetGrid.value.None? then None
    else
      var found := ParentSectionIn(sections, jogetGrid.value.value);
      if found.Ok? then found.value else None
  }

  /** The parent id for a grid: the parent section's reference in the parent row, else the record id. */
  function GridParentId(gridConfig: Entries, sections: Entries, recordId: string, parentRow: Row): (r: Result<string>)
  {
    var parent := FindParentSectionForGrid(gridConfig, sections);
    if parent.None? then Ok(recordId)
    else
      var refField := CastStr(Get(parent.value, "uuidReferenceField"));
      if refField.Err? then Err(refField.message)
      else if refField.value.None? then Ok(recordId)
      else
        var uuid := Reference(parentRow, refField.value.value);
        Ok(if uuid.Some? then uuid.value else recordId)
  }

  /** A value that is put into the result only when there is something in it. */
  predicate Filled(item: Item)
  {
    match item
    case RecordId(_) => true
    case Section(fields) => fields != map[]
    case Grid(rows) => rows != [] && forall k :: 0 <= k < |rows| ==> rows[k] != map[]
  }

  class GenericFormDataExtractor {
    const metadataService: YamlMetadataService
    const store: RowStore

    constructor(metadataService: YamlMetadataService, store: RowStore)
      ensures this.metadataService == metadataService && this.store == store
    {
      this.metadataService := metadataService;
      this.store := store;
    }

    /** `extractFieldsFromRowUsingStructure`: nothing when the merged mappings cannot be read. */
    function StructureRowFields(row: Row, sectionName: string): map<string, string>
      reads metadataService
    {
      var fields := metadataService.MergedFieldMappings(sectionName);
      if fields.Err? then map[] else RowFields(fields.value, row, map[])
    }

    method ExtractFieldsFromRowUsingStructure(row: Row, sectionName: string) returns (data: map<string, string>)
      ensures data == StructureRowFields(row, sectionName)
    {
      data := map[];
      var fields := metadataService.GetMergedFieldMappings(sectionName);
      if fields.Err? {
        return;
      }
      var i := 0;
      while i < |fields.value|
        invariant 0 <= i <= |fields.value|
        invariant RowFields(fields.value[i..], row, data) == RowFields(fields.value, row, map[])
      {
        var fieldConfig := fields.value[i];
        assert fields.value[i..][0] == fieldConfig && fields.value[i..][1..] == fields.value[i + 1..];
        if !fieldConfig.Dict? {
          return;
        }
        var fieldId := CastStr(MapGet(fieldConfig, "field_id"));
        var column := CastStr(MapGet(fieldConfig, "column"));
        if fieldId.Err? || column.Err? {
          return;
        }
        RowFieldsStep(fields.value[i..], row, data);
        if fieldId.value.Some? && column.value.Some? {
          var value := Prop(row, fieldId.value.value);
          if Present(value) {
            data := data[fieldId.value.value := value.value];
          }
        }
        i := i + 1;
      }
      assert fields.value[i..] == [];
    }

    method ExtractFieldsFromParentRow(sectionConfig: Entries, parentRow: Row) returns (data: map<string, string>)
      ensures data == ParentRowFields(sectionConfig, parentRow)
    {
      data := map[];
      var fields := Get(sectionConfig, "fields");
      if !fields.List? || fields.items == [] {
        return;
      }
      var i := 0;
      while i < |fields.items|
        invariant 0 <= i <= |fields.items|
        invariant JogetFields(fields.items[i..], parentRow, data) == JogetFields(fields.items, parentRow, map[])
      {
        var fieldConfig := fields.items[i];
        assert fields.items[i..][0] == fieldConfig && fields.items[i..][1..] == fields.items[i + 1..];
        if !fieldConfig.Dict? {
          return;
        }
        var jogetField := CastStr(MapGet(fieldConfig, "joget"));
        if jogetField.Err? {
          return;
        }
        JogetFieldsStep(fields.items[i..], parentRow, data);
        if jogetField.value.Some? {
          var value := Prop(parentRow, jogetField.value.value);
          if Present(value) {
            data := data[jogetField.value.value := value.value];
          }
        }
        i := i + 1;
      }
      assert fields.items[i..] == [];
    }

    /** A section's table: from the form structure, else the section's `tableName`. */
    function SectionTable(sectionName: string, sectionConfig: Entries): (r: Result<Option<string>>)
      reads metadataService
    {
      var fromStructure := metadataService.TableName(sectionName);
      if fromStructure.Err? then Err(fromStructure.message)
      else if fromStructure.value.Some? then Ok(fromStructure.value)
      else CastStr(Get(sectionConfig, "tableName"))
    }

    /**
     * `extractSectionDataDirect`: the section's row, found through its
     * reference in the parent row, read through the merged field mappings.
     */
    function SectionDataDirect(sectionName: string, sectionConfig: Entries, parentRow: Row): map<string, string>
      reads metadataService
    {
      var refField := metadataService.UuidReferenceField(sectionName);
      if refField.Err? || refField.value.None? then map[]
      else
        var uuid := Reference(parentRow, refField.value.value);
        if uuid.None? then map[]
        else
          var table := SectionTable(sectionName, sectionConfig);
          if table.Err? || table.value.None? then map[]
          else
            var subRecord := store.load(StripTablePrefix(table.value.value), uuid.value);
            if subRecord.None? then map[] else StructureRowFields(subRecord.value, sectionName)
    }

    method ExtractSectionDataDirect(sectionName: string, sectionConfig: Entries, parentRow: Row)
      returns (data: map<string, string>)
      ensures data == SectionDataDirect(sectionName, sectionConfig, parentRow)
    {
      data := map[];
      var uuidRefField := metadataService.UuidReferenceField(sectionName);
      if uuidRefField.Err? || uuidRefField.value.None? {
        return;
      }
      var uuid := Prop(parentRow, COLUMN_PREFIX + uuidRefField.value.value);
      if !Present(uuid) {
        uuid := Prop(parentRow, uuidRefField.value.value);
      }
      if !Present(uuid) {
        return;
      }
      assert uuid == Reference(parentRow, uuidRefField.value.value);
      var tableName := metadataService.TableName(sectionName);
      if tableName.Err? {
        return;
      }
      if tableName.value.None? {
        tableName := CastStr(Get(sectionConfig, "tableName"));
        if tableName.Err? {
          return;
        }
      }
      if tableName.value.None? {
        return;
      }
      assert tableName == SectionTable(sectionName, sectionConfig);
      var table := tableName.value.value;
      if StartsWith(table, TABLE_PREFIX) {
        table := table[|TABLE_PREFIX|..];
      }
      assert table == StripTablePrefix(tableName.value.value);
      var subRecord := store.load(table, uuid.value);
      if subRecord.None? {
        return;
      }
      data := ExtractFieldsFromRowUsingStructure(subRecord.value, sectionName);
    }

    /**
     * A grid's foreign key column: the structure's grid column, else the
     * section's `parentKey`, else the configured default (whose exceptions
     * are caught).
     */
    function GridParentKey(sectionName: string, sectionConfig: Entries, formId: Option<string>): (r: Result<Option<string>>)
      reads metadataService
    {
      var fromStructure := metadataService.GridForeignKeyColumn(sectionName, formId);
      if fromStructure.Some? then Ok(fromStructure)
      else
        var fromSection := CastStr(Get(sectionConfig, "parentKey"));
        if fromSection.Err? then Err(fromSection.message)
        else if fromSection.value.Some? then Ok(fromSection.value)
        else
          var default := metadataService.DefaultGridParentColumn();
          Ok(if default.Ok? then default.value else None)
    }

    /** The row loop of `extractGridData`: each row read through the mappings of `lookupKey`, kept when not empty. */
    function GridRows(rows: seq<Row>, lookupKey: string, acc: seq<map<string, string>>): seq<map<string, string>>
      reads metadataService
      decreases |rows|
    {
      if rows == [] then acc
      else
        var rowData := StructureRowFields(rows[0], lookupKey);
        GridRows(rows[1..], lookupKey, if rowData != map[] then acc + [rowData] else acc)
    }

    /**
     * `extractGridData`: the rows of the grid's table whose foreign key
     * column holds the parent id, each read through the mappings of the
     * grid's `formId` (or its own name).
     */
    function GridData(sectionName: string, sectionConfig: Entries, parentId: string): seq<map<string, string>>
      reads metadataService
    {
      var tableName := CastStr(Get(sectionConfig, "tableName"));
      if tableName.Err? || tableName.value.None? then []
      else
        var formId := CastStr(Get(sectionConfig, "formId"));
        if formId.Err? then []
        else
          var parentKey := GridParentKey(sectionName, sectionConfig, formId.value);
          if parentKey.Err? || parentKey.value.None? then []
          else
            var rows := store.find(StripTablePrefix(tableName.value.value), parentKey.value.value, parentId);
            GridRows(rows, if formId.value.Some? then formId.value.value else sectionName, [])
    }

    method ExtractGridData(sectionName: string, sectionConfig: Entries, parentId: string)
      returns (gridData: seq<map<string, string>>)
      ensures gridData == GridData(sectionName, sectionConfig, parentId)
    {
      gridData := [];
      var tableName := CastStr(Get(sectionConfig, "tableName"));
      if tableName.Err? || tableName.value.None? {
        return;
      }
      var table := tableName.value.value;
      if StartsWith(table, TABLE_PREFIX) {
        table := table[|TABLE_PREFIX|..];
      }
      var formId := CastStr(Get(sectionConfig, "formId"));
      if formId.Err? {
        return;
      }
      var parentKey := metadataService.GridForeignKeyColumn(sectionName, formId.value);
      if parentKey.None? {
        var fromSection := CastStr(Get(sectionConfig, "parentKey"));
        if fromSection.Err? {
          return;
        }
        parentKey := fromSection.value;
      }
      if parentKey.None? {
        var default := metadataService.DefaultGridParentColumn();
        if default.Ok? {
          parentKey := default.value;
        }
      }
      if parentKey.None? {
        return;
      }
      var rows := store.find(table, parentKey.value, parentId);
      var lookupKey := if formId.value.Some? then formId.value.value else sectionName;
      var i := 0;
      while i < |rows|
        invariant 0 <= i <= |rows|
        invariant GridRows(rows[i..], lookupKey, gridData) == GridRows(rows, lookupKey, [])
      {
        assert rows[i..][0] == rows[i] && rows[i..][1..] == rows[i + 1..];
        var rowData := ExtractFieldsFromRowUsingStructure(rows[i], lookupKey);
        if rowData != map[] {
          gridData := gridData + [rowData];
        }
        i := i + 1;
      }
      assert rows[i..] == [];
    }

    /**
     * The body of the section loop for one entry of the mappings: what goes
     * into the result under the section's name (None: nothing), or the
     * exception that ends the loop.
     */
    function SectionItem(sectionName: string, value: Value, sections: Entries, recordId: string, parentRow: Row)
      : (r: Result<Option<Item>>)
      reads metadataService
    {
      var sectionConfig := CastMap(value);
      if sectionConfig.Err? then Err(sectionConfig.message)
      else if sectionConfig.value.None? then Ok(None)
      else
        var config := sectionConfig.value.value;
        var kind := CastStr(Get(config, "type"));
        if kind.Err? then Err(kind.message)
        else if kind.value == Some("array") then
          var parentId := GridParentId(config, sections, recordId, parentRow);
          if parentId.Err? then Err(parentId.message)
          else
            var rows := GridData(sectionName, config, parentId.value);
            Ok(if rows != [] then Some(Grid(rows)) else None)
        else if Get(config, "extractFromParent") == Bool(true) then
          var data := ParentRowFields(config, parentRow);
          Ok(if data != map[] then Some(Section(data)) else None)
        else
          var data := SectionDataDirect(sectionName, config, parentRow);
          Ok(if data != map[] then Some(Section(data)) else None)
    }

    /** The section loop of `extractAllFormData`, with the result so far in `acc`; an exception ends it. */
    function Sections(todo: Entries, sections: Entries, recordId: string, parentRow: Row, acc: map<string, Item>)
      : map<string, Item>
      reads metadataService
      decreases |todo|
    {
      if todo == [] then acc
      else
        var item := SectionItem(todo[0].0, todo[0].1, sections, recordId, parentRow);
        if item.Err? then acc
        else Sections(todo[1..], sections, recordId, parentRow,
                      if item.value.Some? then acc[todo[0].0 := item.value.value] else acc)
    }

    /**
     * `extractAllFormData`: the record id, then, once the parent row is
     * loaded, each section that yields data.
     */
    function AllFormData(recordId: string): map<string, Item>
      reads metadataService
    {
      var allData := map["id" := RecordId(recordId)];
      var parentFormId := metadataService.ParentFormId();
      var tableName := metadataService.ParentTableName();
      if parentFormId.Err? || tableName.Err? || tableName.value.None? then allData
      else
        var parentRow := store.load(tableName.value.value, recordId);
        if parentRow.None? then allData
        else
          var formMappings := metadataService.FormMappings();
          if formMappings == [] then allData
          else Sections(formMappings, formMappings, recordId, parentRow.value, allData)
    }

    method ExtractAllFormData(recordId: string) returns (allData: map<string, Item>)
      ensures allData == AllFormData(recordId)
    {
      allData := map["id" := RecordId(recordId)];
      var parentFormId := metadataService.ParentFormId();
      if parentFormId.Err? {
        return;
      }
      var tableName := metadataService.ParentTableName();
      if tableName.Err? || tableName.value.None? {
        return;
      }
      var parentRow := store.load(tableName.value.value, recordId);
      if parentRow.None? {
        return;
      }
      var formMappings := metadataService.FormMappings();
      if formMappings == [] {
        return;
      }
      var i := 0;
      while i < |formMappings|
        invariant 0 <= i <= |formMappings|
        invariant Sections(formMappings[i..], formMappings, recordId, parentRow.value, allData) ==
          AllFormData(recordId)
      {
        var entry := formMappings[i];
        assert formMappings[i..][0] == entry && formMappings[i..][1..] == formMappings[i + 1..];
        var sectionName := entry.0;
        var item := ExtractSection(sectionName, entry.1, formMappings, recordId, parentRow.value);
        if item.Err? {
          return;
        }
        if item.value.Some? {
          allData := allData[sectionName := item.value.value];
        }
        i := i + 1;
      }
      assert formMappings[i..] == [];
    }

    /** The body of the section loop, step by step. */
    method ExtractSection(sectionName: string, value: Value, sections: Entries, recordId: string, parentRow: Row)
      returns (r: Result<Option<Item>>)
      ensures r == SectionItem(sectionName, value, sections, recordId, parentRow)
    {
      var sectionConfig := CastMap(value);
      if sectionConfig.Err? {
        return Err(sectionConfig.message);
      }
      if sectionConfig.value.None? {
        return Ok(None);
      }
      var config := sectionConfig.value.value;
      var kind := CastStr(Get(config, "type"));
      if kind.Err? {
        return Err(kind.message);
      }
      if kind.value == Some("array") {
        var parentIdForGrid := recordId;
        var parentSectionConfig := FindParentSectionForGrid(config, sections);
        if parentSectionConfig.Some? {
          var uuidRefField := CastStr(Get(parentSectionConfig.value, "uuidReferenceField"));
          if uuidRefField.Err? {
            return Err(uuidRefField.message);
          }
          if uuidRefField.value.Some? {
            var uuid := Prop(parentRow, COLUMN_PREFIX + uuidRefField.value.value);
            if !Present(uuid) {
              uuid := Prop(parentRow, uuidRefField.value.value);
            }
            if Present(uuid) {
              parentIdForGrid := uuid.value;
            }
          }
        }
        var gridData := ExtractGridData(sectionName, config, parentIdForGrid);
        r := Ok(if gridData != [] then Some(Grid(gridData)) else None);
      } else if Get(config, "extractFromParent") == Bool(true) {
        var data := ExtractFieldsFromParentRow(config, parentRow);
        r := Ok(if data != map[] then Some(Section(data)) else None);
      } else {
        var data := ExtractSectionDataDirect(sectionName, config, parentRow);
        r := Ok(if data != map[] then Some(Section(data)) else None);
      }
    }

    /**
     * `extractFormById`: the first row of the form whose id is the record
     * id, every present property under its name without `c_`. The row's
     * properties are visited in no fixed order.
     */
    method ExtractFormById(formId: string, recordId: string) returns (data: map<string, string>)
      ensures store.find(StripTablePrefix(formId), "id", recordId) == [] ==> data == map[]
      ensures store.find(StripTablePrefix(formId), "id", recordId) != [] ==>
        var row := store.find(StripTablePrefix(formId), "id", recordId)[0];
        (forall f :: f in row && !IsBlank(row[f]) ==> CleanName(f) in data) &&
        (forall k :: k in data ==> exists f :: f in row && !IsBlank(row[f]) && CleanName(f) == k && data[k] == row[f])
    {
      data := map[];
      var form := formId;
      if StartsWith(form, TABLE_PREFIX) {
        form := form[|TABLE_PREFIX|..];
      }
      var rows := store.find(form, "id", recordId);
      if rows == [] {
        return;
      }
      var row := rows[0];
      var remaining := row.Keys;
      while remaining != {}
        invariant remaining <= row.Keys
        invariant forall f :: f in row && f !in remaining && !IsBlank(row[f]) ==> CleanName(f) in data
        invariant forall k :: k in data ==>
          exists f :: f in row && f !in remaining && !IsBlank(row[f]) && CleanName(f) == k && data[k] == row[f]
        decreases remaining
      {
        var fieldName :| fieldName in remaining;
        var value := row[fieldName];
        if !IsBlank(value) {
          data := data[CleanName(fieldName) := value];
        }
        remaining := remaining - {fieldName};
      }
    }
  }

  // ---- properties ----

  /** The reference lookup prefers the `c_` column and takes the bare name only when that is absent or blank. */
  lemma ReferenceFallback(row: Row, field: string)
    ensures Reference(row, field).Some? <==> Present(Prop(row, COLUMN_PREFIX + field)) || Present(Prop(row, field))
    ensures Present(Prop(row, COLUMN_PREFIX + field)) ==> Reference(row, field) == Prop(row, COLUMN_PREFIX + field)
    ensures !Present(Prop(row, COLUMN_PREFIX + field)) && Present(Prop(row, field)) ==> Reference(row, field) == Prop(row, field)
    ensures Reference(row, field).Some? ==> !IsBlank(Reference(row, field).value)
  {
  }

  /** Stripping the table prefix undoes adding it, and leaves a name without it alone. */
  lemma StripTablePrefixInverse(table: string)
    ensures StripTablePrefix(TABLE_PREFIX + table) == table
  {
    assert StartsWith(TABLE_PREFIX + table, TABLE_PREFIX);
    assert (TABLE_PREFIX + table)[|TABLE_PREFIX|..] == table;
  }

  /**
   * Row extraction is sparse: every key it adds is a configured `field_id`
   * with a `column`, and its value is the row's present value for it.
   */
  lemma {:induction false} RowFieldsSparse(fields: seq<Value>, row: Row, acc: map<string, string>, k: string)
    requires k in RowFields(fields, row, acc) && k !in acc
    ensures k in row && !IsBlank(row[k]) && RowFields(fields, row, acc)[k] == row[k]
    ensures exists i :: 0 <= i < |fields| && ConfiguredAs(fields[i], k)
    decreases |fields|
  {
    assert fields != [] && fields[0].Dict? && CleanField(fields[0]);
    var acc' := FieldStep(fields[0], row, acc);
    RowFieldsUnfold(fields, row, acc);
    if k in acc' {
      FieldStepAdds(fields[0], row, acc, k);
      RowFieldsKeeps(fields[1..], row, acc', k);
    } else {
      RowFieldsSparse(fields[1..], row, acc', k);
      var i :| 0 <= i < |fields[1..]| && ConfiguredAs(fields[1..][i], k);
      assert fields[i + 1] == fields[1..][i];
    }
  }

  /** One clean field configuration read from the row, as one turn of the loop of `extractFieldsFromRowUsingStructure` does. */
  function FieldStep(field: Value, row: Row, acc: map<string, string>): map<string, string>
    requires CleanField(field)
  {
    var fieldId := CastStr(MapGet(field, "field_id")).value;
    var column := CastStr(MapGet(field, "column")).value;
    if fieldId.None? || column.None? then acc
    else if Present(Prop(row, fieldId.value)) then acc[fieldId.value := Prop(row, fieldId.value).value]
    else acc
  }

  lemma RowFieldsUnfold(fields: seq<Value>, row: Row, acc: map<string, string>)
    requires fields != [] && CleanField(fields[0])
    ensures RowFields(fields, row, acc) == RowFields(fields[1..], row, FieldStep(fields[0], row, acc))
  {
  }

  /** A key the step adds is the field's id, configured with a column, holding the row's present value. */
  lemma FieldStepAdds(field: Value, row: Row, acc: map<string, string>, k: string)
    requires CleanField(field) && k in FieldStep(field, row, acc) && k !in acc
    ensures ConfiguredAs(field, k) && k in row && !IsBlank(row[k]) && FieldStep(field, row, acc)[k] == row[k]
  {
  }

  /** A field configuration whose `field_id` is `k` and which names a `column`. */
  predicate ConfiguredAs(field: Value, k: string)
  {
    MapGet(field, "field_id") == Str(k) && MapGet(field, "column").Str?
  }

  /** A key is only ever written with the row's value for it: once there, it keeps that value. */
  lemma {:induction false} RowFieldsKeeps(fields: seq<Value>, row: Row, acc: map<string, string>, k: string)
    requires k in acc && k in row && acc[k] == row[k]
    ensures k in RowFields(fields, row, acc) && RowFields(fields, row, acc)[k] == row[k]
    decreases |fields|
  {
    if fields != [] && fields[0].Dict? {
      var fieldId := CastStr(MapGet(fields[0], "field_id"));
      var column := CastStr(MapGet(fields[0], "column"));
      if fieldId.Ok? && column.Ok? {
        if fieldId.value.None? || column.value.None? {
          RowFieldsKeeps(fields[1..], row, acc, k);
        } else {
          var value := Prop(row, fieldId.value.value);
          RowFieldsKeeps(fields[1..], row, if Present(value) then acc[fieldId.value.value := value.value] else acc, k);
        }
      }
    }
  }

  /** A field configuration that reads cleanly: a mapping whose `field_id` and `column` are strings or null. */
  predicate CleanField(field: Value)
  {
    field.Dict? && CastStr(MapGet(field, "field_id")).Ok? && CastStr(MapGet(field, "column")).Ok?
  }

  /** With clean configurations, every field with an id and a column whose value is present is extracted. */
  lemma {:induction false} RowFieldsComplete(fields: seq<Value>, row: Row, acc: map<string, string>, i: nat)
    requires forall j :: 0 <= j < |fields| ==> CleanField(fields[j])
    requires i < |fields| && MapGet(fields[i], "field_id").Str? && MapGet(fields[i], "column").Str?
    requires Present(Prop(row, MapGet(fields[i], "field_id").s))
    ensures MapGet(fields[i], "field_id").s in RowFields(fields, row, acc)
    decreases |fields|
  {
    var id := MapGet(fields[i], "field_id").s;
    var acc' := FieldStep(fields[0], row, acc);
    RowFieldsUnfold(fields, row, acc);
    if i == 0 {
      assert id in acc' && id in row && acc'[id] == row[id];
      RowFieldsKeeps(fields[1..], row, acc', id);
    } else {
      assert fields[1..][i - 1] == fields[i];
      forall j | 0 <= j < |fields[1..]| ensures CleanField(fields[1..][j]) {
        assert fields[1..][j] == fields[j + 1];
      }
      RowFieldsComplete(fields[1..], row, acc', i - 1);
    }
  }

  /** A field configuration that reads cleanly for the parent-row loop: a mapping whose `joget` is a string or null. */
  predicate CleanJoget(field: Value)
  {
    field.Dict? && CastStr(MapGet(field, "joget")).Ok?
  }

  /** One clean field configuration read from the parent row, as one turn of the loop of `extractFieldsFromParentRow` does. */
  function JogetStep(field: Value, row: Row, acc: map<string, string>): map<string, string>
    requires CleanJoget(field)
  {
    var joget := CastStr(MapGet(field, "joget")).value;
    if joget.Some? && Present(Prop(row, joget.value)) then acc[joget.value := Prop(row, joget.value).value]
    else acc
  }

  lemma JogetFieldsUnfold(fields: seq<Value>, row: Row, acc: map<string, string>)
    requires fields != [] && CleanJoget(fields[0])
    ensures JogetFields(fields, row, acc) == JogetFields(fields[1..], row, JogetStep(fields[0], row, acc))
  {
  }

  /** A key is only ever written with the parent row's value for it: once there, it keeps that value. */
  lemma {:induction false} JogetFieldsKeeps(fields: seq<Value>, row: Row, acc: map<string, string>, k: string)
    requires k in acc && k in row && acc[k] == row[k]
    ensures k in JogetFields(fields, row, acc) && JogetFields(fields, row, acc)[k] == row[k]
    decreases |fields|
  {
    if fields != [] && CleanJoget(fields[0]) {
      JogetFieldsUnfold(fields, row, acc);
      JogetFieldsKeeps(fields[1..], row, JogetStep(fields[0], row, acc), k);
    }
  }

  /**
   * Parent-row extraction is sparse: every key it adds is some field's
   * `joget`, and its value is the parent row's present value for it.
   */
  lemma {:induction false} JogetFieldsSparse(fields: seq<Value>, row: Row, acc: map<string, string>, k: string)
    requires k in JogetFields(fields, row, acc) && k !in acc
    ensures k in row && !IsBlank(row[k]) && JogetFields(fields, row, acc)[k] == row[k]
    ensures exists i :: 0 <= i < |fields| && MapGet(fields[i], "joget") == Str(k)
    decreases |fields|
  {
    assert fields != [] && CleanJoget(fields[0]);
    var acc' := JogetStep(fields[0], row, acc);
    JogetFieldsUnfold(fields, row, acc);
    if k in acc' {
      assert MapGet(fields[0], "joget") == Str(k);
      JogetFieldsKeeps(fields[1..], row, acc', k);
    } else {
      JogetFieldsSparse(fields[1..], row, acc', k);
      var i :| 0 <= i < |fields[1..]| && MapGet(fields[1..][i], "joget") == Str(k);
      assert fields[i + 1] == fields[1..][i];
    }
  }

  /** With clean configurations, every field whose `joget` has a present value in the parent row is extracted. */
  lemma {:induction false} JogetFieldsComplete(fields: seq<Value>, row: Row, acc: map<string, string>, i: nat)
    requires forall j :: 0 <= j < |fields| ==> CleanJoget(fields[j])
    requires i < |fields| && MapGet(fields[i], "joget").Str?
    requires Present(Prop(row, MapGet(fields[i], "joget").s))
    ensures MapGet(fields[i], "joget").s in JogetFields(fields, row, acc)
    decreases |fields|
  {
    var name := MapGet(fields[i], "joget").s;
    var acc' := JogetStep(fields[0], row, acc);
    JogetFieldsUnfold(fields, row, acc);
    if i == 0 {
      assert name in acc' && name in row && acc'[name] == row[name];
      JogetFieldsKeeps(fields[1..], row, acc', name);
    } else {
      assert fields[1..][i - 1] == fields[i];
      forall j | 0 <= j < |fields[1..]| ensures CleanJoget(fields[1..][j]) {
        assert fields[1..][j] == fields[j + 1];
      }
      JogetFieldsComplete(fields[1..], row, acc', i - 1);
    }
  }

  /**
   * What `extractFieldsFromParentRow` gives when the section's field
   * configurations read cleanly: a name is extracted exactly when some
   * field lists it as `joget` and the parent row holds a present value for
   * it, and it holds that value. A `fields` that is not a list gives nothing.
   */
  lemma ParentRowFieldsExact(sectionConfig: Entries, parentRow: Row, k: string)
    requires var fields := Get(sectionConfig, "fields");
      fields.List? ==> forall j :: 0 <= j < |fields.items| ==> CleanJoget(fields.items[j])
    ensures var fields := Get(sectionConfig, "fields");
      k in ParentRowFields(sectionConfig, parentRow) <==>
        fields.List? && Present(Prop(parentRow, k)) &&
        exists i :: 0 <= i < |fields.items| && MapGet(fields.items[i], "joget") == Str(k)
    ensures k in ParentRowFields(sectionConfig, parentRow) ==> ParentRowFields(sectionConfig, parentRow)[k] == parentRow[k]
  {
    var fields := Get(sectionConfig, "fields");
    if fields.List? {
      if k in ParentRowFields(sectionConfig, parentRow) {
        JogetFieldsSparse(fields.items, parentRow, map[], k);
      }
      if Present(Prop(parentRow, k)) && exists i :: 0 <= i < |fields.items| && MapGet(fields.items[i], "joget") == Str(k) {
        var i :| 0 <= i < |fields.items| && MapGet(fields.items[i], "joget") == Str(k);
        JogetFieldsComplete(fields.items, parentRow, map[], i);
      }
    }
  }

  /** A parent section found for a grid is a section that is not an array and lists the grid's field. */
  lemma {:induction false} ParentSectionListsGrid(sections: Entries, jogetGrid: string)
    requires ParentSectionIn(sections, jogetGrid).Ok? && ParentSectionIn(sections, jogetGrid).value.Some?
    ensures exists i :: 0 <= i < |sections| && sections[i].1 == Dict(ParentSectionIn(sections, jogetGrid).value.value)
    ensures Get(ParentSectionIn(sections, jogetGrid).value.value, "type") != Str("array")
    ensures Get(ParentSectionIn(sections, jogetGrid).value.value, "fields").List?
    ensures HasGridField(Get(ParentSectionIn(sections, jogetGrid).value.value, "fields").items, jogetGrid) == Ok(true)
    decreases |sections|
  {
    var config := CastMap(sections[0].1);
    if config.value.Some? && ParentSectionIn(sections, jogetGrid) == Ok(Some(config.value.value)) &&
       CastStr(Get(config.value.value, "type")).value != Some("array") &&
       Get(config.value.value, "fields").List? &&
       HasGridField(Get(config.value.value, "fields").items, jogetGrid) == Ok(true) {
      assert sections[0].1 == Dict(config.value.value);
    } else {
      ParentSectionListsGrid(sections[1..], jogetGrid);
      var i :| 0 <= i < |sections[1..]| && sections[1..][i].1 == Dict(ParentSectionIn(sections, jogetGrid).value.value);
      assert sections[i + 1] == sections[1..][i];
    }
  }

  /** A grid field found is one whose `joget` is the grid and whose `transform` is `grid`. */
  lemma {:induction false} GridFieldFound(fields: seq<Value>, jogetGrid: string)
    requires HasGridField(fields, jogetGrid) == Ok(true)
    ensures exists i :: 0 <= i < |fields| && MapGet(fields[i], "joget") == Str(jogetGrid) && MapGet(fields[i], "transform") == Str("grid")
    decreases |fields|
  {
    if !(MapGet(fields[0], "joget") == Str(jogetGrid) && MapGet(fields[0], "transform") == Str("grid")) {
      GridFieldFound(fields[1..], jogetGrid);
      var i :| 0 <= i < |fields[1..]| && MapGet(fields[1..][i], "joget") == Str(jogetGrid) &&
        MapGet(fields[1..][i], "transform") == Str("grid");
      assert fields[i + 1] == fields[1..][i];
    }
  }

  /**
   * A grid's parent id is the record id, except when its parent section
   * declares a reference present in the parent row.
   */
  lemma GridParentIdChoice(gridConfig: Entries, sections: Entries, recordId: string, parentRow: Row)
    ensures FindParentSectionForGrid(gridConfig, sections).None? ==> GridParentId(gridConfig, sections, recordId, parentRow) == Ok(recordId)
    ensures (GridParentId(gridConfig, sections, recordId, parentRow).Ok? &&
             GridParentId(gridConfig, sections, recordId, parentRow).value != recordId) ==>
      FindParentSectionForGrid(gridConfig, sections).Some? &&
      Get(FindParentSectionForGrid(gridConfig, sections).value, "uuidReferenceField").Str? &&
      Reference(parentRow, Get(FindParentSectionForGrid(gridConfig, sections).value, "uuidReferenceField").s) ==
        Some(GridParentId(gridConfig, sections, recordId, parentRow).value)
  {
  }

  /** The grid foreign key is the structure's first, then the section's, then the default. */
  lemma GridParentKeyTiers(x: GenericFormDataExtractor, sectionName: string, sectionConfig: Entries, formId: Option<string>)
    ensures x.metadataService.GridForeignKeyColumn(sectionName, formId).Some? ==>
      x.GridParentKey(sectionName, sectionConfig, formId) == Ok(x.metadataService.GridForeignKeyColumn(sectionName, formId))
    ensures x.metadataService.GridForeignKeyColumn(sectionName, formId).None? && Get(sectionConfig, "parentKey").Str? ==>
      x.GridParentKey(sectionName, sectionConfig, formId) == Ok(Some(Get(sectionConfig, "parentKey").s))
    ensures x.metadataService.GridForeignKeyColumn(sectionName, formId).None? && Get(sectionConfig, "parentKey").Null? ==>
      x.GridParentKey(sectionName, sectionConfig, formId) ==
        Ok(if x.metadataService.DefaultGridParentColumn().Ok? then x.metadataService.DefaultGridParentColumn().value else None)
  {
  }

  /** A grid whose foreign key resolves nowhere yields no rows. */
  lemma UnresolvedGridIsSkipped(x: GenericFormDataExtractor, sectionName: string, sectionConfig: Entries, parentId: string)
    requires CastStr(Get(sectionConfig, "formId")).Ok?
    requires x.GridParentKey(sectionName, sectionConfig, CastStr(Get(sectionConfig, "formId")).value) == Ok(None)
    ensures x.GridData(sectionName, sectionConfig, parentId) == []
  {
  }

  /** Grid rows that extract nothing are dropped; the others keep their order. */
  lemma {:induction false} GridRowsFilled(x: GenericFormDataExtractor, rows: seq<Row>, lookupKey: string, acc: seq<map<string, string>>)
    requires forall k :: 0 <= k < |acc| ==> acc[k] != map[]
    ensures forall k :: 0 <= k < |x.GridRows(rows, lookupKey, acc)| ==> x.GridRows(rows, lookupKey, acc)[k] != map[]
    ensures |x.GridRows(rows, lookupKey, acc)| <= |acc| + |rows|
    decreases |rows|
  {
    if rows != [] {
      var rowData := x.StructureRowFields(rows[0], lookupKey);
      var acc' := if rowData != map[] then acc + [rowData] else acc;
      GridRowsFilled(x, rows[1..], lookupKey, acc');
    }
  }

  /** Whatever a section puts into the result holds something. */
  lemma SectionItemFilled(x: GenericFormDataExtractor, sectionName: string, value: Value, sections: Entries, recordId: string, parentRow: Row)
    requires x.SectionItem(sectionName, value, sections, recordId, parentRow).Ok?
    requires x.SectionItem(sectionName, value, sections, recordId, parentRow).value.Some?
    ensures Filled(x.SectionItem(sectionName, value, sections, recordId, parentRow).value.value)
  {
    var config := CastMap(value).value.value;
    if CastStr(Get(config, "type")).value == Some("array") {
      var parentId := GridParentId(config, sections, recordId, parentRow).value;
      var tableName := CastStr(Get(config, "tableName"));
      var formId := CastStr(Get(config, "formId"));
      if tableName.Ok? && tableName.value.Some? && formId.Ok? {
        var parentKey := x.GridParentKey(sectionName, config, formId.value);
        if parentKey.Ok? && parentKey.value.Some? {
          var rows := x.store.find(StripTablePrefix(tableName.value.value), parentKey.value.value, parentId);
          GridRowsFilled(x, rows, if formId.value.Some? then formId.value.value else sectionName, []);
        }
      }
    }
  }

  /**
   * The section loop keeps what it was given under names no section has,
   * and adds only filled items.
   */
  lemma {:induction false} SectionsKeep(x: GenericFormDataExtractor, todo: Entries, sections: Entries, recordId: string, parentRow: Row,
                                        acc: map<string, Item>, key: string)
    requires key in acc && !Has(todo, key)
    ensures key in x.Sections(todo, sections, recordId, parentRow, acc)
    ensures x.Sections(todo, sections, recordId, parentRow, acc)[key] == acc[key]
    decreases |todo|
  {
    if todo != [] {
      assert todo[0].0 != key;
      forall i | 0 <= i < |todo[1..]| ensures todo[1..][i].0 != key {
        assert todo[1..][i] == todo[i + 1];
      }
      var item := x.SectionItem(todo[0].0, todo[0].1, sections, recordId, parentRow);
      if item.Ok? {
        SectionsKeep(x, todo[1..], sections, recordId, parentRow,
                     if item.value.Some? then acc[todo[0].0 := item.value.value] else acc, key);
      }
    }
  }

  lemma {:induction false} SectionsFilled(x: GenericFormDataExtractor, todo: Entries, sections: Entries, recordId: string, parentRow: Row,
                                          acc: map<string, Item>)
    requires forall k :: k in acc ==> Filled(acc[k])
    ensures forall k :: k in x.Sections(todo, sections, recordId, parentRow, acc) ==> Filled(x.Sections(todo, sections, recordId, parentRow, acc)[k])
    decreases |todo|
  {
    if todo != [] {
      var item := x.SectionItem(todo[0].0, todo[0].1, sections, recordId, parentRow);
      if item.Ok? {
        if item.value.Some? {
          SectionItemFilled(x, todo[0].0, todo[0].1, sections, recordId, parentRow);
        }
        SectionsFilled(x, todo[1..], sections, recordId, parentRow,
                       if item.value.Some? then acc[todo[0].0 := item.value.value] else acc);
      }
    }
  }

  /**
   * An exception in a section ends the loop: the result is what the
   * sections before it gave.
   */
  lemma {:induction false} ExceptionStops(x: GenericFormDataExtractor, todo: Entries, sections: Entries, recordId: string, parentRow: Row,
                                          acc: map<string, Item>, k: nat)
    requires k < |todo| && x.SectionItem(todo[k].0, todo[k].1, sections, recordId, parentRow).Err?
    ensures x.Sections(todo, sections, recordId, parentRow, acc) == x.Sections(todo[..k], sections, recordId, parentRow, acc)
    decreases k
  {
    if k > 0 {
      var item := x.SectionItem(todo[0].0, todo[0].1, sections, recordId, parentRow);
      assert todo[..k][0] == todo[0] && todo[..k][1..] == todo[1..][..k - 1];
      if item.Ok? {
        ExceptionStops(x, todo[1..], sections, recordId, parentRow,
                       if item.value.Some? then acc[todo[0].0 := item.value.value] else acc, k - 1);
      }
    }
  }

  /**
   * The result always maps "id" to the record id (unless a section is
   * itself called "id"); without a parent row that is all it holds; every
   * other entry holds something.
   */
  lemma RecordIdAlwaysThere(x: GenericFormDataExtractor, recordId: string)
    ensures !Has(x.metadataService.FormMappings(), "id") ==>
      "id" in x.AllFormData(recordId) && x.AllFormData(recordId)["id"] == RecordId(recordId)
    ensures (x.metadataService.ParentTableName().Ok? && x.metadataService.ParentTableName().value.Some? &&
             x.store.load(x.metadataService.ParentTableName().value.value, recordId).None?) ==>
      x.AllFormData(recordId) == map["id" := RecordId(recordId)]
    ensures forall k :: k in x.AllFormData(recordId) ==> Filled(x.AllFormData(recordId)[k])
  {
    var allData := map["id" := RecordId(recordId)];
    var tableName := x.metadataService.ParentTableName();
    if x.metadataService.ParentFormId().Ok? && tableName.Ok? && tableName.value.Some? {
      var parentRow := x.store.load(tableName.value.value, recordId);
      var formMappings := x.metadataService.FormMappings();
      if parentRow.Some? && formMappings != [] {
        if !Has(formMappings, "id") {
          SectionsKeep(x, formMappings, formMappings, recordId, parentRow.value, allData, "id");
        }
        SectionsFilled(x, formMappings, formMappings, recordId, parentRow.value, allData);
      }
    }
  }

  /** Without a parent form id or table name configured, the result is the record id alone. */
  lemma UnconfiguredParent(x: GenericFormDataExtractor, recordId: string)
    requires x.metadataService.ParentFormId().Err? || x.metadataService.ParentTableName().Err?
    ensures x.AllFormData(recordId) == map["id" := RecordId(recordId)]
  {
  }
}
