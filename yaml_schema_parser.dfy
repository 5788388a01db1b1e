/**
 * YamlSchemaParser: the table-to-columns map read from a parsed
 * form-structure YAML. Every form with a `table_name` gets an entry whose
 * column set collects the `column` of its section fields and `all_fields`;
 * every grid with a `table_name` gets one from its `sub_form_fields`. The
 * map and the sets keep insertion order, as LinkedHashMap and
 * LinkedHashSet do. A cast or null dereference that would throw is an
 * error, which the parser reports as a RuntimeException.
 */
module YamlSchemaParserModel {
  import opened Wrappers
  import opened JavaValues
  import JavaStr

  const FAILED: string := "Failed to parse YAML schema: "

  /** The LinkedHashMap of LinkedHashSets: the tables in insertion order, and each table's columns. */
  datatype TableColumns = TableColumns(tables: seq<string>, columns: map<string, seq<string>>)

  const EMPTY: TableColumns := TableColumns([], map[])

  predicate Distinct(xs: seq<string>)
  {
    forall i, j :: 0 <= i < j < |xs| ==> xs[i] != xs[j]
  }

  /**
   * The map's invariant: the keys are the listed tables, listed once; each
   * column set holds distinct, non-empty names.
   */
  ghost predicate Valid(m: TableColumns)
  {
    (forall t :: t in m.columns <==> t in m.tables) &&
    Distinct(m.tables) &&
    (forall t :: t in m.columns ==> Distinct(m.columns[t])) &&
    (forall t, k :: t in m.columns && 0 <= k < |m.columns[t]| ==> m.columns[t][k] != [])
  }

  /** Nothing is ever removed or reordered: tables and columns only gain elements at the end. */
  predicate Extends(m: TableColumns, m': TableColumns)
  {
    m.tables <= m'.tables &&
    forall t :: t in m.columns ==> t in m'.columns && m.columns[t] <= m'.columns[t]
  }

  /** `computeIfAbsent(t, k -> new LinkedHashSet<>())`: a new table starts with no columns. */
  function ComputeIfAbsent(m: TableColumns, t: string): (r: TableColumns)
    ensures t in r.columns && Extends(m, r)
    ensures r.columns.Keys == m.columns.Keys + {t}
    ensures t !in m.columns ==> r.columns[t] == []
    ensures forall t' :: t' in m.columns ==> r.columns[t'] == m.columns[t']
    ensures Valid(m) ==> Valid(r)
  {
    if t in m.columns then m else TableColumns(m.tables + [t], m.columns[t := []])
  }

  /** `Set.add` on a table's columns: a column already there stays where it is. */
  function Add(m: TableColumns, t: string, c: string): (r: TableColumns)
    requires t in m.columns
    ensures r.tables == m.tables && r.columns.Keys == m.columns.Keys && Extends(m, r)
    ensures c in r.columns[t]
    ensures forall t' :: t' in m.columns && t' != t ==> r.columns[t'] == m.columns[t']
    ensures Valid(m) && c != [] ==> Valid(r)
    ensures forall x :: x in r.columns[t] <==> x in m.columns[t] || x == c
  {
    if c in m.columns[t] then m
    else TableColumns(m.tables, m.columns[t := m.columns[t] + [c]])
  }

  /** `column` of one field, added to `t` when it is a non-empty string. */
  function AddFieldColumn(m: TableColumns, t: string, field: Value): (r: Result<TableColumns>)
    requires t in m.columns
    ensures r.Ok? ==> r.value.tables == m.tables && r.value.columns.Keys == m.columns.Keys && Extends(m, r.value)
    ensures r.Ok? && Valid(m) ==> Valid(r.value)
    ensures r.Ok? && HasColumn(field) ==> MapGet(field, "column").s in r.value.columns[t]
  {
    if !field.Dict? then Err(NotMap(field))
    else
      var column := CastStr(MapGet(field, "column"));
      if column.Err? then Err(column.message)
      else if column.value.Some? && column.value.value != [] then Ok(Add(m, t, column.value.value))
      else Ok(m)
  }

  /** The field loop shared by sections, `all_fields` and `sub_form_fields`. */
  function AddFields(m: TableColumns, t: string, fields: seq<Value>): (r: Result<TableColumns>)
    requires t in m.columns
    ensures r.Ok? ==> r.value.columns.Keys == m.columns.Keys
    decreases |fields|
  {
    if fields == [] then Ok(m)
    else
      var step := AddFieldColumn(m, t, fields[0]);
      if step.Err? then step else AddFields(step.value, t, fields[1..])
  }

  /** One section of `extractColumnsFromFields`: its `fields`, if it has the key. */
  function AddSection(m: TableColumns, t: string, section: Value): (r: Result<TableColumns>)
    requires t in m.columns
    ensures r.Ok? ==> r.value.columns.Keys == m.columns.Keys
  {
    if !section.Dict? then Err(NotMap(section))
    else if !ContainsKey(section, "fields") then Ok(m)
    else
      var fields := IterList(MapGet(section, "fields"));
      if fields.Err? then Err(fields.message)
      else AddFields(m, t, fields.value)
  }

  function AddSections(m: TableColumns, t: string, sections: seq<Value>): (r: Result<TableColumns>)
    requires t in m.columns
    ensures r.Ok? ==> r.value.columns.Keys == m.columns.Keys
    decreases |sections|
  {
    if sections == [] then Ok(m)
    else
      var step := AddSection(m, t, sections[0]);
      if step.Err? then step else AddSections(step.value, t, sections[1..])
  }

  /** One grid: an entry for its own table holding its sub-form columns; a grid without a table is ignored. */
  function AddGrid(m: TableColumns, grid: Value): (r: Result<TableColumns>)
  {
    if !grid.Dict? then Err(NotMap(grid))
    else
      var tableName := CastStr(MapGet(grid, "table_name"));
      if tableName.Err? then Err(tableName.message)
      else if tableName.value.None? then Ok(m)
      else
        var m' := ComputeIfAbsent(m, tableName.value.value);
        if !ContainsKey(grid, "sub_form_fields") then Ok(m')
        else
          var fields := IterList(MapGet(grid, "sub_form_fields"));
          if fields.Err? then Err(fields.message) else AddFields(m', tableName.value.value, fields.value)
  }

  function AddGrids(m: TableColumns, grids: seq<Value>): (r: Result<TableColumns>)
    decreases |grids|
  {
    if grids == [] then Ok(m)
    else
      var step := AddGrid(m, grids[0]);
      if step.Err? then step else AddGrids(step.value, grids[1..])
  }

  /** The list under `key` when the form has that key: absent is no list, a present non-list throws. */
  function ListUnder(form: Value, key: string): (r: Result<seq<Value>>)
    ensures !ContainsKey(form, key) ==> r == Ok([])
  {
    if ContainsKey(form, key) then IterList(MapGet(form, key)) else Ok([])
  }

  /** A form's `all_fields` list, empty when it has none or it cannot be read. */
  function AllFields(form: Value): (r: seq<Value>)
    ensures ListUnder(form, "all_fields").Ok? ==> r == ListUnder(form, "all_fields").value
  {
    var l := ListUnder(form, "all_fields");
    if l.Ok? then l.value else []
  }

  /** A field's `column` when it is a non-empty string. */
  predicate HasColumn(field: Value)
  {
    MapGet(field, "column").Str? && MapGet(field, "column").s != []
  }

  /** The body of the form loop for a form whose table name is `t`. */
  function AddTableForm(m: TableColumns, t: string, form: Value): (r: Result<TableColumns>)
    requires t in m.columns
  {
    var sections := ListUnder(form, "sections");
    if sections.Err? then Err(sections.message)
    else
      var afterSections := AddSections(m, t, sections.value);
      if afterSections.Err? then afterSections
      else
        var allFields := ListUnder(form, "all_fields");
        if allFields.Err? then Err(allFields.message)
        else
          var afterFields := AddFields(afterSections.value, t, allFields.value);
          if afterFields.Err? then afterFields
          else
            var grids := ListUnder(form, "grids");
            if grids.Err? then Err(grids.message) else AddGrids(afterFields.value, grids.value)
  }

  /** One form: skipped without a `table_name`, else its table's entry and columns, then its grids. */
  function AddForm(m: TableColumns, form: Value): (r: Result<TableColumns>)
  {
    if !form.Dict? then Err(NotMap(form))
    else
      var tableName := CastStr(MapGet(form, "table_name"));
      if tableName.Err? then Err(tableName.message)
      else if tableName.value.None? then Ok(m)
      else AddTableForm(ComputeIfAbsent(m, tableName.value.value), tableName.value.value, form)
  }

  function AddForms(m: TableColumns, forms: seq<(string, Value)>): (r: Result<TableColumns>)
    decreases |forms|
  {
    if forms == [] then Ok(m)
    else
      var step := AddForm(m, forms[0].1);
      if step.Err? then step else AddForms(step.value, forms[1..])
  }

  /**
   * `parseTableColumnMappings` on the parsed document: null data or no
   * `forms` key gives the empty map; anything that throws is wrapped.
   */
  function ParseSpec(data: Value): (r: Result<TableColumns>)
  {
    if data.Null? then Ok(EMPTY)
    else if !data.Dict? then Err(FAILED + CLASS_CAST)
    else if !ContainsKey(data, "forms") then Ok(EMPTY)
    else
      var forms := MapGet(data, "forms");
      if !forms.Dict? then Err(FAILED + NotMap(forms))
      else
        var r := AddForms(EMPTY, forms.entries);
        if r.Err? then Err(FAILED + r.message) else r
  }

  // ---- the parser's loops ----

  /** A field loop: each field's column is added to `t`'s set. */
  method AddFieldColumns(m: TableColumns, t: string, fields: seq<Value>) returns (r: Result<TableColumns>)
    requires t in m.columns
    ensures r == AddFields(m, t, fields)
  {
    var columns := m;
    var i := 0;
    while i < |fields|
      invariant 0 <= i <= |fields| && t in columns.columns
      invariant AddFields(columns, t, fields[i..]) == AddFields(m, t, fields)
    {
      assert fields[i..][1..] == fields[i + 1..];
      var step := AddFieldColumn(columns, t, fields[i]);
      if step.Err? {
        return step;
      }
      columns := step.value;
      i := i + 1;
    }
    r := Ok(columns);
  }

  /** `extractColumnsFromFields`: the fields of every section that has some. */
  method ExtractColumnsFromFields(m: TableColumns, t: string, sections: seq<Value>) returns (r: Result<TableColumns>)
    requires t in m.columns
    ensures r == AddSections(m, t, sections)
  {
    var columns := m;
    var i := 0;
    while i < |sections|
      invariant 0 <= i <= |sections| && t in columns.columns
      invariant AddSections(columns, t, sections[i..]) == AddSections(m, t, sections)
    {
      assert sections[i..][1..] == sections[i + 1..];
      var section := sections[i];
      if !section.Dict? {
        return Err(NotMap(section));
      }
      if ContainsKey(section, "fields") {
        var fields := IterList(MapGet(section, "fields"));
        if fields.Err? {
          return Err(fields.message);
        }
        var step := AddFieldColumns(columns, t, fields.value);
        if step.Err? {
          return step;
        }
        columns := step.value;
      }
      i := i + 1;
    }
    r := Ok(columns);
  }

  /** The grid loop of one form. */
  method AddGridColumns(m: TableColumns, grids: seq<Value>) returns (r: Result<TableColumns>)
    ensures r == AddGrids(m, grids)
  {
    var tables := m;
    var i := 0;
    while i < |grids|
      invariant 0 <= i <= |grids|
      invariant AddGrids(tables, grids[i..]) == AddGrids(m, grids)
    {
      assert grids[i..][1..] == grids[i + 1..];
      var grid := grids[i];
      if !grid.Dict? {
        return Err(NotMap(grid));
      }
      var gridTableName := CastStr(MapGet(grid, "table_name"));
      if gridTableName.Err? {
        return Err(gridTableName.message);
      }
      if gridTableName.value.Some? {
        var t := gridTableName.value.value;
        tables := ComputeIfAbsent(tables, t);
        if ContainsKey(grid, "sub_form_fields") {
          var fields := IterList(MapGet(grid, "sub_form_fields"));
          if fields.Err? {
            return Err(fields.message);
          }
          var step := AddFieldColumns(tables, t, fields.value);
          if step.Err? {
            return step;
          }
          tables := step.value;
        }
      }
      i := i + 1;
    }
    r := Ok(tables);
  }

  /** One pass of the form loop. */
  method AddFormColumns(m: TableColumns, form: Value) returns (r: Result<TableColumns>)
    ensures r == AddForm(m, form)
  {
    if !form.Dict? {
      return Err(NotMap(form));
    }
    var tableName := CastStr(MapGet(form, "table_name"));
    if tableName.Err? {
      return Err(tableName.message);
    }
    if tableName.value.None? {
      return Ok(m);
    }
    var t := tableName.value.value;
    var tables := ComputeIfAbsent(m, t);
    var sections := ListUnder(form, "sections");
    if sections.Err? {
      return Err(sections.message);
    }
    var step := ExtractColumnsFromFields(tables, t, sections.value);
    if step.Err? {
      return step;
    }
    tables := step.value;
    var allFields := ListUnder(form, "all_fields");
    if allFields.Err? {
      return Err(allFields.message);
    }
    step := AddFieldColumns(tables, t, allFields.value);
    if step.Err? {
      return step;
    }
    tables := step.value;
    var grids := ListUnder(form, "grids");
    if grids.Err? {
      return Err(grids.message);
    }
    r := AddGridColumns(tables, grids.value);
  }

  /** `parseTableColumnMappings` on the already-parsed document. */
  method ParseTableColumnMappings(data: Value) returns (r: Result<TableColumns>)
    ensures r == ParseSpec(data)
  {
    if data.Null? {
      return Ok(EMPTY);
    }
    if !data.Dict? {
      return Err(FAILED + CLASS_CAST);
    }
    if !ContainsKey(data, "forms") {
      return Ok(EMPTY);
    }
    var forms := MapGet(data, "forms");
    if !forms.Dict? {
      return Err(FAILED + NotMap(forms));
    }
    var entries := forms.entries;
    var tableColumnMap := EMPTY;
    var i := 0;
    while i < |entries|
      invariant 0 <= i <= |entries|
      invariant AddForms(tableColumnMap, entries[i..]) == AddForms(EMPTY, entries)
    {
      assert entries[i..][1..] == entries[i + 1..];
      var step := AddFormColumns(tableColumnMap, entries[i].1);
      if step.Err? {
        return Err(FAILED + step.message);
      }
      tableColumnMap := step.value;
      i := i + 1;
    }
    r := Ok(tableColumnMap);
  }

  // ---- the map only grows, and keeps its invariant ----

  lemma ExtendsTrans(a: TableColumns, b: TableColumns, c: TableColumns)
    requires Extends(a, b) && Extends(b, c)
    ensures Extends(a, c)
  {
  }

  /** Something that went from `m` to `m'` without losing anything or breaking the invariant. */
  ghost predicate Grows(m: TableColumns, m': TableColumns)
  {
    Extends(m, m') && (Valid(m) ==> Valid(m'))
  }

  lemma {:induction false} AddFieldsGrows(m: TableColumns, t: string, fields: seq<Value>)
    requires t in m.columns
    ensures AddFields(m, t, fields).Ok? ==> Grows(m, AddFields(m, t, fields).value)
    decreases |fields|
  {
    if fields != [] {
      var step := AddFieldColumn(m, t, fields[0]);
      if step.Ok? {
        AddFieldsGrows(step.value, t, fields[1..]);
        if AddFields(m, t, fields).Ok? {
          ExtendsTrans(m, step.value, AddFields(m, t, fields).value);
        }
      }
    }
  }

  lemma {:induction false} AddSectionsGrows(m: TableColumns, t: string, sections: seq<Value>)
    requires t in m.columns
    ensures AddSections(m, t, sections).Ok? ==> Grows(m, AddSections(m, t, sections).value)
    decreases |sections|
  {
    if sections != [] {
      var step := AddSection(m, t, sections[0]);
      if step.Ok? {
        if sections[0].Dict? && ContainsKey(sections[0], "fields") {
          AddFieldsGrows(m, t, MapGet(sections[0], "fields").items);
        }
        AddSectionsGrows(step.value, t, sections[1..]);
        if AddSections(m, t, sections).Ok? {
          ExtendsTrans(m, step.value, AddSections(m, t, sections).value);
        }
      }
    }
  }

  lemma AddGridGrows(m: TableColumns, grid: Value)
    ensures AddGrid(m, grid).Ok? ==> Grows(m, AddGrid(m, grid).value)
  {
    if grid.Dict? && MapGet(grid, "table_name").Str? && MapGet(grid, "sub_form_fields").List? {
      var t := MapGet(grid, "table_name").s;
      var m' := ComputeIfAbsent(m, t);
      AddFieldsGrows(m', t, MapGet(grid, "sub_form_fields").items);
      if AddGrid(m, grid).Ok? {
        ExtendsTrans(m, m', AddGrid(m, grid).value);
      }
    }
  }

  lemma {:induction false} AddGridsGrows(m: TableColumns, grids: seq<Value>)
    ensures AddGrids(m, grids).Ok? ==> Grows(m, AddGrids(m, grids).value)
    decreases |grids|
  {
    if grids != [] {
      var step := AddGrid(m, grids[0]);
      AddGridGrows(m, grids[0]);
      if step.Ok? {
        AddGridsGrows(step.value, grids[1..]);
        if AddGrids(m, grids).Ok? {
          ExtendsTrans(m, step.value, AddGrids(m, grids).value);
        }
      }
    }
  }

  lemma AddTableFormGrows(m: TableColumns, t: string, form: Value)
    requires t in m.columns
    ensures AddTableForm(m, t, form).Ok? ==> Grows(m, AddTableForm(m, t, form).value)
  {
    var r := AddTableForm(m, t, form);
    if r.Ok? {
      var sections := ListUnder(form, "sections").value;
      var afterSections := AddSections(m, t, sections).value;
      AddSectionsGrows(m, t, sections);
      var allFields := ListUnder(form, "all_fields").value;
      var afterFields := AddFields(afterSections, t, allFields).value;
      AddFieldsGrows(afterSections, t, allFields);
      AddGridsGrows(afterFields, ListUnder(form, "grids").value);
      ExtendsTrans(m, afterSections, afterFields);
      ExtendsTrans(m, afterFields, r.value);
    }
  }

  lemma AddFormGrows(m: TableColumns, form: Value)
    ensures AddForm(m, form).Ok? ==> Grows(m, AddForm(m, form).value)
  {
    if form.Dict? && MapGet(form, "table_name").Str? {
      var t := MapGet(form, "table_name").s;
      var m' := ComputeIfAbsent(m, t);
      AddTableFormGrows(m', t, form);
      if AddForm(m, form).Ok? {
        ExtendsTrans(m, m', AddForm(m, form).value);
      }
    }
  }

  lemma {:induction false} AddFormsGrows(m: TableColumns, forms: seq<(string, Value)>)
    ensures AddForms(m, forms).Ok? ==> Grows(m, AddForms(m, forms).value)
    decreases |forms|
  {
    if forms != [] {
      var step := AddForm(m, forms[0].1);
      AddFormGrows(m, forms[0].1);
      if step.Ok? {
        AddFormsGrows(step.value, forms[1..]);
        if AddForms(m, forms).Ok? {
          ExtendsTrans(m, step.value, AddForms(m, forms).value);
        }
      }
    }
  }

  // ---- what the parsed map holds ----

  /**
   * A parsed map lists each table once, and each table's columns are
   * distinct and non-empty; without data or `forms` it is empty.
   */
  lemma ParseValid(data: Value)
    ensures ParseSpec(data).Ok? ==> Valid(ParseSpec(data).value)
    ensures data.Null? || (data.Dict? && !ContainsKey(data, "forms")) ==> ParseSpec(data) == Ok(EMPTY)
  {
    if data.Dict? && ContainsKey(data, "forms") && MapGet(data, "forms").Dict? {
      AddFormsGrows(EMPTY, MapGet(data, "forms").entries);
    }
  }

  /** A column of a field the loop went over is in the table's set. */
  lemma {:induction false} AddFieldsHas(m: TableColumns, t: string, fields: seq<Value>, k: nat)
    requires t in m.columns && k < |fields|
    requires AddFields(m, t, fields).Ok?
    requires HasColumn(fields[k])
    ensures MapGet(fields[k], "column").s in AddFields(m, t, fields).value.columns[t]
    decreases |fields|
  {
    var step := AddFieldColumn(m, t, fields[0]);
    if k == 0 {
      AddFieldsGrows(step.value, t, fields[1..]);
      PrefixIn(step.value.columns[t], AddFields(m, t, fields).value.columns[t], MapGet(fields[k], "column").s);
    } else {
      assert fields[1..][k - 1] == fields[k];
      AddFieldsHas(step.value, t, fields[1..], k - 1);
    }
  }

  lemma PrefixIn(a: seq<string>, b: seq<string>, c: string)
    requires a <= b && c in a
    ensures c in b
  {
    var i :| 0 <= i < |a| && a[i] == c;
    assert b[i] == c;
  }

  /** `t` has an entry holding every non-empty `column` of the form's `all_fields`. */
  ghost predicate HoldsForm(m: TableColumns, t: string, form: Value)
  {
    t in m.columns &&
    forall j :: 0 <= j < |AllFields(form)| && HasColumn(AllFields(form)[j]) ==>
      MapGet(AllFields(form)[j], "column").s in m.columns[t]
  }

  /**
   * Every form with a string `table_name` has an entry in the parsed map,
   * holding the non-empty columns of its `all_fields`.
   */
  lemma ParseListsForm(data: Value, k: nat, t: string)
    requires ParseSpec(data).Ok? && ContainsKey(data, "forms")
    requires k < |MapGet(data, "forms").entries|
    requires MapGet(data, "forms").entries[k].1.Dict? && MapGet(MapGet(data, "forms").entries[k].1, "table_name") == Str(t)
    ensures HoldsForm(ParseSpec(data).value, t, MapGet(data, "forms").entries[k].1)
  {
    var form := MapGet(data, "forms").entries[k].1;
    ParseExact(data);
    assert FormTable(form, t);
    forall j | 0 <= j < |AllFields(form)| && HasColumn(AllFields(form)[j])
      ensures MapGet(AllFields(form)[j], "column").s in ParseSpec(data).value.columns[t]
    {
      assert FieldHas(ListOr(form, "all_fields"), MapGet(AllFields(form)[j], "column").s);
      assert FormColumn(form, t, MapGet(AllFields(form)[j], "column").s);
    }
  }

  /** A grid with a string `table_name` gets its own entry, holding its non-empty sub-form columns. */
  lemma GridListed(m: TableColumns, grid: Value, g: string, k: nat)
    requires AddGrid(m, grid).Ok? && grid.Dict? && MapGet(grid, "table_name") == Str(g)
    ensures g in AddGrid(m, grid).value.columns
    ensures (MapGet(grid, "sub_form_fields").List? && k < |MapGet(grid, "sub_form_fields").items| &&
             HasColumn(MapGet(grid, "sub_form_fields").items[k])) ==>
      MapGet(MapGet(grid, "sub_form_fields").items[k], "column").s in AddGrid(m, grid).value.columns[g]
  {
    var fields := MapGet(grid, "sub_form_fields");
    if fields.List? && k < |fields.items| && HasColumn(fields.items[k]) {
      MapGetPresent(grid, "sub_form_fields");
      assert AddGrid(m, grid) == AddFields(ComputeIfAbsent(m, g), g, fields.items);
      AddFieldsHas(ComputeIfAbsent(m, g), g, fields.items, k);
    }
  }

  // ---- exactly what the parsed map holds ----

  /** The list under `key` as the parser walks it; empty when it has none. */
  function ListOr(v: Value, key: string): seq<Value>
  {
    var l := ListUnder(v, key);
    if l.Ok? then l.value else []
  }

  /** Some field of the list has the non-empty column `c`. */
  ghost predicate FieldHas(fields: seq<Value>, c: string)
  {
    exists i :: 0 <= i < |fields| && HasColumn(fields[i]) && MapGet(fields[i], "column").s == c
  }

  /** Some section of the list has a field with the column `c`. */
  ghost predicate SectionsHave(sections: seq<Value>, c: string)
  {
    exists j :: 0 <= j < |sections| && FieldHas(ListOr(sections[j], "fields"), c)
  }

  ghost predicate GridsName(grids: seq<Value>, t: string)
  {
    exists j :: 0 <= j < |grids| && MapGet(grids[j], "table_name") == Str(t)
  }

  /** Some grid with table name `t` has a sub-form field with the column `c`. */
  ghost predicate GridsHave(grids: seq<Value>, t: string, c: string)
  {
    exists j :: 0 <= j < |grids| && MapGet(grids[j], "table_name") == Str(t) &&
      FieldHas(ListOr(grids[j], "sub_form_fields"), c)
  }

  /** A form with a table name names that table and the tables of its grids. */
  ghost predicate FormTable(form: Value, t: string)
  {
    MapGet(form, "table_name").Str? && (MapGet(form, "table_name").s == t || GridsName(ListOr(form, "grids"), t))
  }

  /**
   * A form with a table name gives its table the columns of its sections and
   * `all_fields`, and each grid's table the columns of its sub-form fields.
   */
  ghost predicate FormColumn(form: Value, t: string, c: string)
  {
    MapGet(form, "table_name").Str? &&
    ((MapGet(form, "table_name").s == t &&
      (SectionsHave(ListOr(form, "sections"), c) || FieldHas(ListOr(form, "all_fields"), c))) ||
     GridsHave(ListOr(form, "grids"), t, c))
  }

  ghost predicate SomeFormTable(forms: seq<(string, Value)>, t: string)
  {
    exists k :: 0 <= k < |forms| && FormTable(forms[k].1, t)
  }

  ghost predicate SomeFormColumn(forms: seq<(string, Value)>, t: string, c: string)
  {
    exists k :: 0 <= k < |forms| && FormColumn(forms[k].1, t, c)
  }

  /** `r` is `m` with the columns of `fields` added to `t`, and nothing else. */
  ghost predicate FieldsAdded(m: TableColumns, r: TableColumns, t: string, fields: seq<Value>)
  {
    r.columns.Keys == m.columns.Keys &&
    forall t' :: t' in r.columns ==> forall c :: c in r.columns[t'] <==> c in m.columns[t'] || (t' == t && FieldHas(fields, c))
  }

  ghost predicate SectionsAdded(m: TableColumns, r: TableColumns, t: string, sections: seq<Value>)
  {
    r.columns.Keys == m.columns.Keys &&
    forall t' :: t' in r.columns ==> forall c :: c in r.columns[t'] <==> c in m.columns[t'] || (t' == t && SectionsHave(sections, c))
  }

  /** `r` is `m` with the grids' tables and their columns added, and nothing else. */
  ghost predicate GridsAdded(m: TableColumns, r: TableColumns, grids: seq<Value>)
  {
    (forall t :: t in r.columns <==> t in m.columns || GridsName(grids, t)) &&
    forall t :: t in r.columns ==>
      forall c :: c in r.columns[t] <==> (t in m.columns && c in m.columns[t]) || GridsHave(grids, t, c)
  }

  /** `r` is `m` with the tables and columns of one form added, and nothing else. */
  ghost predicate FormAdded(m: TableColumns, r: TableColumns, form: Value)
  {
    (forall t :: t in r.columns <==> t in m.columns || FormTable(form, t)) &&
    forall t :: t in r.columns ==>
      forall c :: c in r.columns[t] <==> (t in m.columns && c in m.columns[t]) || FormColumn(form, t, c)
  }

  ghost predicate FormsAdded(m: TableColumns, r: TableColumns, forms: seq<(string, Value)>)
  {
    (forall t :: t in r.columns <==> t in m.columns || SomeFormTable(forms, t)) &&
    forall t :: t in r.columns ==>
      forall c :: c in r.columns[t] <==> (t in m.columns && c in m.columns[t]) || SomeFormColumn(forms, t, c)
  }

  lemma FieldHasCons(fields: seq<Value>)
    requires fields != []
    ensures forall c :: FieldHas(fields, c) <==>
      (HasColumn(fields[0]) && MapGet(fields[0], "column").s == c) || FieldHas(fields[1..], c)
  {
    forall c | FieldHas(fields[1..], c) ensures FieldHas(fields, c) {
      var i :| 0 <= i < |fields[1..]| && HasColumn(fields[1..][i]) && MapGet(fields[1..][i], "column").s == c;
      assert fields[i + 1] == fields[1..][i];
    }
    forall c | FieldHas(fields, c) && !(HasColumn(fields[0]) && MapGet(fields[0], "column").s == c)
      ensures FieldHas(fields[1..], c)
    {
      var i :| 0 <= i < |fields| && HasColumn(fields[i]) && MapGet(fields[i], "column").s == c;
      assert fields[1..][i - 1] == fields[i];
    }
  }

  lemma SectionsHaveCons(sections: seq<Value>)
    requires sections != []
    ensures forall c :: SectionsHave(sections, c) <==>
      FieldHas(ListOr(sections[0], "fields"), c) || SectionsHave(sections[1..], c)
  {
    forall c | SectionsHave(sections[1..], c) ensures SectionsHave(sections, c) {
      var j :| 0 <= j < |sections[1..]| && FieldHas(ListOr(sections[1..][j], "fields"), c);
      assert sections[j + 1] == sections[1..][j];
    }
    forall c | SectionsHave(sections, c) && !FieldHas(ListOr(sections[0], "fields"), c)
      ensures SectionsHave(sections[1..], c)
    {
      var j :| 0 <= j < |sections| && FieldHas(ListOr(sections[j], "fields"), c);
      assert sections[1..][j - 1] == sections[j];
    }
  }

  lemma GridsCons(grids: seq<Value>)
    requires grids != []
    ensures forall t :: GridsName(grids, t) <==> MapGet(grids[0], "table_name") == Str(t) || GridsName(grids[1..], t)
    ensures forall t, c :: GridsHave(grids, t, c) <==>
      (MapGet(grids[0], "table_name") == Str(t) && FieldHas(ListOr(grids[0], "sub_form_fields"), c)) ||
      GridsHave(grids[1..], t, c)
  {
    forall t | GridsName(grids[1..], t) ensures GridsName(grids, t) {
      var j :| 0 <= j < |grids[1..]| && MapGet(grids[1..][j], "table_name") == Str(t);
      assert grids[j + 1] == grids[1..][j];
    }
    forall t | GridsName(grids, t) && MapGet(grids[0], "table_name") != Str(t) ensures GridsName(grids[1..], t) {
      var j :| 0 <= j < |grids| && MapGet(grids[j], "table_name") == Str(t);
      assert grids[1..][j - 1] == grids[j];
    }
    forall t, c | GridsHave(grids[1..], t, c) ensures GridsHave(grids, t, c) {
      var j :| 0 <= j < |grids[1..]| && MapGet(grids[1..][j], "table_name") == Str(t) &&
        FieldHas(ListOr(grids[1..][j], "sub_form_fields"), c);
      assert grids[j + 1] == grids[1..][j];
    }
    forall t, c | GridsHave(grids, t, c) &&
      !(MapGet(grids[0], "table_name") == Str(t) && FieldHas(ListOr(grids[0], "sub_form_fields"), c))
      ensures GridsHave(grids[1..], t, c)
    {
      var j :| 0 <= j < |grids| && MapGet(grids[j], "table_name") == Str(t) &&
        FieldHas(ListOr(grids[j], "sub_form_fields"), c);
      assert grids[1..][j - 1] == grids[j];
    }
  }

  lemma FormsCons(forms: seq<(string, Value)>)
    requires forms != []
    ensures forall t :: SomeFormTable(forms, t) <==> FormTable(forms[0].1, t) || SomeFormTable(forms[1..], t)
    ensures forall t, c :: SomeFormColumn(forms, t, c) <==> FormColumn(forms[0].1, t, c) || SomeFormColumn(forms[1..], t, c)
  {
    forall t | SomeFormTable(forms[1..], t) ensures SomeFormTable(forms, t) {
      var k :| 0 <= k < |forms[1..]| && FormTable(forms[1..][k].1, t);
      assert forms[k + 1] == forms[1..][k];
    }
    forall t | SomeFormTable(forms, t) && !FormTable(forms[0].1, t) ensures SomeFormTable(forms[1..], t) {
      var k :| 0 <= k < |forms| && FormTable(forms[k].1, t);
      assert forms[1..][k - 1] == forms[k];
    }
    forall t, c | SomeFormColumn(forms[1..], t, c) ensures SomeFormColumn(forms, t, c) {
      var k :| 0 <= k < |forms[1..]| && FormColumn(forms[1..][k].1, t, c);
      assert forms[k + 1] == forms[1..][k];
    }
    forall t, c | SomeFormColumn(forms, t, c) && !FormColumn(forms[0].1, t, c) ensures SomeFormColumn(forms[1..], t, c) {
      var k :| 0 <= k < |forms| && FormColumn(forms[k].1, t, c);
      assert forms[1..][k - 1] == forms[k];
    }
  }

  /** One field adds its column to `t`, when it has one, and nothing else. */
  lemma AddFieldColumnExact(m: TableColumns, t: string, field: Value)
    requires t in m.columns && AddFieldColumn(m, t, field).Ok?
    ensures var r := AddFieldColumn(m, t, field).value;
      r.columns.Keys == m.columns.Keys &&
      forall t', c :: t' in r.columns ==>
        (c in r.columns[t'] <==> c in m.columns[t'] || (t' == t && HasColumn(field) && MapGet(field, "column").s == c))
  {
  }

  lemma {:induction false} AddFieldsExact(m: TableColumns, t: string, fields: seq<Value>)
    requires t in m.columns && AddFields(m, t, fields).Ok?
    ensures FieldsAdded(m, AddFields(m, t, fields).value, t, fields)
    decreases |fields|
  {
    if fields != [] {
      var step := AddFieldColumn(m, t, fields[0]).value;
      AddFieldColumnExact(m, t, fields[0]);
      AddFieldsExact(step, t, fields[1..]);
      FieldHasCons(fields);
    }
  }

  lemma AddSectionExact(m: TableColumns, t: string, section: Value)
    requires t in m.columns && AddSection(m, t, section).Ok?
    ensures FieldsAdded(m, AddSection(m, t, section).value, t, ListOr(section, "fields"))
  {
    if ContainsKey(section, "fields") {
      AddFieldsExact(m, t, MapGet(section, "fields").items);
    }
  }

  lemma {:induction false} AddSectionsExact(m: TableColumns, t: string, sections: seq<Value>)
    requires t in m.columns && AddSections(m, t, sections).Ok?
    ensures SectionsAdded(m, AddSections(m, t, sections).value, t, sections)
    decreases |sections|
  {
    if sections != [] {
      var step := AddSection(m, t, sections[0]).value;
      AddSectionExact(m, t, sections[0]);
      AddSectionsExact(step, t, sections[1..]);
      SectionsHaveCons(sections);
    }
  }

  lemma AddGridExact(m: TableColumns, grid: Value)
    requires AddGrid(m, grid).Ok?
    ensures GridsAdded(m, AddGrid(m, grid).value, [grid])
  {
    GridsCons([grid]);
    var r := AddGrid(m, grid).value;
    var name := MapGet(grid, "table_name");
    var fields := ListOr(grid, "sub_form_fields");
    assert forall t :: GridsName([grid], t) <==> name == Str(t);
    assert forall t, c :: GridsHave([grid], t, c) <==> name == Str(t) && FieldHas(fields, c);
    if name.Str? {
      var m' := ComputeIfAbsent(m, name.s);
      if ContainsKey(grid, "sub_form_fields") {
        AddFieldsExact(m', name.s, MapGet(grid, "sub_form_fields").items);
      } else {
        assert r == m' && fields == [];
      }
      forall t, c | t in r.columns
        ensures c in r.columns[t] <==> (t in m.columns && c in m.columns[t]) || (name == Str(t) && FieldHas(fields, c))
      {
        assert c in r.columns[t] <==> c in m'.columns[t] || (t == name.s && FieldHas(fields, c));
      }
    }
  }

  lemma {:induction false} AddGridsExact(m: TableColumns, grids: seq<Value>)
    requires AddGrids(m, grids).Ok?
    ensures GridsAdded(m, AddGrids(m, grids).value, grids)
    decreases |grids|
  {
    if grids != [] {
      var step := AddGrid(m, grids[0]).value;
      AddGridExact(m, grids[0]);
      AddGridsExact(step, grids[1..]);
      GridsCons(grids);
      GridsCons([grids[0]]);
    }
  }

  lemma AddTableFormExact(m: TableColumns, t: string, form: Value)
    requires t in m.columns && AddTableForm(m, t, form).Ok?
    ensures var r := AddTableForm(m, t, form).value;
      (forall t' :: t' in r.columns <==> t' in m.columns || GridsName(ListOr(form, "grids"), t')) &&
      forall t' :: t' in r.columns ==>
        forall c :: c in r.columns[t'] <==>
          (t' in m.columns && c in m.columns[t']) ||
          (t' == t && (SectionsHave(ListOr(form, "sections"), c) || FieldHas(ListOr(form, "all_fields"), c))) ||
          GridsHave(ListOr(form, "grids"), t', c)
  {
    var r := AddTableForm(m, t, form).value;
    var sections := ListUnder(form, "sections").value;
    var afterSections := AddSections(m, t, sections).value;
    AddSectionsExact(m, t, sections);
    var allFields := ListUnder(form, "all_fields").value;
    var afterFields := AddFields(afterSections, t, allFields).value;
    AddFieldsExact(afterSections, t, allFields);
    var grids := ListUnder(form, "grids").value;
    assert r == AddGrids(afterFields, grids).value;
    AddGridsExact(afterFields, grids);
    assert sections == ListOr(form, "sections") && allFields == ListOr(form, "all_fields") && grids == ListOr(form, "grids");
    forall t', c | t' in r.columns
      ensures c in r.columns[t'] <==>
        ((t' in m.columns && c in m.columns[t']) ||
         (t' == t && (SectionsHave(sections, c) || FieldHas(allFields, c))) ||
         GridsHave(grids, t', c))
    {
      if t' in m.columns {
        assert c in afterFields.columns[t'] <==> c in afterSections.columns[t'] || (t' == t && FieldHas(allFields, c));
        assert c in afterSections.columns[t'] <==> c in m.columns[t'] || (t' == t && SectionsHave(sections, c));
      }
    }
  }

  lemma AddFormExact(m: TableColumns, form: Value)
    requires AddForm(m, form).Ok?
    ensures FormAdded(m, AddForm(m, form).value, form)
  {
    var r := AddForm(m, form).value;
    var name := MapGet(form, "table_name");
    if name.Str? {
      var m' := ComputeIfAbsent(m, name.s);
      assert r == AddTableForm(m', name.s, form).value;
      AddTableFormExact(m', name.s, form);
      forall t | t in r.columns
        ensures forall c :: c in r.columns[t] <==> (t in m.columns && c in m.columns[t]) || FormColumn(form, t, c)
      {
        if t in m.columns {
          assert m'.columns[t] == m.columns[t];
        } else if t in m'.columns {
          assert m'.columns[t] == [];
        }
      }
    } else {
      assert r == m;
    }
  }

  lemma {:induction false} AddFormsExact(m: TableColumns, forms: seq<(string, Value)>)
    requires AddForms(m, forms).Ok?
    ensures FormsAdded(m, AddForms(m, forms).value, forms)
    decreases |forms|
  {
    if forms != [] {
      var step := AddForm(m, forms[0].1).value;
      AddFormExact(m, forms[0].1);
      AddFormsExact(step, forms[1..]);
      FormsCons(forms);
    }
  }

  /**
   * The parsed map holds exactly what the forms contribute: a table is a
   * key exactly when a form with a table name names it or one of its grids
   * does, and a column is in a table's set exactly when a field of such a
   * form (in a section or `all_fields`) or of such a grid carries it.
   */
  lemma ParseExact(data: Value)
    requires ParseSpec(data).Ok? && ContainsKey(data, "forms")
    ensures MapGet(data, "forms").Dict?
    ensures var r := ParseSpec(data).value; var forms := MapGet(data, "forms").entries;
      (forall t :: t in r.columns <==> SomeFormTable(forms, t)) &&
      forall t, c :: t in r.columns ==> (c in r.columns[t] <==> SomeFormColumn(forms, t, c))
  {
    AddFormsExact(EMPTY, MapGet(data, "forms").entries);
  }

  /** The column of a field in a section of a form with a table name is in that table's set. */
  lemma ParseListsSection(data: Value, k: nat, j: nat, i: nat)
    requires ParseSpec(data).Ok? && ContainsKey(data, "forms")
    requires k < |MapGet(data, "forms").entries|
    requires var form := MapGet(data, "forms").entries[k].1;
      MapGet(form, "table_name").Str? &&
      j < |ListOr(form, "sections")| && i < |ListOr(ListOr(form, "sections")[j], "fields")| &&
      HasColumn(ListOr(ListOr(form, "sections")[j], "fields")[i])
    ensures var form := MapGet(data, "forms").entries[k].1; var t := MapGet(form, "table_name").s;
      t in ParseSpec(data).value.columns &&
      MapGet(ListOr(ListOr(form, "sections")[j], "fields")[i], "column").s in ParseSpec(data).value.columns[t]
  {
    var forms := MapGet(data, "forms").entries;
    var form := forms[k].1;
    var t := MapGet(form, "table_name").s;
    var c := MapGet(ListOr(ListOr(form, "sections")[j], "fields")[i], "column").s;
    ParseExact(data);
    assert FieldHas(ListOr(ListOr(form, "sections")[j], "fields"), c);
    assert FormColumn(form, t, c) && FormTable(form, t);
  }

  /** A grid with a table name is a key, and the column of each of its sub-form fields is in its set. */
  lemma ParseListsGrid(data: Value, k: nat, j: nat, i: nat)
    requires ParseSpec(data).Ok? && ContainsKey(data, "forms")
    requires k < |MapGet(data, "forms").entries|
    requires var form := MapGet(data, "forms").entries[k].1;
      MapGet(form, "table_name").Str? && j < |ListOr(form, "grids")| &&
      MapGet(ListOr(form, "grids")[j], "table_name").Str?
    ensures var grid := ListOr(MapGet(data, "forms").entries[k].1, "grids")[j];
      var g := MapGet(grid, "table_name").s;
      g in ParseSpec(data).value.columns &&
      (i < |ListOr(grid, "sub_form_fields")| && HasColumn(ListOr(grid, "sub_form_fields")[i]) ==>
        MapGet(ListOr(grid, "sub_form_fields")[i], "column").s in ParseSpec(data).value.columns[g])
  {
    var forms := MapGet(data, "forms").entries;
    var form := forms[k].1;
    var grid := ListOr(form, "grids")[j];
    var g := MapGet(grid, "table_name").s;
    ParseExact(data);
    assert GridsName(ListOr(form, "grids"), g);
    assert FormTable(form, g);
    if i < |ListOr(grid, "sub_form_fields")| && HasColumn(ListOr(grid, "sub_form_fields")[i]) {
      var c := MapGet(ListOr(grid, "sub_form_fields")[i], "column").s;
      assert FieldHas(ListOr(grid, "sub_form_fields"), c);
      assert GridsHave(ListOr(form, "grids"), g, c);
      assert FormColumn(form, g, c);
    }
  }

  /**
   * Nothing else gets in: every table of the parsed map is named by a form
   * or a grid, and every column comes from a field under a form or grid of
   * that name.
   */
  lemma ParseSound(data: Value, t: string, c: string)
    requires ParseSpec(data).Ok? && ContainsKey(data, "forms")
    ensures t in ParseSpec(data).value.columns ==> SomeFormTable(MapGet(data, "forms").entries, t)
    ensures t in ParseSpec(data).value.columns && c in ParseSpec(data).value.columns[t] ==>
      SomeFormColumn(MapGet(data, "forms").entries, t, c)
  {
    ParseExact(data);
  }

  /** Every failure surfaces as the parser's own RuntimeException message. */
  lemma ParseErrorsWrapped(data: Value)
    ensures ParseSpec(data).Err? ==> JavaStr.StartsWith(ParseSpec(data).message, FAILED)
  {
    var r := ParseSpec(data);
    if r.Err? {
      var forms := MapGet(data, "forms");
      if !data.Dict? {
        assert (FAILED + CLASS_CAST)[..|FAILED|] == FAILED;
      } else if !forms.Dict? {
        assert (FAILED + NotMap(forms))[..|FAILED|] == FAILED;
      } else {
        assert (FAILED + AddForms(EMPTY, forms.entries).message)[..|FAILED|] == FAILED;
      }
    }
  }
}
