/**
 * MappingValidator: how many of the fields a form structure declares have
 * a mapping in services.yml. System fields and key references need none;
 * every other field counts, and those whose id no mapping names are
 * listed as unmapped. The structure lookup is a parameter.
 */
module MappingValidatorModel {
  import opened Wrappers
  import opened JavaStr
  import opened JavaValues

  /** Audit fields every form row carries. */
  const SYSTEM_FIELDS: seq<string> :=
    ["id", "dateCreated", "dateModified", "createdBy", "modifiedBy", "createdByName", "modifiedByName"]

  /** The seven top-level forms, in the order they are checked. */
  const FORM_NAMES: seq<string> :=
    ["farmerBasicInfo", "farmerLocation", "farmerAgriculture", "farmerCropsLivestock",
     "farmerHousehold", "farmerIncomePrograms", "farmerDeclaration"]

  /** Grid forms and the services.yml sections they are mapped by. */
  const GRID_FORMS: seq<(string, string)> :=
    [("householdMemberForm", "householdMembers"),
     ("cropManagementForm", "cropManagement"),
     ("livestockDetailsForm", "livestockDetails")]

  /** `isSystemField`: no id, an audit field, or a key reference; the type plays no part. */
  predicate IsSystemField(fieldId: Option<string>, fieldType: Option<string>)
  {
    fieldId.None? || fieldId.value in SYSTEM_FIELDS ||
    EndsWith(fieldId.value, "_id") || EndsWith(fieldId.value, "_key")
  }

  /** `FormCoverage` without its percentage. */
  datatype FormCoverage = FormCoverage(formName: string, totalFields: int, mappedFields: int, unmappedFields: seq<string>)

  // ---- the ids the mappings name ----

  /**
   * The ids a list of mapped fields names, added to `acc`: each `joget`,
   * and each `field_id` too unless `jogetOnly`. None when a field is not a
   * map or a name is not a string.
   */
  function CollectIds(mappedFields: seq<Value>, jogetOnly: bool, acc: set<string>): Option<set<string>>
    decreases |mappedFields|
  {
    if mappedFields == [] then Some(acc)
    else
      var field := mappedFields[0];
      if !field.Dict? then None
      else
        var joget := CastStr(MapGet(field, "joget"));
        var fieldId := if jogetOnly then Ok(None) else CastStr(MapGet(field, "field_id"));
        if joget.Err? || fieldId.Err? then None
        else
          var acc' := acc + (if joget.value.Some? then {joget.value.value} else {});
          var acc'' := acc' + (if fieldId.value.Some? then {fieldId.value.value} else {});
          CollectIds(mappedFields[1..], jogetOnly, acc'')
  }

  /** The names a single mapped field contributes. */
  function NamesOf(field: Value, jogetOnly: bool): set<string>
  {
    (if MapGet(field, "joget").Str? then {MapGet(field, "joget").s} else {}) +
    (if !jogetOnly && MapGet(field, "field_id").Str? then {MapGet(field, "field_id").s} else {})
  }

  /** Every name any of the mapped fields gives. */
  ghost function AllNames(mappedFields: seq<Value>, jogetOnly: bool): set<string>
  {
    set j, x | 0 <= j < |mappedFields| && x in NamesOf(mappedFields[j], jogetOnly) :: x
  }

  /** The collected ids are exactly the names the mappings give. */
  lemma {:induction false} CollectIdsNames(mappedFields: seq<Value>, jogetOnly: bool, acc: set<string>)
    ensures CollectIds(mappedFields, jogetOnly, acc).Some? ==>
      CollectIds(mappedFields, jogetOnly, acc).value == acc + AllNames(mappedFields, jogetOnly)
    decreases |mappedFields|
  {
    if mappedFields != [] && mappedFields[0].Dict? {
      var field := mappedFields[0];
      var rest := mappedFields[1..];
      var joget := CastStr(MapGet(field, "joget"));
      var fieldId := if jogetOnly then Ok(None) else CastStr(MapGet(field, "field_id"));
      if joget.Ok? && fieldId.Ok? {
        var acc' := acc + NamesOf(field, jogetOnly);
        assert acc + (if joget.value.Some? then {joget.value.value} else {}) +
          (if fieldId.value.Some? then {fieldId.value.value} else {}) == acc';
        CollectIdsNames(rest, jogetOnly, acc');
        assert AllNames(mappedFields, jogetOnly) == NamesOf(field, jogetOnly) + AllNames(rest, jogetOnly) by {
          forall x | x in AllNames(mappedFields, jogetOnly)
            ensures x in NamesOf(field, jogetOnly) + AllNames(rest, jogetOnly)
          {
            var j :| 0 <= j < |mappedFields| && x in NamesOf(mappedFields[j], jogetOnly);
            if j > 0 {
              assert rest[j - 1] == mappedFields[j];
            }
          }
          forall x | x in AllNames(rest, jogetOnly)
            ensures x in AllNames(mappedFields, jogetOnly)
          {
            var j :| 0 <= j < |rest| && x in NamesOf(rest[j], jogetOnly);
            assert mappedFields[j + 1] == rest[j];
          }
        }
      }
    }
  }

  // ---- counting the structure's fields ----

  /**
   * The structure loop from `total` fields counted and `unmapped` listed:
   * None when a field is not a map or its id or type is not a string.
   */
  function Tally(fields: seq<Value>, mapped: set<string>, total: nat, unmapped: seq<string>): Option<(nat, seq<string>)>
    decreases |fields|
  {
    if fields == [] then Some((total, unmapped))
    else
      var field := fields[0];
      if !field.Dict? then None
      else
        var fieldId := CastStr(MapGet(field, "field_id"));
        var fieldType := CastStr(MapGet(field, "type"));
        if fieldId.Err? || fieldType.Err? then None
        else if IsSystemField(fieldId.value, fieldType.value) then Tally(fields[1..], mapped, total, unmapped)
        else if fieldId.value.value in mapped then Tally(fields[1..], mapped, total + 1, unmapped)
        else Tally(fields[1..], mapped, total + 1, unmapped + [fieldId.value.value])
  }

  /** A structure field whose `field_id` and `type` read as strings or null. */
  predicate Readable(field: Value)
  {
    field.Dict? && CastStr(MapGet(field, "field_id")).Ok? && CastStr(MapGet(field, "type")).Ok?
  }

  /** The ids of the fields that need a mapping, in structure order. */
  function Counted(fields: seq<Value>): (r: seq<string>)
    ensures |r| <= |fields|
  {
    if fields == [] then []
    else
      var id := StrOf(MapGet(fields[0], "field_id"));
      var tail := Counted(fields[1..]);
      if IsSystemField(id, StrOf(MapGet(fields[0], "type"))) then tail else [id.value] + tail
  }

  /** The ids not in `mapped`, in order. */
  function Missing(ids: seq<string>, mapped: set<string>): (r: seq<string>)
    ensures |r| <= |ids|
    ensures forall x :: x in r <==> x in ids && x !in mapped
  {
    if ids == [] then []
    else if ids[0] in mapped then Missing(ids[1..], mapped)
    else [ids[0]] + Missing(ids[1..], mapped)
  }

  lemma MissingCons(id: string, ids: seq<string>, mapped: set<string>)
    ensures Missing([id] + ids, mapped) == if id in mapped then Missing(ids, mapped) else [id] + Missing(ids, mapped)
  {
    assert ([id] + ids)[1..] == ids;
  }

  /** How many ids are in `mapped`. */
  function Found(ids: seq<string>, mapped: set<string>): nat
  {
    if ids == [] then 0 else (if ids[0] in mapped then 1 else 0) + Found(ids[1..], mapped)
  }

  /** Every counted id is either found or missing. */
  lemma {:induction false} FoundPlusMissing(ids: seq<string>, mapped: set<string>)
    ensures Found(ids, mapped) + |Missing(ids, mapped)| == |ids|
  {
    if ids != [] {
      FoundPlusMissing(ids[1..], mapped);
    }
  }

  /** The structure loop fails exactly when some field cannot be read. */
  lemma {:induction false} TallyReadable(fields: seq<Value>, mapped: set<string>, total: nat, unmapped: seq<string>)
    ensures Tally(fields, mapped, total, unmapped).Some? <==> forall k :: 0 <= k < |fields| ==> Readable(fields[k])
    decreases |fields|
  {
    if fields != [] && Readable(fields[0]) {
      var rest := fields[1..];
      var id := CastStr(MapGet(fields[0], "field_id")).value;
      TallyReadable(rest, mapped, total, unmapped);
      TallyReadable(rest, mapped, total + 1, unmapped);
      TallyReadable(rest, mapped, total + 1, unmapped + [id.GetOr("")]);
      assert forall k :: 1 <= k < |fields| ==> fields[k] == rest[k - 1];
    }
  }

  /**
   * The structure loop counts exactly the fields that need a mapping and
   * lists, in order, those of them the mappings do not name.
   */
  lemma {:induction false} TallyCounts(fields: seq<Value>, mapped: set<string>, total: nat, unmapped: seq<string>)
    ensures Tally(fields, mapped, total, unmapped).Some? ==>
      Tally(fields, mapped, total, unmapped).value == (total + |Counted(fields)|, unmapped + Missing(Counted(fields), mapped))
    decreases |fields|
  {
    if fields == [] {
      assert unmapped + Missing(Counted(fields), mapped) == unmapped;
    } else if Readable(fields[0]) {
      var rest := fields[1..];
      var id := StrOf(MapGet(fields[0], "field_id"));
      var ids := Counted(rest);
      var m := Missing(ids, mapped);
      TallyStep(fields, mapped, total, unmapped);
      if IsSystemField(id, StrOf(MapGet(fields[0], "type"))) {
        assert Counted(fields) == ids;
        TallyCounts(rest, mapped, total, unmapped);
      } else {
        assert Counted(fields) == [id.value] + ids;
        assert Missing(Counted(fields), mapped) == (if id.value in mapped then m else [id.value] + m) by {
          MissingCons(id.value, ids, mapped);
        }
        if id.value in mapped {
          assert Tally(fields, mapped, total, unmapped) == Tally(rest, mapped, total + 1, unmapped);
          TallyCounts(rest, mapped, total + 1, unmapped);
        } else {
          assert Tally(fields, mapped, total, unmapped) == Tally(rest, mapped, total + 1, unmapped + [id.value]);
          TallyCounts(rest, mapped, total + 1, unmapped + [id.value]);
          assert unmapped + [id.value] + m == unmapped + ([id.value] + m);
        }
      }
    }
  }

  /** One readable field: skipped when a system field, else counted and, when not mapped, listed. */
  lemma TallyStep(fields: seq<Value>, mapped: set<string>, total: nat, unmapped: seq<string>)
    requires fields != [] && Readable(fields[0])
    ensures var id := StrOf(MapGet(fields[0], "field_id"));
      Tally(fields, mapped, total, unmapped) ==
        if IsSystemField(id, StrOf(MapGet(fields[0], "type"))) then Tally(fields[1..], mapped, total, unmapped)
        else if id.value in mapped then Tally(fields[1..], mapped, total + 1, unmapped)
        else Tally(fields[1..], mapped, total + 1, unmapped + [id.value])
  {
    assert CastStr(MapGet(fields[0], "field_id")).value == StrOf(MapGet(fields[0], "field_id"));
    assert CastStr(MapGet(fields[0], "type")).value == StrOf(MapGet(fields[0], "type"));
  }

  // ---- one form ----

  /** The mapped fields of a section: its `fields` when that is a list, else none; a non-map section throws. */
  function MappedFields(sectionConfig: Value): Option<seq<Value>>
  {
    if sectionConfig.Null? then Some([])
    else if !sectionConfig.Dict? then None
    else if MapGet(sectionConfig, "fields").List? then Some(MapGet(sectionConfig, "fields").items)
    else Some([])
  }

  /**
   * The coverage `processForm` or `processGridForm` reports under `title`:
   * none for a form without fields, one that has no field needing a
   * mapping, or one whose processing throws.
   */
  function CoverageSpec(title: string, structureFields: Option<seq<Value>>, sectionConfig: Value, jogetOnly: bool): Option<FormCoverage>
  {
    if structureFields.None? || structureFields.value == [] then None
    else
      var mappedFields := MappedFields(sectionConfig);
      if mappedFields.None? then None
      else
        var ids := CollectIds(mappedFields.value, jogetOnly, {});
        if ids.None? then None
        else
          var tally := Tally(structureFields.value, ids.value, 0, []);
          if tally.None? || tally.value.0 == 0 then None
          else Some(FormCoverage(title, tally.value.0, tally.value.0 - |tally.value.1|, tally.value.1))
  }

  /**
   * What a reported coverage says: the counted fields, those of them the
   * mappings do not name, and the rest as mapped.
   */
  lemma CoverageMeaning(title: string, structureFields: Option<seq<Value>>, sectionConfig: Value, jogetOnly: bool)
    requires CoverageSpec(title, structureFields, sectionConfig, jogetOnly).Some?
    ensures var c := CoverageSpec(title, structureFields, sectionConfig, jogetOnly).value;
      var names := AllNames(MappedFields(sectionConfig).value, jogetOnly);
      c.formName == title &&
      c.totalFields == |Counted(structureFields.value)| > 0 &&
      c.unmappedFields == Missing(Counted(structureFields.value), names) &&
      c.mappedFields == Found(Counted(structureFields.value), names) &&
      0 <= c.mappedFields <= c.totalFields
  {
    var mappedFields := MappedFields(sectionConfig).value;
    CollectIdsNames(mappedFields, jogetOnly, {});
    assert {} + AllNames(mappedFields, jogetOnly) == AllNames(mappedFields, jogetOnly);
    var names := AllNames(mappedFields, jogetOnly);
    TallyCounts(structureFields.value, names, 0, []);
    FoundPlusMissing(Counted(structureFields.value), names);
  }

  /** A form whose fields all need no mapping adds no coverage entry. */
  lemma NothingCountedNoCoverage(title: string, structureFields: seq<Value>, sectionConfig: Value, jogetOnly: bool)
    requires Counted(structureFields) == []
    ensures CoverageSpec(title, Some(structureFields), sectionConfig, jogetOnly).None?
  {
    var mappedFields := MappedFields(sectionConfig);
    if structureFields != [] && mappedFields.Some? {
      var ids := CollectIds(mappedFields.value, jogetOnly, {});
      if ids.Some? {
        TallyCounts(structureFields, ids.value, 0, []);
      }
    }
  }

  /** A form no mapping names at all reports every counted field unmapped. */
  lemma NothingMapped(title: string, structureFields: seq<Value>, jogetOnly: bool)
    requires CoverageSpec(title, Some(structureFields), Null, jogetOnly).Some?
    ensures CoverageSpec(title, Some(structureFields), Null, jogetOnly).value.mappedFields == 0
    ensures CoverageSpec(title, Some(structureFields), Null, jogetOnly).value.unmappedFields == Counted(structureFields)
  {
    assert AllNames([], jogetOnly) == {};
    CoverageMeaning(title, Some(structureFields), Null, jogetOnly);
    MissingNone(Counted(structureFields));
  }

  lemma {:induction false} MissingNone(ids: seq<string>)
    ensures Missing(ids, {}) == ids && Found(ids, {}) == 0
  {
    if ids != [] {
      MissingNone(ids[1..]);
    }
  }

  /** The mapped-id loop of `processForm` (`jogetOnly` false) and `processGridForm` (true). */
  method MappedFieldIds(mappedFields: seq<Value>, jogetOnly: bool) returns (ids: Option<set<string>>)
    ensures ids == CollectIds(mappedFields, jogetOnly, {})
  {
    var mappedFieldIds: set<string> := {};
    var i := 0;
    while i < |mappedFields|
      invariant 0 <= i <= |mappedFields|
      invariant CollectIds(mappedFields[i..], jogetOnly, mappedFieldIds) == CollectIds(mappedFields, jogetOnly, {})
    {
      assert mappedFields[i..][1..] == mappedFields[i + 1..];
      var field := mappedFields[i];
      if !field.Dict? {
        return None;
      }
      var joget := CastStr(MapGet(field, "joget"));
      var fieldId := if jogetOnly then Ok(None) else CastStr(MapGet(field, "field_id"));
      if joget.Err? || fieldId.Err? {
        return None;
      }
      ghost var next := mappedFieldIds + (if joget.value.Some? then {joget.value.value} else {}) +
        (if fieldId.value.Some? then {fieldId.value.value} else {});
      if joget.value.Some? {
        mappedFieldIds := mappedFieldIds + {joget.value.value};
      }
      if fieldId.value.Some? {
        mappedFieldIds := mappedFieldIds + {fieldId.value.value};
      }
      assert mappedFieldIds == next;
      i := i + 1;
    }
    ids := Some(mappedFieldIds);
  }

  /** The structure loop: how many fields need a mapping and which of them have none. */
  method CountFields(structureFields: seq<Value>, mapped: set<string>) returns (r: Option<(nat, seq<string>)>)
    ensures r == Tally(structureFields, mapped, 0, [])
  {
    var unmappedFields: seq<string> := [];
    var totalFields: nat := 0;
    var i := 0;
    while i < |structureFields|
      invariant 0 <= i <= |structureFields|
      invariant Tally(structureFields[i..], mapped, totalFields, unmappedFields) == Tally(structureFields, mapped, 0, [])
    {
      assert structureFields[i..][1..] == structureFields[i + 1..];
      var field := structureFields[i];
      if !field.Dict? {
        return None;
      }
      var fieldId := CastStr(MapGet(field, "field_id"));
      var fieldType := CastStr(MapGet(field, "type"));
      if fieldId.Err? || fieldType.Err? {
        return None;
      }
      if !IsSystemField(fieldId.value, fieldType.value) {
        totalFields := totalFields + 1;
        if fieldId.value.value !in mapped {
          unmappedFields := unmappedFields + [fieldId.value.value];
        }
      }
      i := i + 1;
    }
    r := Some((totalFields, unmappedFields));
  }

  /** The shared body of `processForm` and `processGridForm`, up to the report. */
  method MeasureCoverage(title: string, structureFields: Option<seq<Value>>, sectionConfig: Value, jogetOnly: bool)
    returns (c: Option<FormCoverage>)
    ensures c == CoverageSpec(title, structureFields, sectionConfig, jogetOnly)
  {
    if structureFields.None? || structureFields.value == [] {
      return None;
    }
    var mappedFields := MappedFields(sectionConfig);
    if mappedFields.None? {
      return None;
    }
    var ids := MappedFieldIds(mappedFields.value, jogetOnly);
    if ids.None? {
      return None;
    }
    var tally := CountFields(structureFields.value, ids.value);
    if tally.None? || tally.value.0 == 0 {
      return None;
    }
    var mappedCount := tally.value.0 - |tally.value.1|;
    c := Some(FormCoverage(title, tally.value.0, mappedCount, tally.value.1));
  }

  // ---- the report ----

  function SumTotals(cs: seq<FormCoverage>): int
  {
    if cs == [] then 0 else SumTotals(cs[..|cs| - 1]) + cs[|cs| - 1].totalFields
  }

  function SumMapped(cs: seq<FormCoverage>): int
  {
    if cs == [] then 0 else SumMapped(cs[..|cs| - 1]) + cs[|cs| - 1].mappedFields
  }

  /** A coverage as `processForm` makes it: something counted, mapped within the count. */
  predicate Sound(c: FormCoverage)
  {
    0 < c.totalFields && 0 <= c.mappedFields <= c.totalFields
  }

  /** `ValidationReport`: the coverages and the errors gathered so far. */
  class ValidationReport {
    var formCoverages: seq<FormCoverage>
    var errors: seq<string>

    constructor()
      ensures formCoverages == [] && errors == []
    {
      formCoverages := [];
      errors := [];
    }

    method AddFormCoverage(c: FormCoverage)
      modifies this
      ensures formCoverages == old(formCoverages) + [c] && errors == old(errors)
      ensures TotalFields() == old(TotalFields()) + c.totalFields
      ensures TotalMapped() == old(TotalMapped()) + c.mappedFields
    {
      formCoverages := formCoverages + [c];
      assert formCoverages[..|formCoverages| - 1] == old(formCoverages);
    }

    method AddError(error: string)
      modifies this
      ensures errors == old(errors) + [error] && formCoverages == old(formCoverages)
      ensures HasErrors()
    {
      errors := errors + [error];
    }

    /** `getTotalFields`: the counted fields over all coverages. */
    function TotalFields(): int
      reads this
    {
      SumTotals(formCoverages)
    }

    /** `getTotalMapped`. */
    function TotalMapped(): int
      reads this
    {
      SumMapped(formCoverages)
    }

    predicate HasErrors()
      reads this
    {
      errors != []
    }
  }

  /** Over sound coverages, the mapped total never exceeds the field total, and both are non-negative. */
  lemma {:induction false} MappedWithinTotal(cs: seq<FormCoverage>)
    requires forall k :: 0 <= k < |cs| ==> Sound(cs[k])
    ensures 0 <= SumMapped(cs) <= SumTotals(cs)
    ensures cs != [] ==> SumTotals(cs) > 0
  {
    if cs != [] {
      MappedWithinTotal(cs[..|cs| - 1]);
    }
  }

  /** Every coverage the validator reports is sound. */
  lemma CoverageSound(title: string, structureFields: Option<seq<Value>>, sectionConfig: Value, jogetOnly: bool)
    requires CoverageSpec(title, structureFields, sectionConfig, jogetOnly).Some?
    ensures Sound(CoverageSpec(title, structureFields, sectionConfig, jogetOnly).value)
  {
    CoverageMeaning(title, structureFields, sectionConfig, jogetOnly);
  }

  // ---- the whole validation ----

  /** The coverages of the listed top-level forms, each under its own name. */
  function FormCoverages(names: seq<string>, formMappings: Value, structure: string -> Option<seq<Value>>): seq<FormCoverage>
  {
    if names == [] then []
    else
      var prev := FormCoverages(names[..|names| - 1], formMappings, structure);
      var name := names[|names| - 1];
      var c := CoverageSpec(name, structure(name), MapGet(formMappings, name), false);
      if c.Some? then prev + [c.value] else prev
  }

  /** The coverages of the listed grid forms, labelled "form → section", counting `joget` only. */
  function GridCoverages(grids: seq<(string, string)>, formMappings: Value, structure: string -> Option<seq<Value>>): seq<FormCoverage>
  {
    if grids == [] then []
    else
      var prev := GridCoverages(grids[..|grids| - 1], formMappings, structure);
      var g := grids[|grids| - 1];
      var c := CoverageSpec(g.0 + " → " + g.1, structure(g.0), MapGet(formMappings, g.1), true);
      if c.Some? then prev + [c.value] else prev
  }

  /**
   * `validate` over the services.yml form mappings (null when they did not
   * load) and the form-structure lookup.
   */
  method Validate(formMappings: Value, structure: string -> Option<seq<Value>>) returns (report: ValidationReport)
    requires formMappings.Null? || formMappings.Dict?
    ensures formMappings.Null? ==> report.errors == ["Failed to load services.yml form mappings"] && report.formCoverages == []
    ensures formMappings.Dict? ==> report.errors == []
    ensures formMappings.Dict? ==>
      report.formCoverages == FormCoverages(FORM_NAMES, formMappings, structure) + GridCoverages(GRID_FORMS, formMappings, structure)
  {
    report := new ValidationReport();
    if formMappings.Null? {
      report.AddError("Failed to load services.yml form mappings");
      return;
    }
    MeasureForms(report, FORM_NAMES, formMappings, structure);
    MeasureGrids(report, GRID_FORMS, formMappings, structure);
  }

  /** The first loop of `validate`: one coverage for each named form that has a structure. */
  method MeasureForms(report: ValidationReport, names: seq<string>, formMappings: Value, structure: string -> Option<seq<Value>>)
    modifies report
    ensures report.errors == old(report.errors)
    ensures report.formCoverages == old(report.formCoverages) + FormCoverages(names, formMappings, structure)
  {
    var i := 0;
    while i < |names|
      invariant 0 <= i <= |names|
      invariant report.errors == old(report.errors)
      invariant report.formCoverages == old(report.formCoverages) + FormCoverages(names[..i], formMappings, structure)
    {
      assert names[..i + 1][..i] == names[..i];
      var c := MeasureCoverage(names[i], structure(names[i]), MapGet(formMappings, names[i]), false);
      if c.Some? {
        report.AddFormCoverage(c.value);
      }
      i := i + 1;
    }
    assert names[..i] == names;
  }

  /** The second loop of `validate`: one coverage for each grid form that has a structure. */
  method MeasureGrids(report: ValidationReport, grids: seq<(string, string)>, formMappings: Value, structure: string -> Option<seq<Value>>)
    modifies report
    ensures report.errors == old(report.errors)
    ensures report.formCoverages == old(report.formCoverages) + GridCoverages(grids, formMappings, structure)
  {
    var j := 0;
    while j < |grids|
      invariant 0 <= j <= |grids|
      invariant report.errors == old(report.errors)
      invariant report.formCoverages == old(report.formCoverages) + GridCoverages(grids[..j], formMappings, structure)
    {
      assert grids[..j + 1][..j] == grids[..j];
      var formName := grids[j].0;
      var sectionName := grids[j].1;
      var c := MeasureCoverage(formName + " → " + sectionName, structure(formName), MapGet(formMappings, sectionName), true);
      if c.Some? {
        report.AddFormCoverage(c.value);
      }
      j := j + 1;
    }
    assert grids[..j] == grids;
  }

  // ---- properties ----

  /** The validator's report is never in error once the mappings loaded, and its totals are consistent. */
  lemma {:induction false} FormCoveragesSound(names: seq<string>, formMappings: Value, structure: string -> Option<seq<Value>>)
    ensures forall k :: 0 <= k < |FormCoverages(names, formMappings, structure)| ==>
      Sound(FormCoverages(names, formMappings, structure)[k])
  {
    if names != [] {
      FormCoveragesSound(names[..|names| - 1], formMappings, structure);
      var name := names[|names| - 1];
      if CoverageSpec(name, structure(name), MapGet(formMappings, name), false).Some? {
        CoverageSound(name, structure(name), MapGet(formMappings, name), false);
      }
    }
  }

  lemma {:induction false} GridCoveragesSound(grids: seq<(string, string)>, formMappings: Value, structure: string -> Option<seq<Value>>)
    ensures forall k :: 0 <= k < |GridCoverages(grids, formMappings, structure)| ==>
      Sound(GridCoverages(grids, formMappings, structure)[k])
  {
    if grids != [] {
      GridCoveragesSound(grids[..|grids| - 1], formMappings, structure);
      var g := grids[|grids| - 1];
      if CoverageSpec(g.0 + " → " + g.1, structure(g.0), MapGet(formMappings, g.1), true).Some? {
        CoverageSound(g.0 + " → " + g.1, structure(g.0), MapGet(formMappings, g.1), true);
      }
    }
  }

  /** Over any validation, the overall mapped count lies between 0 and the overall field count. */
  lemma ValidationTotals(formMappings: Value, structure: string -> Option<seq<Value>>)
    ensures var cs := FormCoverages(FORM_NAMES, formMappings, structure) + GridCoverages(GRID_FORMS, formMappings, structure);
      0 <= SumMapped(cs) <= SumTotals(cs)
  {
    var cs := FormCoverages(FORM_NAMES, formMappings, structure) + GridCoverages(GRID_FORMS, formMappings, structure);
    FormCoveragesSound(FORM_NAMES, formMappings, structure);
    GridCoveragesSound(GRID_FORMS, formMappings, structure);
    MappedWithinTotal(cs);
  }

  /** Which ids need no mapping. */
  lemma SystemFieldExamples(name: string)
    ensures IsSystemField(None, None)
    ensures IsSystemField(Some("dateCreated"), Some("hidden"))
    ensures IsSystemField(Some(name + "_id"), None) && IsSystemField(Some(name + "_key"), None)
    ensures !IsSystemField(Some("first_name"), Some("textField"))
    ensures !IsSystemField(Some("identifier"), None)
  {
    assert (name + "_id")[|name + "_id"| - 3..] == "_id";
    assert (name + "_key")[|name + "_key"| - 4..] == "_key";
    assert "first_name"[|"first_name"| - 3..] != "_id";
  }
}
