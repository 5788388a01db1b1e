/**
 * ServicesYamlGenerator: derives the services.yml mapping configuration
 * from a parsed form structure and the mapping hints. The form structure
 * is the parsed YAML as a value; its `forms` mapping is iterated in YAML
 * order. Reading and writing the YAML files is not part of this model.
 */
module ServicesYamlGeneratorModel {
  import opened Wrappers
  import opened JavaStr
  import opened JavaValues
  import opened SortedStrings
  import opened MappingHintsModel

  // ---- reading the form structure ----

  /** `formStructure.get("forms")`, in YAML order; None when there is none. */
  function Forms(formStructure: Value): Option<seq<(string, Value)>>
  {
    var f := MapGet(formStructure, "forms");
    if f.Dict? then Some(f.entries) else None
  }

  /** A form's `all_fields` list; None when there is none. */
  function AllFieldsOf(form: Value): Option<seq<Value>>
  {
    var f := MapGet(form, "all_fields");
    if f.List? then Some(f.items) else None
  }

  /** The fields of the given forms, form by form, in order. */
  function FieldsOfForms(forms: seq<(string, Value)>): seq<Value>
  {
    if forms == [] then []
    else FieldsOfForms(forms[..|forms| - 1]) + AllFieldsOf(forms[|forms| - 1].1).GetOr([])
  }

  /** Every field of every form of the structure. */
  function AllFields(formStructure: Value): seq<Value>
  {
    FieldsOfForms(Forms(formStructure).GetOr([]))
  }

  function FieldId(field: Value): Option<string> { StrOf(MapGet(field, "field_id")) }

  function FieldType(field: Value): Option<string> { StrOf(MapGet(field, "type")) }

  function LookupForm(field: Value): Option<string> { StrOf(MapGet(field, "lookup_form")) }

  /** No form of the structure is null: every loop over the forms dereferences each one. */
  predicate NoNullForm(formStructure: Value)
  {
    var fs := Forms(formStructure).GetOr([]);
    forall k :: 0 <= k < |fs| ==> !fs[k].1.Null?
  }

  /** `Boolean.TRUE.equals(form.get("is_parent_form"))`. */
  predicate IsParent(form: Value) { MapGet(form, "is_parent_form") == Bool(true) }

  lemma FieldsOfFormsStep(forms: seq<(string, Value)>, i: nat)
    requires i < |forms|
    ensures FieldsOfForms(forms[..i + 1]) == FieldsOfForms(forms[..i]) + AllFieldsOf(forms[i].1).GetOr([])
  {
    assert forms[..i + 1][..i] == forms[..i];
  }

  // ---- sorted collection of field ids ----

  /** `acc` holds exactly the ids `sel` picks from `done`. */
  ghost predicate Collected(acc: seq<string>, done: seq<Value>, sel: Value -> Option<string>)
  {
    forall x :: x in acc <==> exists f :: f in done && sel(f) == Some(x)
  }

  /** Adding the id a field contributes keeps the collection sorted and exact. */
  lemma CollectStep(acc: seq<string>, done: seq<Value>, f: Value, sel: Value -> Option<string>)
    requires Sorted(acc) && Collected(acc, done, sel)
    ensures var acc' := if sel(f).Some? then Insert(acc, sel(f).value) else acc;
      Sorted(acc') && Collected(acc', done + [f], sel)
  {
    if sel(f).Some? {
      InsertSorted(acc, sel(f).value);
    }
    var acc' := if sel(f).Some? then Insert(acc, sel(f).value) else acc;
    forall x ensures x in acc' <==> exists g :: g in done + [f] && sel(g) == Some(x) {
      if x in acc' && !(sel(f) == Some(x)) {
        var g :| g in done && sel(g) == Some(x);
        assert g in done + [f];
      }
      if exists g :: g in done + [f] && sel(g) == Some(x) {
        var g :| g in done + [f] && sel(g) == Some(x);
        if g != f {
          assert g in done;
        }
      }
    }
  }

  // ---- master data ----

  /** A `lookup_form` that is non-null, non-empty and not the text "null". */
  predicate HasLookup(field: Value)
  {
    var l := LookupForm(field);
    l.Some? && l.value != "" && l.value != "null"
  }

  /** The id a field contributes to the master-data list. */
  function MasterId(field: Value): Option<string>
  {
    if HasLookup(field) then FieldId(field) else None
  }

  /**
   * A field the master-data scan throws on: a null field, which `field.get`
   * dereferences, or a master-data field without a `field_id`, since adding
   * null to a TreeSet throws.
   */
  predicate NullMaster(field: Value) { field.Null? || (HasLookup(field) && FieldId(field).None?) }

  /**
   * `detectMasterDataFields`: the sorted, duplicate-free ids of the fields
   * that have a lookup form; an exception when such a field has no id.
   */
  method DetectMasterDataFields(formStructure: Value) returns (r: Result<seq<string>>)
    ensures r.Ok? <==> NoNullForm(formStructure) && forall f :: f in AllFields(formStructure) ==> !NullMaster(f)
    ensures r.Ok? ==> Sorted(r.value) && Collected(r.value, AllFields(formStructure), MasterId)
  {
    var masterData: seq<string> := [];
    var forms := Forms(formStructure);
    if forms.None? {
      return Ok(masterData);
    }
    var fs := forms.value;
    assert Forms(formStructure).GetOr([]) == fs;
    for i := 0 to |fs|
      invariant Sorted(masterData) && Collected(masterData, FieldsOfForms(fs[..i]), MasterId)
      invariant forall f :: f in FieldsOfForms(fs[..i]) ==> !NullMaster(f)
      invariant forall k :: 0 <= k < i ==> !fs[k].1.Null?
    {
      if fs[i].1.Null? {
        return Err(NULL_POINTER);
      }
      FieldsOfFormsStep(fs, i);
      var fields := AllFieldsOf(fs[i].1).GetOr([]);
      var step := CollectMasterData(fields, masterData, FieldsOfForms(fs[..i]));
      if step.Err? {
        FieldsOfFormsPrefix(fs, i + 1);
        assert fs[..|fs|] == fs;
        return Err(NULL_POINTER);
      }
      masterData := step.value;
    }
    assert fs[..|fs|] == fs;
    return Ok(masterData);
  }

  /** The field loop of one form in `detectMasterDataFields`. */
  method CollectMasterData(fields: seq<Value>, acc: seq<string>, ghost done: seq<Value>) returns (r: Result<seq<string>>)
    requires Sorted(acc) && Collected(acc, done, MasterId)
    ensures r.Err? ==> exists f :: f in fields && NullMaster(f)
    ensures r.Ok? ==> forall f :: f in fields ==> !NullMaster(f)
    ensures r.Ok? ==> Sorted(r.value) && Collected(r.value, done + fields, MasterId)
  {
    var masterData := acc;
    for j := 0 to |fields|
      invariant Sorted(masterData) && Collected(masterData, done + fields[..j], MasterId)
      invariant forall f :: f in fields[..j] ==> !NullMaster(f)
    {
      var field := fields[j];
      assert fields[..j + 1] == fields[..j] + [field];
      assert done + fields[..j + 1] == (done + fields[..j]) + [field];
      if field.Null? {
        assert field in fields && NullMaster(field);
        return Err(NULL_POINTER);
      }
      var lookupForm := LookupForm(field);
      var fieldId := FieldId(field);
      if lookupForm.Some? && lookupForm.value != "" && lookupForm.value != "null" {
        if fieldId.None? {
          assert field in fields && NullMaster(field);
          return Err(NULL_POINTER);
        }
        CollectStep(masterData, done + fields[..j], field, MasterId);
        masterData := Insert(masterData, fieldId.value);
      } else {
        CollectStep(masterData, done + fields[..j], field, MasterId);
      }
    }
    assert fields[..|fields|] == fields;
    return Ok(masterData);
  }

  /** The fields of the first `i` forms come first among all the fields. */
  lemma {:induction false} FieldsOfFormsPrefix(forms: seq<(string, Value)>, i: nat)
    requires i <= |forms|
    ensures forall f :: f in FieldsOfForms(forms[..i]) ==> f in FieldsOfForms(forms)
    decreases |forms| - i
  {
    if i < |forms| {
      FieldsOfFormsPrefix(forms, i + 1);
      FieldsOfFormsStep(forms, i);
    } else {
      assert forms[..i] == forms;
    }
  }

  // ---- yes/no normalisation ----

  datatype Normalization = YesNo | OneTwo

  /**
   * A yes/no candidate: a radio or select field with an `options_count` of
   * 2 and no lookup form (a lookup form of "null" counts as none).
   */
  predicate Candidate(field: Value)
  {
    var t := FieldType(field);
    var l := LookupForm(field);
    (t == Some("radio") || t == Some("select")) &&
    MapGet(field, "options_count") == Int(2) &&
    (l.None? || l.value == "null")
  }

  /** The name heuristic: a `has`, `can` or `is_` prefix, or `member_of` anywhere. */
  predicate LooksYesNo(fieldId: string)
  {
    StartsWith(fieldId, "has") || StartsWith(fieldId, "can") ||
    StartsWith(fieldId, "is_") || Contains(fieldId, "member_of")
  }

  /** A forced yesNo wins over a forced oneTwo, both over the name heuristic. */
  function Classify(fieldId: string, forceYesNo: Option<seq<string>>, forceOneTwo: Option<seq<string>>): (r: Normalization)
    ensures Forced(forceYesNo, fieldId) ==> r == YesNo
    ensures !Forced(forceYesNo, fieldId) && Forced(forceOneTwo, fieldId) ==> r == OneTwo
    ensures !Forced(forceYesNo, fieldId) && !Forced(forceOneTwo, fieldId) ==> (r == YesNo <==> LooksYesNo(fieldId))
  {
    if Forced(forceYesNo, fieldId) then YesNo
    else if Forced(forceOneTwo, fieldId) then OneTwo
    else if LooksYesNo(fieldId) then YesNo
    else OneTwo
  }

  /** The id a candidate field contributes to the list for `n`. */
  function NormalizedId(field: Value, n: Normalization, forceYesNo: Option<seq<string>>, forceOneTwo: Option<seq<string>>): Option<string>
  {
    var id := FieldId(field);
    if Candidate(field) && id.Some? && Classify(id.value, forceYesNo, forceOneTwo) == n then id else None
  }

  /** The ids `NormalizedId` picks for `n`, as a selector. */
  function Selector(n: Normalization, forceYesNo: Option<seq<string>>, forceOneTwo: Option<seq<string>>): Value -> Option<string>
  {
    f => NormalizedId(f, n, forceYesNo, forceOneTwo)
  }

  /**
   * A field the normalisation scan throws on: a null field, which
   * `field.get` dereferences, or a candidate without a `field_id`, which the
   * heuristic dereferences.
   */
  predicate NullCandidate(field: Value) { field.Null? || (Candidate(field) && FieldId(field).None?) }

  /**
   * `detectFieldNormalization`: the sorted yesNo and oneTwo lists (the
   * `yesNo` and `oneTwo` entries of the map it returns); an exception when
   * a candidate has no id.
   */
  method DetectFieldNormalization(formStructure: Value, hints: MappingHints) returns (r: Result<(seq<string>, seq<string>)>)
    ensures r.Ok? <==> NoNullForm(formStructure) && forall f :: f in AllFields(formStructure) ==> !NullCandidate(f)
    ensures r.Ok? ==> Sorted(r.value.0) && Sorted(r.value.1)
    ensures r.Ok? ==> Collected(r.value.0, AllFields(formStructure), Selector(YesNo, hints.forceYesNo, hints.forceOneTwo))
    ensures r.Ok? ==> Collected(r.value.1, AllFields(formStructure), Selector(OneTwo, hints.forceYesNo, hints.forceOneTwo))
  {
    var forms := Forms(formStructure);
    if forms.None? {
      return Ok(([], []));
    }
    assert Forms(formStructure).GetOr([]) == forms.value;
    assert AllFields(formStructure) == FieldsOfForms(forms.value);
    r := NormalizeForms(forms.value, hints);
  }

  /** The form loop of `detectFieldNormalization`: a null form throws, each other form's fields are classified. */
  method NormalizeForms(fs: seq<(string, Value)>, hints: MappingHints) returns (r: Result<(seq<string>, seq<string>)>)
    ensures r.Ok? <==> (forall k :: 0 <= k < |fs| ==> !fs[k].1.Null?) && forall f :: f in FieldsOfForms(fs) ==> !NullCandidate(f)
    ensures r.Ok? ==> Sorted(r.value.0) && Sorted(r.value.1)
    ensures r.Ok? ==> Collected(r.value.0, FieldsOfForms(fs), Selector(YesNo, hints.forceYesNo, hints.forceOneTwo))
    ensures r.Ok? ==> Collected(r.value.1, FieldsOfForms(fs), Selector(OneTwo, hints.forceYesNo, hints.forceOneTwo))
  {
    var yesNoFields: seq<string> := [];
    var oneTwoFields: seq<string> := [];
    for i := 0 to |fs|
      invariant Sorted(yesNoFields) && Collected(yesNoFields, FieldsOfForms(fs[..i]), Selector(YesNo, hints.forceYesNo, hints.forceOneTwo))
      invariant Sorted(oneTwoFields) && Collected(oneTwoFields, FieldsOfForms(fs[..i]), Selector(OneTwo, hints.forceYesNo, hints.forceOneTwo))
      invariant forall f :: f in FieldsOfForms(fs[..i]) ==> !NullCandidate(f)
      invariant forall k :: 0 <= k < i ==> !fs[k].1.Null?
    {
      if fs[i].1.Null? {
        return Err(NULL_POINTER);
      }
      FieldsOfFormsStep(fs, i);
      var fields := AllFieldsOf(fs[i].1).GetOr([]);
      var step := NormalizeFields(fields, hints, yesNoFields, oneTwoFields, FieldsOfForms(fs[..i]));
      if step.Err? {
        FieldsOfFormsPrefix(fs, i + 1);
        assert fs[..|fs|] == fs;
        return Err(NULL_POINTER);
      }
      yesNoFields, oneTwoFields := step.value.0, step.value.1;
    }
    assert fs[..|fs|] == fs;
    return Ok((yesNoFields, oneTwoFields));
  }

  /** The field loop of one form in `detectFieldNormalization`, adding to both sets. */
  method NormalizeFields(fields: seq<Value>, hints: MappingHints, yes: seq<string>, one: seq<string>, ghost done: seq<Value>)
    returns (r: Result<(seq<string>, seq<string>)>)
    requires Sorted(yes) && Collected(yes, done, Selector(YesNo, hints.forceYesNo, hints.forceOneTwo))
    requires Sorted(one) && Collected(one, done, Selector(OneTwo, hints.forceYesNo, hints.forceOneTwo))
    ensures r.Err? ==> exists f :: f in fields && NullCandidate(f)
    ensures r.Ok? ==> forall f :: f in fields ==> !NullCandidate(f)
    ensures r.Ok? ==> Sorted(r.value.0) && Collected(r.value.0, done + fields, Selector(YesNo, hints.forceYesNo, hints.forceOneTwo))
    ensures r.Ok? ==> Sorted(r.value.1) && Collected(r.value.1, done + fields, Selector(OneTwo, hints.forceYesNo, hints.forceOneTwo))
  {
    ghost var selYes := Selector(YesNo, hints.forceYesNo, hints.forceOneTwo);
    ghost var selOne := Selector(OneTwo, hints.forceYesNo, hints.forceOneTwo);
    var yesNoFields, oneTwoFields := yes, one;
    for j := 0 to |fields|
      invariant Sorted(yesNoFields) && Collected(yesNoFields, done + fields[..j], selYes)
      invariant Sorted(oneTwoFields) && Collected(oneTwoFields, done + fields[..j], selOne)
      invariant forall f :: f in fields[..j] ==> !NullCandidate(f)
    {
      var field := fields[j];
      assert fields[..j + 1] == fields[..j] + [field];
      assert done + fields[..j + 1] == (done + fields[..j]) + [field];
      if NullCandidate(field) {
        return Err(NULL_POINTER);
      }
      CollectStep(yesNoFields, done + fields[..j], field, selYes);
      CollectStep(oneTwoFields, done + fields[..j], field, selOne);
      if Candidate(field) {
        var fieldId := FieldId(field).value;
        if hints.ShouldForceYesNo(fieldId) {
          yesNoFields := Insert(yesNoFields, fieldId);
        } else if hints.ShouldForceOneTwo(fieldId) {
          oneTwoFields := Insert(oneTwoFields, fieldId);
        } else if LooksYesNo(fieldId) {
          yesNoFields := Insert(yesNoFields, fieldId);
        } else {
          oneTwoFields := Insert(oneTwoFields, fieldId);
        }
      }
    }
    assert fields[..|fields|] == fields;
    return Ok((yesNoFields, oneTwoFields));
  }

  /** No field id lands in both lists: the classification depends on the id alone. */
  lemma NormalizationDisjoint(fields: seq<Value>, yes: seq<string>, one: seq<string>, forceYesNo: Option<seq<string>>, forceOneTwo: Option<seq<string>>)
    requires Collected(yes, fields, Selector(YesNo, forceYesNo, forceOneTwo))
    requires Collected(one, fields, Selector(OneTwo, forceYesNo, forceOneTwo))
    ensures forall x :: x in yes ==> x !in one
  {
    forall x | x in yes ensures x !in one {
      var f :| f in fields && NormalizedId(f, YesNo, forceYesNo, forceOneTwo) == Some(x);
      assert Classify(x, forceYesNo, forceOneTwo) == YesNo;
      assert forall g :: NormalizedId(g, OneTwo, forceYesNo, forceOneTwo) != Some(x);
    }
  }

  /** The heuristic tests the bare prefix "has", so "hash_code" counts as yes/no. */
  lemma HeuristicPrefixes()
    ensures LooksYesNo("has_land") && LooksYesNo("hash_code") && LooksYesNo("can_read") && LooksYesNo("is_head")
  {
    assert StartsWith("has_land", "has");
    assert StartsWith("hash_code", "has");
    assert StartsWith("can_read", "can");
    assert StartsWith("is_head", "is_");
  }

  /** `member_of` anywhere in the id makes it a yes/no field. */
  lemma HeuristicMemberOf()
    ensures LooksYesNo("cooperative_member_of")
  {
    var s := "cooperative_member_of";
    assert s[12..] == "member_of";
    ContainsAt(s, "member_of", 12);
  }

  /** "is" without its underscore, and other names, default to one/two. */
  lemma HeuristicOthers()
    ensures !LooksYesNo("isolated_plot")
  {
    var s := "isolated_plot";
    assert s[..3] != "is_" by { assert s[2] != '_'; }
    assert s[..3] != "has" && s[..3] != "can" by { assert s[0] == 'i'; }
    assert 'm' !in s;
    NotContainsShort(s, "member_of");
  }

  /** A text starting at position `i` is contained. */
  lemma {:induction false} ContainsAt(s: string, t: string, i: nat)
    requires i <= |s| && StartsWith(s[i..], t)
    ensures Contains(s, t)
    decreases i
  {
    if i > 0 {
      assert s[1..][i - 1..] == s[i..];
      ContainsAt(s[1..], t, i - 1);
    } else {
      assert s[0..] == s;
    }
  }

  /** A text is not contained in a string that lacks its first char. */
  lemma {:induction false} NotContainsShort(s: string, t: string)
    requires t != [] && t[0] !in s
    ensures !Contains(s, t)
    decreases |s|
  {
    if s != [] {
      assert s[1..] == s[1..] && forall k :: 0 <= k < |s[1..]| ==> s[1..][k] == s[k + 1];
      NotContainsShort(s[1..], t);
    }
  }

  // ---- the parent form ----

  /**
   * `findParentForm`: the key of the first form flagged as the parent,
   * null when there is none or no forms at all; a null form met before the
   * parent throws, as `form.get` dereferences it.
   */
  method FindParentForm(formStructure: Value) returns (r: Result<Option<string>>)
    ensures var fs := Forms(formStructure).GetOr([]);
      r.Err? <==> exists k :: 0 <= k < |fs| && fs[k].1.Null? && forall j :: 0 <= j < k ==> !IsParent(fs[j].1)
    ensures r.Err? ==> r.message == NULL_POINTER
    ensures var fs := Forms(formStructure).GetOr([]);
      r == Ok(None) <==> forall k :: 0 <= k < |fs| ==> !fs[k].1.Null? && !IsParent(fs[k].1)
    ensures var fs := Forms(formStructure).GetOr([]);
      r.Ok? && r.value.Some? ==>
        exists k :: 0 <= k < |fs| && fs[k].0 == r.value.value && IsParent(fs[k].1) &&
          (forall j :: 0 <= j < k ==> !fs[j].1.Null? && !IsParent(fs[j].1))
  {
    var forms := Forms(formStructure);
    if forms.None? {
      return Ok(None);
    }
    var fs := forms.value;
    assert Forms(formStructure).GetOr([]) == fs;
    for i := 0 to |fs|
      invariant forall j :: 0 <= j < i ==> !fs[j].1.Null? && !IsParent(fs[j].1)
    {
      if fs[i].1.Null? {
        assert !IsParent(fs[i].1);
        return Err(NULL_POINTER);
      }
      if IsParent(fs[i].1) {
        assert !(forall k :: 0 <= k < |fs| ==> !fs[k].1.Null? && !IsParent(fs[k].1)) by {
          assert 0 <= i < |fs| && IsParent(fs[i].1);
        }
        assert !(exists k :: 0 <= k < |fs| && fs[k].1.Null? && forall j :: 0 <= j < k ==> !IsParent(fs[j].1)) by {
          forall k | 0 <= k < |fs| && fs[k].1.Null?
            ensures !(forall j :: 0 <= j < k ==> !IsParent(fs[j].1))
          {
            assert k > i && IsParent(fs[i].1);
          }
        }
        return Ok(Some(fs[i].0));
      }
    }
    return Ok(None);
  }

  // ---- naming conventions ----

  /**
   * `extractEntityName`: the first `_`-separated part of the service id
   * with one trailing "s" removed; "entity" when the split leaves no part.
   */
  function ExtractEntityName(serviceId: string): (r: string)
    ensures '_' !in serviceId && !EndsWith(serviceId, "s") ==> r == serviceId
    ensures '_' !in serviceId && EndsWith(serviceId, "s") ==> r + "s" == serviceId
  {
    var parts := Split(serviceId, '_');
    if |parts| > 0 then
      var entity := parts[0];
      if EndsWith(entity, "s") then entity[..|entity| - 1] else entity
    else "entity"
  }

  /** The entity is the text before the first underscore, less one trailing "s". */
  lemma EntityIsFirstPart(a: string, b: string)
    requires a != [] && '_' !in a
    ensures ExtractEntityName(a + "_" + b) == if EndsWith(a, "s") then a[..|a| - 1] else a
  {
    var s := a + "_" + b;
    SplitAllAt(a, '_', b);
    var ps := SplitAll(s, '_');
    assert ps[0] == a;
    assert s[|a|] == '_';
    var parts := DropTrailingEmpty(ps);
    assert Split(s, '_') == parts;
    assert |parts| > 0 && parts[0] == a;
  }

  /** The service id of the sample registry names the farmer entity. */
  lemma EntityOfFarmersRegistry()
    ensures ExtractEntityName("farmers_registry") == "farmer"
  {
    var a := "farmers";
    assert '_' !in a;
    assert a + "_" + "registry" == "farmers_registry";
    EntityIsFirstPart(a, "registry");
    assert EndsWith(a, "s") && a[..|a| - 1] == "farmer";
  }

  /** A service id made of underscores only splits into nothing. */
  lemma EntityOfUnderscores()
    ensures ExtractEntityName("__") == "entity"
  {
    var s := "__";
    assert IndexOf(s, '_') == 0;
    assert IndexOf(s[1..], '_') == 0;
    assert s[1..][1..] == [];
    assert SplitAll(s, '_') == ["", "", ""];
    assert DropTrailingEmpty(["", "", ""]) == [] by {
      assert ["", "", ""][..2] == ["", ""];
      assert ["", ""][..1] == [""];
      assert [""][..0] == [];
    }
  }

  /** The field names with a fixed path in the convention. */
  function ApplyMappingConvention(fieldId: string, hints: MappingHints): (r: string)
    reads hints
    ensures EndsWith(fieldId, "_id") && fieldId != "parent_id" ==> r == "identifiers[0].value"
    ensures !EndsWith(fieldId, "_id") && fieldId == "first_name" ==> r == "name.given[0]"
    ensures !EndsWith(fieldId, "_id") && fieldId == "last_name" ==> r == "name.family"
    ensures !EndsWith(fieldId, "_id") && fieldId == "date_of_birth" ==> r == "birthDate"
    ensures !EndsWith(fieldId, "_id") && fieldId == "gender" ==> r == "gender"
    ensures (!EndsWith(fieldId, "_id") || fieldId == "parent_id") && fieldId != "first_name" &&
            fieldId != "last_name" && fieldId != "date_of_birth" && fieldId != "gender" ==>
              r == hints.ApplyDefaultMapping(fieldId)
  {
    if EndsWith(fieldId, "_id") && fieldId != "parent_id" then "identifiers[0].value"
    else if fieldId == "first_name" then "name.given[0]"
    else if fieldId == "last_name" then "name.family"
    else if fieldId == "date_of_birth" then "birthDate"
    else if fieldId == "gender" then "gender"
    else hints.ApplyDefaultMapping(fieldId)
  }

  /** `parent_id` is not an identifier: it follows the default template. */
  lemma ParentIdUsesDefault(hints: MappingHints)
    requires hints.defaultMapping == DEFAULT_MAPPING
    ensures ApplyMappingConvention("parent_id", hints) == "extension." + "parent_id"
  {
    var f := "parent_id";
    assert f[0] == 'p';
    assert f != "first_name" && f != "last_name" && f != "date_of_birth" && f != "gender";
    assert ApplyMappingConvention(f, hints) == hints.ApplyDefaultMapping(f);
    DefaultTemplate(hints, f);
  }

  /**
   * `determineTransform`: a non-empty `transform_hint` wins; otherwise date
   * fields get "date_ISO8601", signatures "base64", anything else none.
   */
  function DetermineTransform(field: Value): (r: Option<string>)
    ensures var h := StrOf(MapGet(field, "transform_hint"));
      h.Some? && h.value != "" ==> r == h
    ensures var h := StrOf(MapGet(field, "transform_hint"));
      !(h.Some? && h.value != "") ==>
        r == (if FieldType(field) == Some("date") then Some("date_ISO8601")
              else if FieldType(field) == Some("signature") then Some("base64")
              else None)
  {
    var hint := StrOf(MapGet(field, "transform_hint"));
    var t := FieldType(field);
    if hint.Some? && hint.value != "" then hint
    else if t == Some("date") then Some("date_ISO8601")
    else if t == Some("signature") then Some("base64")
    else None
  }

  // ---- field mappings ----

  /** One entry of a form's `fields` list; `required` is written only when true. */
  datatype FieldMapping = FieldMapping(joget: string, govstack: string, transform: Option<string>, required: bool)

  /** A hidden field whose id ends `_id` or `_key`: a system column. */
  predicate HiddenSystemField(fieldId: string)
  {
    EndsWith(fieldId, "_id") || EndsWith(fieldId, "_key")
  }

  /**
   * `buildFieldMapping`: None (null) for hidden system fields and html
   * fields; an explicit hint path before the convention; an exception when
   * a mapped field has no id.
   */
  function BuildFieldMapping(field: Value, hints: MappingHints): (r: Result<Option<FieldMapping>>)
    reads hints
  {
    var fieldId := FieldId(field);
    var t := FieldType(field);
    if t == Some("hidden") && fieldId.None? then Err(NULL_POINTER)
    else if t == Some("hidden") && HiddenSystemField(fieldId.value) then Ok(None)
    else if t == Some("html") then Ok(None)
    else if fieldId.None? then Err(NULL_POINTER)
    else
      var explicit := hints.GetMapping(fieldId.value);
      var path := if explicit.Some? then explicit.value else ApplyMappingConvention(fieldId.value, hints);
      Ok(Some(FieldMapping(fieldId.value, path, DetermineTransform(field), MapGet(field, "required") == Bool(true))))
  }

  /**
   * The rules of `buildFieldMapping`: the skipped fields, the explicit hint
   * before the convention, the transform and the `required` flag.
   */
  lemma FieldMappingRules(field: Value, hints: MappingHints)
    ensures field.Null? ==> BuildFieldMapping(field, hints) == Err(NULL_POINTER)
    ensures var r := BuildFieldMapping(field, hints);
      FieldType(field) == Some("html") ==> r == Ok(None)
    ensures var r := BuildFieldMapping(field, hints);
      FieldType(field) == Some("hidden") && FieldId(field).Some? && HiddenSystemField(FieldId(field).value) ==> r == Ok(None)
    ensures var r := BuildFieldMapping(field, hints);
      r.Err? <==> FieldId(field).None? && FieldType(field) != Some("html")
    ensures var r := BuildFieldMapping(field, hints);
      r.Ok? && r.value.Some? ==>
        FieldId(field).Some? && r.value.value.joget == FieldId(field).value &&
        FieldType(field) != Some("html") &&
        !(FieldType(field) == Some("hidden") && HiddenSystemField(FieldId(field).value))
    ensures var r := BuildFieldMapping(field, hints);
      r.Ok? && r.value.Some? ==>
        r.value.value.govstack == hints.GetMapping(FieldId(field).value).GetOr(ApplyMappingConvention(FieldId(field).value, hints))
    ensures var r := BuildFieldMapping(field, hints);
      r.Ok? && r.value.Some? ==>
        r.value.value.transform == DetermineTransform(field) &&
        (r.value.value.required <==> MapGet(field, "required") == Bool(true))
  {
  }

  /** The field loop of one form: the mappings in field order, or the first exception. */
  function FieldMappings(fields: seq<Value>, hints: MappingHints): (r: Result<seq<FieldMapping>>)
    reads hints
    ensures r.Ok? ==> |r.value| <= |fields|
  {
    if fields == [] then Ok([])
    else
      match FieldMappings(fields[..|fields| - 1], hints)
      case Err(e) => Err(e)
      case Ok(acc) =>
        match BuildFieldMapping(fields[|fields| - 1], hints)
        case Err(e) => Err(e)
        case Ok(m) => Ok(if m.Some? then acc + [m.value] else acc)
  }

  // ---- form mappings ----

  /** `formMappings.<formKey>`; an empty `fields` list stands for the absent key. */
  datatype FormMapping = FormMapping(
    formId: string,
    tableName: string,
    primaryKey: Option<string>,
    uuidReferenceField: Option<string>,
    fields: seq<FieldMapping>)

  predicate IsUpper(c: char) { 'A' <= c <= 'Z' }

  /**
   * A child form's `uuidReferenceField`: the form key without the entity
   * prefix, its first letter lower-cased; "data" when nothing remains.
   */
  function UuidReferenceField(formKey: string, entity: string): (r: string)
    ensures r != []
    ensures StartsWith(formKey, entity) && |formKey| == |entity| ==> r == "data"
    ensures !StartsWith(formKey, entity) && formKey != [] && !IsUpper(formKey[0]) ==> r == formKey
  {
    var rest := if StartsWith(formKey, entity) then formKey[|entity|..] else formKey;
    var lowered := if rest != [] && IsUpper(rest[0]) then [LowerChar(rest[0])] + rest[1..] else rest;
    if lowered == [] then "data" else lowered
  }

  /** "farmerHousehold" under the farmer entity refers to "household". */
  lemma UuidReferenceExample()
    ensures UuidReferenceField("farmerHousehold", "farmer") == "household"
    ensures UuidReferenceField("farmer", "farmer") == "data"
  {
    assert StartsWith("farmerHousehold", "farmer");
    assert "farmerHousehold"[6..] == "Household";
    assert [LowerChar('H')] + "Household"[1..] == "household";
  }

  /** The entity name of the hints' service; None where Java would dereference null. */
  function HintsEntity(hints: MappingHints): Option<string>
    reads hints, hints.service
  {
    if hints.service != null && hints.service.id.Some? then Some(ExtractEntityName(hints.service.id.value)) else None
  }

  /**
   * The mapping of one non-parent form: the `app_fd_` table, the child key
   * columns when it is a child form, and its field mappings.
   */
  function FormMappingOf(formKey: string, form: Value, hints: MappingHints): (r: Result<FormMapping>)
    reads hints, hints.service
  {
    if form.Null? then Err(NULL_POINTER)
    else
    var tableName := "app_fd_" + ToJavaString(MapGet(form, "table_name"));
    var childOf := StrOf(MapGet(form, "child_of"));
    var entity := HintsEntity(hints);
    if childOf.Some? && entity.None? then Err(NULL_POINTER)
    else
      var pk := if childOf.Some? then Some("c_" + entity.value + "_id") else None;
      var uuid := if childOf.Some? then Some(UuidReferenceField(formKey, entity.value)) else None;
      match FieldMappings(AllFieldsOf(form).GetOr([]), hints)
      case Err(e) => Err(e)
      case Ok(fields) => Ok(FormMapping(formKey, tableName, pk, uuid, fields))
  }

  /**
   * A form mapping names its form and an `app_fd_` table; exactly the
   * child forms get the entity's key column and a uuid reference field, and
   * a child form fails when the hints name no service id.
   */
  lemma FormMappingShape(formKey: string, form: Value, hints: MappingHints)
    ensures form.Null? ==> FormMappingOf(formKey, form, hints) == Err(NULL_POINTER)
    ensures var r := FormMappingOf(formKey, form, hints);
      r.Ok? ==> r.value.formId == formKey && StartsWith(r.value.tableName, "app_fd_")
    ensures var r := FormMappingOf(formKey, form, hints);
      r.Ok? ==> (r.value.primaryKey.Some? <==> StrOf(MapGet(form, "child_of")).Some?)
    ensures var r := FormMappingOf(formKey, form, hints);
      r.Ok? && r.value.primaryKey.Some? ==>
        HintsEntity(hints).Some? &&
        r.value.primaryKey.value == "c_" + HintsEntity(hints).value + "_id" &&
        r.value.uuidReferenceField == Some(UuidReferenceField(formKey, HintsEntity(hints).value))
    ensures var r := FormMappingOf(formKey, form, hints);
      StrOf(MapGet(form, "child_of")).Some? && HintsEntity(hints).None? ==> r.Err?
  {
  }

  /** The `formMappings` section with the two counters the coverage line reports. */
  datatype FormMappings = FormMappings(entries: seq<(string, FormMapping)>, totalFields: nat, mappedFields: nat)
  {
    /** One more mapped form with `fieldCount` fields. */
    function Add(key: string, m: FormMapping, fieldCount: nat): FormMappings
    {
      FormMappings(entries + [(key, m)], totalFields + fieldCount, mappedFields + |m.fields|)
    }
  }

  /** The form loop of `buildFormMappingsSection` over the given forms. */
  function FormMappingsOf(forms: seq<(string, Value)>, hints: MappingHints): (r: Result<FormMappings>)
    reads hints, hints.service
  {
    if forms == [] then Ok(FormMappings([], 0, 0))
    else
      var prev := FormMappingsOf(forms[..|forms| - 1], hints);
      var last := forms[|forms| - 1];
      if prev.Err? || IsParent(last.1) then prev
      else
        var m := FormMappingOf(last.0, last.1, hints);
        if m.Err? then Err(m.message)
        else Ok(prev.value.Add(last.0, m.value, |AllFieldsOf(last.1).GetOr([])|))
  }

  /**
   * `buildFormMappingsSection`: one entry per non-parent form in YAML
   * order, with the running field counters.
   */
  method BuildFormMappingsSection(formStructure: Value, hints: MappingHints) returns (r: Result<FormMappings>)
    ensures r == FormMappingsOf(Forms(formStructure).GetOr([]), hints)
    ensures !NoNullForm(formStructure) ==> r.Err?
  {
    if !NoNullForm(formStructure) {
      var k :| 0 <= k < |Forms(formStructure).GetOr([])| && Forms(formStructure).GetOr([])[k].1.Null?;
      NullFormFails(Forms(formStructure).GetOr([]), k, hints);
    }
    var forms := Forms(formStructure);
    if forms.None? {
      return Ok(FormMappings([], 0, 0));
    }
    var fs := forms.value;
    var formMappings: seq<(string, FormMapping)> := [];
    var totalFields: nat := 0;
    var mappedFields: nat := 0;
    for i := 0 to |fs|
      invariant FormMappingsOf(fs[..i], hints) == Ok(FormMappings(formMappings, totalFields, mappedFields))
    {
      var formKey := fs[i].0;
      var form := fs[i].1;
      ghost var old_acc := FormMappings(formMappings, totalFields, mappedFields);
      FormMappingsStep(fs, i, hints, old_acc);
      if !IsParent(form) {
        var formMapping := BuildFormMapping(formKey, form, hints);
        if formMapping.Err? {
          FormMappingsFails(fs, i + 1, hints);
          assert fs[..|fs|] == fs;
          return Err(formMapping.message);
        }
        totalFields := totalFields + |AllFieldsOf(form).GetOr([])|;
        mappedFields := mappedFields + |formMapping.value.fields|;
        formMappings := formMappings + [(formKey, formMapping.value)];
        assert FormMappings(formMappings, totalFields, mappedFields) ==
          old_acc.Add(formKey, formMapping.value, |AllFieldsOf(form).GetOr([])|);
      }
    }
    assert fs[..|fs|] == fs;
    return Ok(FormMappings(formMappings, totalFields, mappedFields));
  }

  /** The body of the form loop for one non-parent form. */
  method BuildFormMapping(formKey: string, form: Value, hints: MappingHints) returns (r: Result<FormMapping>)
    ensures r == FormMappingOf(formKey, form, hints)
  {
    if form.Null? {
      return Err(NULL_POINTER);
    }
    var tableName := "app_fd_" + ToJavaString(MapGet(form, "table_name"));
    var childOf := StrOf(MapGet(form, "child_of"));
    var primaryKey: Option<string> := None;
    var uuidRef: Option<string> := None;
    if childOf.Some? {
      if hints.service == null || hints.service.id.None? {
        return Err(NULL_POINTER);
      }
      var entityName := ExtractEntityName(hints.service.id.value);
      primaryKey := Some("c_" + entityName + "_id");
      uuidRef := Some(UuidReferenceField(formKey, entityName));
    }
    var fieldMappings := BuildFieldMappings(AllFieldsOf(form).GetOr([]), hints);
    if fieldMappings.Err? {
      return Err(fieldMappings.message);
    }
    return Ok(FormMapping(formKey, tableName, primaryKey, uuidRef, fieldMappings.value));
  }

  /** The field loop of `buildFormMapping`: one mapping per field that needs one, or the first exception. */
  method BuildFieldMappings(allFields: seq<Value>, hints: MappingHints) returns (r: Result<seq<FieldMapping>>)
    ensures r == FieldMappings(allFields, hints)
  {
    var fieldMappings: seq<FieldMapping> := [];
    for j := 0 to |allFields|
      invariant FieldMappings(allFields[..j], hints) == Ok(fieldMappings)
    {
      assert allFields[..j + 1][..j] == allFields[..j];
      var fieldMapping := BuildFieldMapping(allFields[j], hints);
      if fieldMapping.Err? {
        FieldMappingsFails(allFields, j + 1, hints);
        assert allFields[..|allFields|] == allFields;
        return Err(fieldMapping.message);
      }
      if fieldMapping.value.Some? {
        fieldMappings := fieldMappings + [fieldMapping.value.value];
      }
    }
    assert allFields[..|allFields|] == allFields;
    return Ok(fieldMappings);
  }

  /** An exception in the first `j` fields is the exception of the whole field loop. */
  lemma {:induction false} FieldMappingsFails(fields: seq<Value>, j: nat, hints: MappingHints)
    requires 0 < j <= |fields|
    requires FieldMappings(fields[..j], hints).Err?
    ensures FieldMappings(fields, hints) == FieldMappings(fields[..j], hints)
    decreases |fields| - j
  {
    if j < |fields| {
      assert fields[..j + 1][..j] == fields[..j];
      FieldMappingsFails(fields, j + 1, hints);
    } else {
      assert fields[..j] == fields;
    }
  }

  /** One more form: skipped when it is the parent, else its mapping is appended or its exception taken. */
  lemma FormMappingsStep(forms: seq<(string, Value)>, i: nat, hints: MappingHints, acc: FormMappings)
    requires i < |forms| && FormMappingsOf(forms[..i], hints) == Ok(acc)
    ensures forms[i].1.Null? ==> FormMappingsOf(forms[..i + 1], hints) == Err(NULL_POINTER)
    ensures IsParent(forms[i].1) ==> FormMappingsOf(forms[..i + 1], hints) == Ok(acc)
    ensures var m := FormMappingOf(forms[i].0, forms[i].1, hints);
      !IsParent(forms[i].1) && m.Ok? ==>
        FormMappingsOf(forms[..i + 1], hints) == Ok(acc.Add(forms[i].0, m.value, |AllFieldsOf(forms[i].1).GetOr([])|))
    ensures var m := FormMappingOf(forms[i].0, forms[i].1, hints);
      !IsParent(forms[i].1) && m.Err? ==> FormMappingsOf(forms[..i + 1], hints) == Err(m.message)
  {
    assert forms[..i + 1][..i] == forms[..i];
    assert forms[..i + 1][i] == forms[i];
  }

  /** An exception in the first `i` forms is the exception of the whole section. */
  lemma {:induction false} FormMappingsFails(forms: seq<(string, Value)>, i: nat, hints: MappingHints)
    requires 0 < i <= |forms|
    requires FormMappingsOf(forms[..i], hints).Err?
    ensures FormMappingsOf(forms, hints) == FormMappingsOf(forms[..i], hints)
    decreases |forms| - i
  {
    if i < |forms| {
      assert forms[..i + 1][..i] == forms[..i];
      FormMappingsFails(forms, i + 1, hints);
    } else {
      assert forms[..i] == forms;
    }
  }

  /** A null form makes the whole form loop throw: `form.get` dereferences it. */
  lemma NullFormFails(forms: seq<(string, Value)>, k: nat, hints: MappingHints)
    requires k < |forms| && forms[k].1.Null?
    ensures FormMappingsOf(forms, hints).Err?
  {
    assert forms[..k + 1][..k] == forms[..k];
    assert forms[..k + 1][k] == forms[k];
    FormMappingsFails(forms, k + 1, hints);
  }
}
