/**
 * MappingHints: the hand-written hints the services.yml generator follows,
 * an explicit field-to-path table, a default path template and lists of
 * fields whose yes/no normalisation is forced. The setters are how the
 * hints file is loaded into it.
 */
module MappingHintsModel {
  import opened Wrappers
  import opened JavaStr

  const FIELD_NAME_PLACEHOLDER: string := "{fieldName}"
  const DEFAULT_MAPPING: string := "extension." + FIELD_NAME_PLACEHOLDER

  /** Membership in a forced list; a null list forces nothing. */
  predicate Forced(list: Option<seq<string>>, fieldName: string)
  {
    list.Some? && fieldName in list.value
  }

  /** `MappingHints.ServiceInfo`: both versions default to "1.0". */
  class ServiceInfo {
    var id: Option<string>
    var name: Option<string>
    var version: Option<string>
    var govstackVersion: Option<string>

    constructor()
      ensures id == None && name == None
      ensures version == Some("1.0") && govstackVersion == Some("1.0")
    {
      id := None;
      name := None;
      version := Some("1.0");
      govstackVersion := Some("1.0");
    }

    method SetId(id: Option<string>)
      modifies this
      ensures this.id == id
      ensures name == old(name) && version == old(version) && govstackVersion == old(govstackVersion)
    {
      this.id := id;
    }

    method SetVersion(version: Option<string>)
      modifies this
      ensures this.version == version
      ensures id == old(id) && name == old(name) && govstackVersion == old(govstackVersion)
    {
      this.version := version;
    }
  }

  class MappingHints {
    var service: ServiceInfo?
    var fieldMappings: map<string, string>
    var defaultMapping: string
    /** `normalization.forceYesNo` and `normalization.forceOneTwo`; None is a null list. */
    var forceYesNo: Option<seq<string>>
    var forceOneTwo: Option<seq<string>>

    /** No explicit mappings, the `extension.{fieldName}` template, nothing forced. */
    constructor()
      ensures service == null && fieldMappings == map[] && defaultMapping == DEFAULT_MAPPING
      ensures forceYesNo == None && forceOneTwo == None
    {
      service := null;
      fieldMappings := map[];
      defaultMapping := DEFAULT_MAPPING;
      forceYesNo := None;
      forceOneTwo := None;
    }

    method SetService(service: ServiceInfo?)
      modifies this
      ensures this.service == service
      ensures fieldMappings == old(fieldMappings) && defaultMapping == old(defaultMapping)
      ensures forceYesNo == old(forceYesNo) && forceOneTwo == old(forceOneTwo)
    {
      this.service := service;
    }

    method SetFieldMappings(mappings: map<string, string>)
      modifies this
      ensures fieldMappings == mappings
      ensures service == old(service) && defaultMapping == old(defaultMapping)
      ensures forceYesNo == old(forceYesNo) && forceOneTwo == old(forceOneTwo)
    {
      fieldMappings := mappings;
    }

    method SetDefaultMapping(template: string)
      modifies this
      ensures defaultMapping == template
      ensures service == old(service) && fieldMappings == old(fieldMappings)
      ensures forceYesNo == old(forceYesNo) && forceOneTwo == old(forceOneTwo)
    {
      defaultMapping := template;
    }

    /** `setNormalization` with a preferences object holding the two lists. */
    method SetNormalization(yesNo: Option<seq<string>>, oneTwo: Option<seq<string>>)
      modifies this
      ensures forceYesNo == yesNo && forceOneTwo == oneTwo
      ensures service == old(service) && fieldMappings == old(fieldMappings) && defaultMapping == old(defaultMapping)
    {
      forceYesNo := yesNo;
      forceOneTwo := oneTwo;
    }

    /** `getMapping`: the explicit path for a field, or null. */
    function GetMapping(fieldName: string): (r: Option<string>)
      reads this
      ensures r.Some? <==> fieldName in fieldMappings
      ensures r.Some? ==> r.value == fieldMappings[fieldName]
    {
      if fieldName in fieldMappings then Some(fieldMappings[fieldName]) else None
    }

    /**
     * `applyDefaultMapping`: every `{fieldName}` in the template becomes the
     * field name, so a template cut by its placeholders into pieces `ps`
     * gives those pieces joined by the field name.
     */
    function ApplyDefaultMapping(fieldName: string): (r: string)
      reads this
      ensures !Contains(defaultMapping, FIELD_NAME_PLACEHOLDER) ==> r == defaultMapping
      ensures forall ps :: CutBy(defaultMapping, ps, FIELD_NAME_PLACEHOLDER) ==> r == Join(ps, fieldName)
    {
      PlaceholderFilled(defaultMapping, fieldName);
      Replace(defaultMapping, FIELD_NAME_PLACEHOLDER, fieldName)
    }

    /** `shouldForceYesNo`: false for a null list, else membership. */
    predicate ShouldForceYesNo(fieldName: string)
      reads this
    {
      Forced(forceYesNo, fieldName)
    }

    predicate ShouldForceOneTwo(fieldName: string)
      reads this
    {
      Forced(forceOneTwo, fieldName)
    }
  }

  // ---- properties ----

  /** Filling `{fieldName}` in a template cut into pieces by it joins the pieces by the name. */
  lemma PlaceholderFilled(template: string, fieldName: string)
    ensures forall ps :: CutBy(template, ps, FIELD_NAME_PLACEHOLDER) ==>
      Replace(template, FIELD_NAME_PLACEHOLDER, fieldName) == Join(ps, fieldName)
  {
    assert HeadUnique(FIELD_NAME_PLACEHOLDER) by {
      assert forall i :: 1 <= i < |FIELD_NAME_PLACEHOLDER| ==> FIELD_NAME_PLACEHOLDER[i] != '{';
    }
    forall ps | CutBy(template, ps, FIELD_NAME_PLACEHOLDER)
      ensures Replace(template, FIELD_NAME_PLACEHOLDER, fieldName) == Join(ps, fieldName)
    {
      ReplaceJoin(ps, FIELD_NAME_PLACEHOLDER, fieldName);
    }
  }

  /** The default template maps a field to `extension.<field>`. */
  lemma DefaultTemplate(hints: MappingHints, fieldName: string)
    requires hints.defaultMapping == DEFAULT_MAPPING
    ensures hints.ApplyDefaultMapping(fieldName) == "extension." + fieldName
  {
    PrefixHasNoPlaceholder();
    ReplaceAfterPrefix("extension.", FIELD_NAME_PLACEHOLDER, FIELD_NAME_PLACEHOLDER, fieldName);
    ReplaceWholePlaceholder(fieldName);
  }

  lemma PrefixHasNoPlaceholder()
    ensures forall i :: 0 <= i < |"extension."| ==>
      !StartsWith(("extension." + FIELD_NAME_PLACEHOLDER)[i..], FIELD_NAME_PLACEHOLDER)
  {
    var a := "extension.";
    forall i | 0 <= i < |a|
      ensures !StartsWith((a + FIELD_NAME_PLACEHOLDER)[i..], FIELD_NAME_PLACEHOLDER)
    {
      assert (a + FIELD_NAME_PLACEHOLDER)[i] != '{';
    }
  }

  lemma ReplaceWholePlaceholder(fieldName: string)
    ensures Replace(FIELD_NAME_PLACEHOLDER, FIELD_NAME_PLACEHOLDER, fieldName) == fieldName
  {
    assert StartsWith(FIELD_NAME_PLACEHOLDER, FIELD_NAME_PLACEHOLDER);
    assert FIELD_NAME_PLACEHOLDER[|FIELD_NAME_PLACEHOLDER|..] == [];
  }

  /** With no lists, nothing is forced; a listed field is forced. */
  lemma ForcedByMembership(hints: MappingHints, fieldName: string)
    ensures hints.forceYesNo == None ==> !hints.ShouldForceYesNo(fieldName)
    ensures hints.forceOneTwo == None ==> !hints.ShouldForceOneTwo(fieldName)
    ensures hints.forceYesNo.Some? && fieldName in hints.forceYesNo.value ==> hints.ShouldForceYesNo(fieldName)
    ensures hints.forceOneTwo.Some? && fieldName in hints.forceOneTwo.value ==> hints.ShouldForceOneTwo(fieldName)
  {
  }
}
