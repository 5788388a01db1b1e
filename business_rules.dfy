/**
 * BusinessRules: the conditional rules loaded from business-rules.yaml.
 * A rule names a trigger field and value, what the trigger requires (a
 * grid with a minimum number of entries, or fields) and an optional
 * message template. Null fields are None.
 */
module BusinessRulesModel {
  import opened Wrappers
  import opened JavaStr
  import opened JavaValues

  /** The operator between the trigger field and its quoted value. */
  const CONDITION_OP: string := " == '"

  const TRIGGER_FIELD: string := "{trigger_field}"
  const TRIGGER_VALUE: string := "{trigger_value}"
  const MIN_ENTRIES: string := "{min_entries}"

  /** `BusinessRules.ConditionalRule`. */
  class ConditionalRule {
    var triggerField: Option<string>
    var triggerValue: Option<string>
    var requiresGrid: Option<string>
    var minEntries: Option<int>
    var requiresFields: Option<seq<string>>
    var messageTemplate: Option<string>

    constructor()
      ensures triggerField == None && triggerValue == None && requiresGrid == None
      ensures minEntries == None && requiresFields == None && messageTemplate == None
    {
      triggerField := None;
      triggerValue := None;
      requiresGrid := None;
      minEntries := None;
      requiresFields := None;
      messageTemplate := None;
    }

    method SetTriggerField(v: Option<string>)
      modifies this
      ensures triggerField == v && triggerValue == old(triggerValue) && requiresGrid == old(requiresGrid)
      ensures minEntries == old(minEntries) && requiresFields == old(requiresFields) && messageTemplate == old(messageTemplate)
    {
      triggerField := v;
    }

    method SetTriggerValue(v: Option<string>)
      modifies this
      ensures triggerValue == v && triggerField == old(triggerField) && requiresGrid == old(requiresGrid)
      ensures minEntries == old(minEntries) && requiresFields == old(requiresFields) && messageTemplate == old(messageTemplate)
    {
      triggerValue := v;
    }

    method SetRequiresGrid(v: Option<string>)
      modifies this
      ensures requiresGrid == v && triggerField == old(triggerField) && triggerValue == old(triggerValue)
      ensures minEntries == old(minEntries) && requiresFields == old(requiresFields) && messageTemplate == old(messageTemplate)
    {
      requiresGrid := v;
    }

    method SetMinEntries(v: Option<int>)
      modifies this
      ensures minEntries == v && triggerField == old(triggerField) && triggerValue == old(triggerValue)
      ensures requiresGrid == old(requiresGrid) && requiresFields == old(requiresFields) && messageTemplate == old(messageTemplate)
    {
      minEntries := v;
    }

    method SetRequiresFields(v: Option<seq<string>>)
      modifies this
      ensures requiresFields == v && triggerField == old(triggerField) && triggerValue == old(triggerValue)
      ensures requiresGrid == old(requiresGrid) && minEntries == old(minEntries) && messageTemplate == old(messageTemplate)
    {
      requiresFields := v;
    }

    method SetMessageTemplate(v: Option<string>)
      modifies this
      ensures messageTemplate == v && triggerField == old(triggerField) && triggerValue == old(triggerValue)
      ensures requiresGrid == old(requiresGrid) && minEntries == old(minEntries) && requiresFields == old(requiresFields)
    {
      messageTemplate := v;
    }

    /** `buildCondition`: the field, the operator and the value in single quotes. */
    function BuildCondition(): (r: string)
      reads this
      ensures StartsWith(r, StringOf(triggerField)) && EndsWith(r, "'")
    {
      var f := StringOf(triggerField);
      var c := f + CONDITION_OP + StringOf(triggerValue) + "'";
      assert c[..|f|] == f;
      c
    }

    /**
     * `generateMessage`: without a template, a message about the required
     * grid, else the required fields, else the failed condition; with one,
     * the template with its placeholders filled in. A null trigger field or
     * value makes `replace` throw.
     */
    function GenerateMessage(): (r: Result<string>)
      reads this
      ensures r.Err? <==> messageTemplate.Some? && messageTemplate.value != [] && (triggerField.None? || triggerValue.None?)
    {
      if messageTemplate.None? || messageTemplate.value == [] then
        if requiresGrid.Some? then
          Ok(requiresGrid.value + " is required when " + StringOf(triggerField) + " is '" + StringOf(triggerValue) + "'")
        else if requiresFields.Some? && requiresFields.value != [] then
          Ok(Join(requiresFields.value, ", ") + " is required when " + StringOf(triggerField) + " is '" + StringOf(triggerValue) + "'")
        else Ok("Validation failed for condition: " + BuildCondition())
      else if triggerField.None? || triggerValue.None? then Err(JavaValues.NULL_POINTER)
      else Ok(FillTemplate(messageTemplate.value, triggerField.value, triggerValue.value, MinText(minEntries)))
    }
  }

  /** `String.valueOf(minEntries)`, when there is a minimum. */
  function MinText(minEntries: Option<int>): Option<string>
  {
    if minEntries.Some? then Some(IntToString(minEntries.value)) else None
  }

  /**
   * The placeholders of a template filled in turn: the trigger field, then
   * the trigger value, then the minimum's text when there is one.
   */
  function FillTemplate(template: string, field: string, value: string, minText: Option<string>): string
  {
    var message := Replace(template, TRIGGER_FIELD, field);
    var message' := Replace(message, TRIGGER_VALUE, value);
    if minText.Some? then Replace(message', MIN_ENTRIES, minText.value) else message'
  }

  /** `BusinessRules`: the list of conditional rules, empty when created. */
  class BusinessRules {
    var conditionalRules: seq<ConditionalRule>

    constructor()
      ensures conditionalRules == []
    {
      conditionalRules := [];
    }

    method SetConditionalRules(rules: seq<ConditionalRule>)
      modifies this
      ensures conditionalRules == rules
    {
      conditionalRules := rules;
    }
  }

  // ---- reading a condition back ----

  /**
   * The field and value of a condition: the text before the first operator
   * and the text after it without the closing quote.
   */
  function ParseCondition(c: string): Option<(string, string)>
  {
    var k := IndexOfText(c, CONDITION_OP);
    if k.None? then None
    else
      var rest := c[k.value + |CONDITION_OP|..];
      if rest == [] || rest[|rest| - 1] != '\'' then None
      else Some((c[..k.value], rest[..|rest| - 1]))
  }

  /**
   * A condition built from a field name without '=' reads back as that
   * field and the value, whatever the value holds.
   */
  lemma ConditionRoundTrip(rule: ConditionalRule)
    requires '=' !in StringOf(rule.triggerField)
    ensures ParseCondition(rule.BuildCondition()) == Some((StringOf(rule.triggerField), StringOf(rule.triggerValue)))
  {
    var f := StringOf(rule.triggerField);
    var v := StringOf(rule.triggerValue);
    assert rule.BuildCondition() == f + CONDITION_OP + v + "'";
    ParseBuilt(f, v);
  }

  lemma ParseBuilt(f: string, v: string)
    requires '=' !in f
    ensures ParseCondition(f + CONDITION_OP + v + "'") == Some((f, v))
  {
    var tail := CONDITION_OP + v + "'";
    var c := f + CONDITION_OP + v + "'";
    assert c == f + tail;
    assert IndexOfText(c, CONDITION_OP) == Some(|f|) by {
      forall i | 0 <= i < |f| ensures !StartsWith((f + tail)[i..], CONDITION_OP) {
        if i + 1 < |f| {
          assert (f + tail)[i..][1] == f[i + 1];
        } else {
          assert (f + tail)[i..][1] == ' ';
        }
      }
      assert StartsWith(tail, CONDITION_OP);
      IndexOfTextAfter(f, tail, CONDITION_OP);
    }
    var rest := c[|f| + |CONDITION_OP|..];
    assert rest == v + "'" && rest[..|rest| - 1] == v && c[..|f|] == f;
  }

  // ---- messages ----

  /** Without a template, a required grid names itself in the message. */
  lemma GridMessage(rule: ConditionalRule)
    requires rule.messageTemplate.None? && rule.requiresGrid.Some?
    ensures rule.GenerateMessage().Ok?
    ensures StartsWith(rule.GenerateMessage().value, rule.requiresGrid.value + " is required when ")
    ensures EndsWith(rule.GenerateMessage().value, " is '" + StringOf(rule.triggerValue) + "'")
  {
    var a := rule.requiresGrid.value + " is required when ";
    var m := rule.GenerateMessage().value;
    StartsWithExtend(a + StringOf(rule.triggerField), " is '" + StringOf(rule.triggerValue) + "'", a);
    assert m == a + StringOf(rule.triggerField) + " is '" + StringOf(rule.triggerValue) + "'";
    assert m == (a + StringOf(rule.triggerField)) + (" is '" + StringOf(rule.triggerValue) + "'");
    EndsWithExtend(a + StringOf(rule.triggerField), " is '" + StringOf(rule.triggerValue) + "'", " is '" + StringOf(rule.triggerValue) + "'");
    assert StartsWith(a + StringOf(rule.triggerField), a);
  }

  /**
   * Without a template, grid or fields, the message quotes the condition,
   * which reads back as the trigger.
   */
  lemma FallbackMessage(rule: ConditionalRule)
    requires rule.messageTemplate.None? && rule.requiresGrid.None? && rule.requiresFields.None?
    requires '=' !in StringOf(rule.triggerField)
    ensures rule.GenerateMessage() == Ok("Validation failed for condition: " + rule.BuildCondition())
    ensures ParseCondition(rule.BuildCondition()) == Some((StringOf(rule.triggerField), StringOf(rule.triggerValue)))
  {
    ConditionRoundTrip(rule);
  }

  /**
   * Without a template or grid, the message starts with the required
   * fields joined by ", ", names every one of them, and ends with the
   * quoted trigger value.
   */
  lemma FieldsMessage(rule: ConditionalRule)
    requires rule.messageTemplate.None? || rule.messageTemplate.value == []
    requires rule.requiresGrid.None? && rule.requiresFields.Some? && rule.requiresFields.value != []
    ensures rule.GenerateMessage().Ok?
    ensures var m := rule.GenerateMessage().value;
      StartsWith(m, Join(rule.requiresFields.value, ", ")) &&
      EndsWith(m, " is '" + StringOf(rule.triggerValue) + "'") &&
      forall i :: 0 <= i < |rule.requiresFields.value| ==> Contains(m, rule.requiresFields.value[i])
  {
    var fs := rule.requiresFields.value;
    var j := Join(fs, ", ");
    var mid := " is required when " + StringOf(rule.triggerField);
    var tail := " is '" + StringOf(rule.triggerValue) + "'";
    var m := rule.GenerateMessage().value;
    assert m == j + mid + tail;
    assert StartsWith(j, j) by { assert j[..|j|] == j; }
    StartsWithExtend(j, mid, j);
    StartsWithExtend(j + mid, tail, j);
    assert EndsWith(tail, tail) by { assert tail[|tail| - |tail|..] == tail; }
    EndsWithExtend(j + mid, tail, tail);
    forall i | 0 <= i < |fs| ensures Contains(m, fs[i]) {
      JoinHasPart(fs, ", ", i);
      ContainsInPrefix(j, mid, fs[i]);
      ContainsInPrefix(j + mid, tail, fs[i]);
    }
  }

  /** The `{...}` placeholders never start inside one another or inside plain text. */
  lemma PlaceholdersHeadUnique()
    ensures HeadUnique(TRIGGER_FIELD) && HeadUnique(TRIGGER_VALUE) && HeadUnique(MIN_ENTRIES)
  {
    assert forall i :: 1 <= i < |TRIGGER_FIELD| ==> TRIGGER_FIELD[i] != '{';
    assert forall i :: 1 <= i < |TRIGGER_VALUE| ==> TRIGGER_VALUE[i] != '{';
    assert forall i :: 1 <= i < |MIN_ENTRIES| ==> MIN_ENTRIES[i] != '{';
  }

  /**
   * A template whose `{trigger_field}`s separate the pieces `ps` becomes
   * those pieces joined by the trigger field, when nothing in the result
   * looks like one of the other placeholders.
   */
  lemma FieldTemplate(rule: ConditionalRule, ps: seq<string>)
    requires rule.messageTemplate == Some(Join(ps, TRIGGER_FIELD)) && rule.messageTemplate.value != []
    requires rule.triggerField.Some? && rule.triggerValue.Some?
    requires forall i :: 0 <= i < |ps| ==> !Contains(ps[i], TRIGGER_FIELD)
    requires !Contains(Join(ps, rule.triggerField.value), TRIGGER_VALUE)
    requires !Contains(Join(ps, rule.triggerField.value), MIN_ENTRIES)
    ensures rule.GenerateMessage() == Ok(Join(ps, rule.triggerField.value))
  {
    FieldFill(ps, rule.triggerField.value, rule.triggerValue.value, MinText(rule.minEntries));
    TemplateMessage(rule);
  }

  lemma FieldFill(ps: seq<string>, f: string, v: string, m: Option<string>)
    requires forall i :: 0 <= i < |ps| ==> !Contains(ps[i], TRIGGER_FIELD)
    requires !Contains(Join(ps, f), TRIGGER_VALUE) && !Contains(Join(ps, f), MIN_ENTRIES)
    ensures FillTemplate(Join(ps, TRIGGER_FIELD), f, v, m) == Join(ps, f)
  {
    PlaceholdersHeadUnique();
    ReplaceJoin(ps, TRIGGER_FIELD, f);
    FillOnlyField(Join(ps, TRIGGER_FIELD), f, v, m);
  }

  /**
   * A template whose `{trigger_value}`s separate the pieces `ps`, and which
   * holds no `{trigger_field}`, becomes those pieces joined by the trigger
   * value.
   */
  lemma ValueTemplate(rule: ConditionalRule, ps: seq<string>)
    requires rule.messageTemplate == Some(Join(ps, TRIGGER_VALUE)) && rule.messageTemplate.value != []
    requires rule.triggerField.Some? && rule.triggerValue.Some?
    requires !Contains(Join(ps, TRIGGER_VALUE), TRIGGER_FIELD)
    requires forall i :: 0 <= i < |ps| ==> !Contains(ps[i], TRIGGER_VALUE)
    requires !Contains(Join(ps, rule.triggerValue.value), MIN_ENTRIES)
    ensures rule.GenerateMessage() == Ok(Join(ps, rule.triggerValue.value))
  {
    ValueFill(ps, rule.triggerField.value, rule.triggerValue.value, MinText(rule.minEntries));
    TemplateMessage(rule);
  }

  lemma ValueFill(ps: seq<string>, f: string, v: string, m: Option<string>)
    requires !Contains(Join(ps, TRIGGER_VALUE), TRIGGER_FIELD)
    requires forall i :: 0 <= i < |ps| ==> !Contains(ps[i], TRIGGER_VALUE)
    requires !Contains(Join(ps, v), MIN_ENTRIES)
    ensures FillTemplate(Join(ps, TRIGGER_VALUE), f, v, m) == Join(ps, v)
  {
    PlaceholdersHeadUnique();
    ReplaceJoin(ps, TRIGGER_VALUE, v);
    FillOnlyValue(Join(ps, TRIGGER_VALUE), f, v, m);
  }

  /**
   * A template whose `{min_entries}`s separate the pieces `ps`, and which
   * holds neither trigger placeholder, becomes those pieces joined by the
   * minimum in decimal; without a minimum it is left with its
   * `{min_entries}` in place.
   */
  lemma MinEntriesTemplate(rule: ConditionalRule, ps: seq<string>)
    requires rule.messageTemplate == Some(Join(ps, MIN_ENTRIES)) && rule.messageTemplate.value != []
    requires rule.triggerField.Some? && rule.triggerValue.Some?
    requires !Contains(Join(ps, MIN_ENTRIES), TRIGGER_FIELD) && !Contains(Join(ps, MIN_ENTRIES), TRIGGER_VALUE)
    requires forall i :: 0 <= i < |ps| ==> !Contains(ps[i], MIN_ENTRIES)
    ensures rule.minEntries.Some? ==> rule.GenerateMessage() == Ok(Join(ps, IntToString(rule.minEntries.value)))
    ensures rule.minEntries.None? ==> rule.GenerateMessage() == Ok(Join(ps, MIN_ENTRIES))
  {
    TemplateMessage(rule);
    if rule.minEntries.Some? {
      MinFillSome(ps, rule.triggerField.value, rule.triggerValue.value, IntToString(rule.minEntries.value));
    } else {
      MinFillNone(ps, rule.triggerField.value, rule.triggerValue.value);
    }
  }

  lemma MinFillSome(ps: seq<string>, f: string, v: string, d: string)
    requires !Contains(Join(ps, MIN_ENTRIES), TRIGGER_FIELD) && !Contains(Join(ps, MIN_ENTRIES), TRIGGER_VALUE)
    requires forall i :: 0 <= i < |ps| ==> !Contains(ps[i], MIN_ENTRIES)
    ensures FillTemplate(Join(ps, MIN_ENTRIES), f, v, Some(d)) == Join(ps, d)
  {
    FillOnlyMin(Join(ps, MIN_ENTRIES), f, v, d);
    MinJoin(ps, d);
  }

  lemma MinFillNone(ps: seq<string>, f: string, v: string)
    requires !Contains(Join(ps, MIN_ENTRIES), TRIGGER_FIELD) && !Contains(Join(ps, MIN_ENTRIES), TRIGGER_VALUE)
    ensures FillTemplate(Join(ps, MIN_ENTRIES), f, v, None) == Join(ps, MIN_ENTRIES)
  {
    FillNoMin(Join(ps, MIN_ENTRIES), f, v);
  }

  lemma MinJoin(ps: seq<string>, n: string)
    requires forall i :: 0 <= i < |ps| ==> !Contains(ps[i], MIN_ENTRIES)
    ensures Replace(Join(ps, MIN_ENTRIES), MIN_ENTRIES, n) == Join(ps, n)
  {
    PlaceholdersHeadUnique();
    ReplaceJoin(ps, MIN_ENTRIES, n);
  }

  /** With a template and both triggers set, the message is the filled template. */
  lemma TemplateMessage(rule: ConditionalRule)
    requires rule.messageTemplate.Some? && rule.messageTemplate.value != []
    requires rule.triggerField.Some? && rule.triggerValue.Some?
    ensures rule.GenerateMessage() ==
      Ok(FillTemplate(rule.messageTemplate.value, rule.triggerField.value, rule.triggerValue.value, MinText(rule.minEntries)))
  {
  }

  /** When filling the field leaves no other placeholder, the rest changes nothing. */
  lemma FillOnlyField(template: string, f: string, v: string, m: Option<string>)
    requires !Contains(Replace(template, TRIGGER_FIELD, f), TRIGGER_VALUE)
    requires !Contains(Replace(template, TRIGGER_FIELD, f), MIN_ENTRIES)
    ensures FillTemplate(template, f, v, m) == Replace(template, TRIGGER_FIELD, f)
  {
    var m1 := Replace(template, TRIGGER_FIELD, f);
    var m2 := Replace(m1, TRIGGER_VALUE, v);
    assert m2 == m1;
    if m.Some? {
      var m3 := Replace(m2, MIN_ENTRIES, m.value);
      assert m3 == m2;
    }
  }

  /** When the template holds no field placeholder and filling the value leaves no minimum one, only the value is filled. */
  lemma FillOnlyValue(template: string, f: string, v: string, m: Option<string>)
    requires !Contains(template, TRIGGER_FIELD)
    requires !Contains(Replace(template, TRIGGER_VALUE, v), MIN_ENTRIES)
    ensures FillTemplate(template, f, v, m) == Replace(template, TRIGGER_VALUE, v)
  {
    var m1 := Replace(template, TRIGGER_FIELD, f);
    assert m1 == template;
    var m2 := Replace(m1, TRIGGER_VALUE, v);
    if m.Some? {
      var m3 := Replace(m2, MIN_ENTRIES, m.value);
      assert m3 == m2;
    }
  }

  /** When the template holds neither trigger placeholder, only the minimum is filled. */
  lemma FillOnlyMin(template: string, f: string, v: string, d: string)
    requires !Contains(template, TRIGGER_FIELD) && !Contains(template, TRIGGER_VALUE)
    ensures FillTemplate(template, f, v, Some(d)) == Replace(template, MIN_ENTRIES, d)
  {
    var m1 := Replace(template, TRIGGER_FIELD, f);
    assert m1 == template;
    var m2 := Replace(m1, TRIGGER_VALUE, v);
    assert m2 == template;
  }

  /** Without a minimum, a template holding neither trigger placeholder is left as it is. */
  lemma FillNoMin(template: string, f: string, v: string)
    requires !Contains(template, TRIGGER_FIELD) && !Contains(template, TRIGGER_VALUE)
    ensures FillTemplate(template, f, v, None) == template
  {
    var m1 := Replace(template, TRIGGER_FIELD, f);
    assert m1 == template;
    var m2 := Replace(m1, TRIGGER_VALUE, v);
    assert m2 == template;
  }

  /** A template without placeholders is the message as it stands. */
  lemma TemplateWithoutPlaceholders(rule: ConditionalRule)
    requires rule.messageTemplate.Some? && rule.messageTemplate.value != []
    requires rule.triggerField.Some? && rule.triggerValue.Some?
    requires !Contains(rule.messageTemplate.value, TRIGGER_FIELD)
    requires !Contains(rule.messageTemplate.value, TRIGGER_VALUE)
    requires !Contains(rule.messageTemplate.value, MIN_ENTRIES)
    ensures rule.GenerateMessage() == Ok(rule.messageTemplate.value)
  {
  }

  /** With a template, a null trigger field makes message generation throw. */
  lemma NullTriggerWithTemplate(rule: ConditionalRule)
    requires rule.messageTemplate.Some? && rule.messageTemplate.value != [] && rule.triggerField.None?
    ensures rule.GenerateMessage() == Err(JavaValues.NULL_POINTER)
  {
  }
}
