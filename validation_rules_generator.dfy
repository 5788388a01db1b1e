/**
 * ValidationRulesGenerator: turns each business rule into one entry of
 * `validation_rules.conditional_validations`, in rule order. Reading the
 * two input files and writing the YAML output are not part of this model.
 */
module ValidationRulesGeneratorModel {
  import opened Wrappers
  import opened BusinessRulesModel
  import opened JavaValues
  import CommandLine

  /**
   * One conditional validation; a key the generator does not put is None.
   * The message is what the rule generates, or the generation fails.
   */
  datatype Validation = Validation(
    condition: string,
    requiredGrids: Option<seq<string>>,
    minEntries: Option<int>,
    requiredFields: Option<seq<string>>,
    message: string)

  /**
   * `buildConditionalValidation`: the condition and the message always; the
   * grid as a one-element list when the rule requires one, with the minimum
   * only when it is positive; the required fields only when there are some.
   */
  function BuildConditionalValidation(rule: ConditionalRule): (r: Result<Validation>)
    reads rule
    ensures r.Err? <==> rule.GenerateMessage().Err?
    ensures r.Ok? ==> r.value.condition == rule.BuildCondition() && Ok(r.value.message) == rule.GenerateMessage()
    ensures r.Ok? ==> (r.value.requiredGrids.Some? <==> rule.requiresGrid.Some?)
    ensures r.Ok? && rule.requiresGrid.Some? ==> r.value.requiredGrids == Some([rule.requiresGrid.value])
    ensures r.Ok? ==> (r.value.minEntries.Some? <==>
      rule.requiresGrid.Some? && rule.minEntries.Some? && rule.minEntries.value > 0)
    ensures r.Ok? && r.value.minEntries.Some? ==> r.value.minEntries == rule.minEntries
    ensures r.Ok? ==> (r.value.requiredFields.Some? <==> rule.requiresFields.Some? && rule.requiresFields.value != [])
    ensures r.Ok? && r.value.requiredFields.Some? ==> r.value.requiredFields == rule.requiresFields
  {
    var condition := rule.BuildCondition();
    var grids := if rule.requiresGrid.Some? then Some([rule.requiresGrid.value]) else None;
    var minEntries :=
      if rule.requiresGrid.Some? && rule.minEntries.Some? && rule.minEntries.value > 0 then rule.minEntries
      else None;
    var fields := if rule.requiresFields.Some? && rule.requiresFields.value != [] then rule.requiresFields else None;
    var message := rule.GenerateMessage();
    if message.Err? then Err(message.message)
    else Ok(Validation(condition, grids, minEntries, fields, message.value))
  }

  /**
   * The loop of `generate`: one validation per rule, in the rules' order;
   * the first rule whose message cannot be generated stops it.
   */
  method Generate(rules: BusinessRules) returns (r: Result<seq<Validation>>)
    ensures r.Err? <==> exists k :: 0 <= k < |rules.conditionalRules| && BuildConditionalValidation(rules.conditionalRules[k]).Err?
    ensures r.Ok? ==> |r.value| == |rules.conditionalRules|
    ensures r.Ok? ==> forall k :: 0 <= k < |r.value| ==> Ok(r.value[k]) == BuildConditionalValidation(rules.conditionalRules[k])
  {
    var conditionalValidations: seq<Validation> := [];
    var i := 0;
    while i < |rules.conditionalRules|
      invariant 0 <= i <= |rules.conditionalRules| && |conditionalValidations| == i
      invariant forall k :: 0 <= k < i ==> Ok(conditionalValidations[k]) == BuildConditionalValidation(rules.conditionalRules[k])
    {
      var validation := BuildConditionalValidation(rules.conditionalRules[i]);
      if validation.Err? {
        return Err(validation.message);
      }
      conditionalValidations := conditionalValidations + [validation.value];
      i := i + 1;
    }
    r := Ok(conditionalValidations);
  }

  /** `parseArgs`: the same loop as the services.yml generator's. */
  method ParseArgs(args: seq<string>) returns (params: map<string, string>)
    ensures params == CommandLine.ParseSpec(args)
  {
    params := CommandLine.ParseArgs(args);
  }

  // ---- properties ----

  /** A rule without a grid or a template gives just a condition and its message. */
  lemma PlainRule(rule: ConditionalRule)
    requires rule.requiresGrid.None? && rule.requiresFields.None? && rule.messageTemplate.None?
    requires '=' !in StringOf(rule.triggerField)
    ensures BuildConditionalValidation(rule).Ok?
    ensures BuildConditionalValidation(rule).value.requiredGrids.None?
    ensures BuildConditionalValidation(rule).value.minEntries.None?
    ensures BuildConditionalValidation(rule).value.requiredFields.None?
    ensures ParseCondition(BuildConditionalValidation(rule).value.condition) ==
      Some((StringOf(rule.triggerField), StringOf(rule.triggerValue)))
    ensures BuildConditionalValidation(rule).value.message ==
      "Validation failed for condition: " + BuildConditionalValidation(rule).value.condition
  {
    FallbackMessage(rule);
  }

  /** A minimum without a grid, or of zero, is dropped. */
  lemma MinimumNeedsGrid(rule: ConditionalRule)
    requires rule.requiresGrid.None? || (rule.minEntries.Some? && rule.minEntries.value <= 0)
    ensures BuildConditionalValidation(rule).Ok? ==> BuildConditionalValidation(rule).value.minEntries.None?
  {
  }
}
