/**
 * DocSubmitter: the process tool that finds the record id, extracts the
 * record, encodes it and sends it. The plugin properties are a map of
 * values; the workflow variables of the running process, the extractor,
 * the encoder and the API client are parameters.
 */
module DocSubmitterModel {
  import opened Wrappers
  import opened JavaStr
  import opened JavaValues
  import opened PluginResponseModel

  type Properties = map<string, Value>

  /** `getPropertyString(key, properties, default)`: `toString()` of a non-null value, else the default. */
  function PropertyOr(key: string, properties: Properties, default: string): (r: string)
    ensures key !in properties || properties[key].Null? ==> r == default
    ensures key in properties && properties[key].Str? ==> r == properties[key].s
  {
    if key in properties && !properties[key].Null? then ToJavaString(properties[key]) else default
  }

  /** `getPropertyString(key, properties)`: the default is "". */
  function Property(key: string, properties: Properties): (r: string)
    ensures r == PropertyOr(key, properties, "")
  {
    if key in properties && !properties[key].Null? then ToJavaString(properties[key]) else ""
  }

  /** A flag property is on only when its text is exactly "true". */
  predicate Flag(key: string, properties: Properties) { Property(key, properties) == "true" }

  // ---- the record id ----

  /** The workflow variables tried, in priority order. */
  const VARIABLE_NAMES: seq<string> := ["recordId", "formRecordId", "farmerId", "primaryKey", "id"]

  /** A usable id: not null and not blank after trimming. */
  predicate Usable(id: Option<string>) { id.Some? && !IsBlank(id.value) }

  /** `getProcessVariable`: null for a variable the process does not have. */
  function Variable(vars: map<string, string>, name: string): Option<string>
  {
    if name in vars then Some(vars[name]) else None
  }

  /**
   * The loop over the variable names: the first usable value; when none is
   * usable, the variable holds what the last lookup returned.
   */
  function Probe(names: seq<string>, vars: map<string, string>): (r: Option<string>)
    requires names != []
  {
    var v := Variable(vars, names[0]);
    if |names| == 1 || Usable(v) then v else Probe(names[1..], vars)
  }

  /**
   * The id `execute` works with: `specificFarmerId` in "specific" mode;
   * otherwise, with a workflow assignment, the probe over the variables;
   * without one, null. `process` is the running process's variables, None
   * when there is no assignment.
   */
  function RecordIdSpec(properties: Properties, process: Option<map<string, string>>): Option<string>
  {
    if Property("extractionMode", properties) == "specific" then Some(Property("specificFarmerId", properties))
    else if process.None? then None
    else Probe(VARIABLE_NAMES, process.value)
  }

  /** The record-id resolution at the start of `execute`, with its breaking loop. */
  method ResolveRecordId(properties: Properties, process: Option<map<string, string>>)
    returns (farmerId: Option<string>)
    ensures farmerId == RecordIdSpec(properties, process)
  {
    if Property("extractionMode", properties) == "specific" {
      return Some(Property("specificFarmerId", properties));
    }
    if process.None? {
      return None;
    }
    var vars := process.value;
    farmerId := None;
    var i := 0;
    while i < |VARIABLE_NAMES|
      invariant 0 <= i <= |VARIABLE_NAMES|
      invariant i > 0 ==> !Usable(farmerId) && farmerId == Variable(vars, VARIABLE_NAMES[i - 1])
      invariant i > 0 ==> Probe(VARIABLE_NAMES[i - 1..], vars) == Probe(VARIABLE_NAMES, vars)
    {
      farmerId := Variable(vars, VARIABLE_NAMES[i]);
      ProbeStep(VARIABLE_NAMES, i, vars);
      if Usable(farmerId) {
        return;
      }
      i := i + 1;
    }
  }

  /** Moving past a name whose value is not usable keeps the probe's answer. */
  lemma ProbeStep(names: seq<string>, i: nat, vars: map<string, string>)
    requires i < |names|
    requires i > 0 ==> !Usable(Variable(vars, names[i - 1])) && Probe(names[i - 1..], vars) == Probe(names, vars)
    ensures Probe(names[i..], vars) == Probe(names, vars)
    ensures Usable(Variable(vars, names[i])) || i == |names| - 1 ==> Probe(names, vars) == Variable(vars, names[i])
  {
    if i > 0 {
      assert names[i - 1..][1..] == names[i..];
    }
  }

  /** Some variable among `names` holds a usable id. */
  predicate AnyUsable(names: seq<string>, vars: map<string, string>)
  {
    exists k :: 0 <= k < |names| && Usable(Variable(vars, names[k]))
  }

  /** The `k`-th variable is the first one that holds a usable id. */
  predicate FirstUsableAt(names: seq<string>, vars: map<string, string>, k: int)
  {
    && 0 <= k < |names| && Usable(Variable(vars, names[k]))
    && forall j :: 0 <= j < k ==> !Usable(Variable(vars, names[j]))
  }

  /**
   * The probe finds a usable id exactly when some variable holds one, and
   * then it is the first such variable's value.
   */
  lemma ProbeFindsFirst(names: seq<string>, vars: map<string, string>)
    requires names != []
    ensures Usable(Probe(names, vars)) <==> exists k :: 0 <= k < |names| && Usable(Variable(vars, names[k]))
    ensures Usable(Probe(names, vars)) ==>
      exists k :: 0 <= k < |names| && Probe(names, vars) == Variable(vars, names[k]) &&
        forall j :: 0 <= j < k ==> !Usable(Variable(vars, names[j]))
  {
    ProbeFirst(names, vars);
    if Usable(Probe(names, vars)) {
      var k :| FirstUsableAt(names, vars, k) && Probe(names, vars) == Variable(vars, names[k]);
      assert Usable(Variable(vars, names[k]));
    }
  }

  lemma {:induction false} ProbeFirst(names: seq<string>, vars: map<string, string>)
    requires names != []
    ensures Usable(Probe(names, vars)) ==>
      exists k :: FirstUsableAt(names, vars, k) && Probe(names, vars) == Variable(vars, names[k])
    ensures !Usable(Probe(names, vars)) ==> !AnyUsable(names, vars)
  {
    if Usable(Variable(vars, names[0])) {
      assert FirstUsableAt(names, vars, 0);
    } else if |names| > 1 {
      var rest := names[1..];
      ProbeFirst(rest, vars);
      if Usable(Probe(rest, vars)) {
        var k :| FirstUsableAt(rest, vars, k) && Probe(rest, vars) == Variable(vars, rest[k]);
        FirstUsableShift(names, vars, k);
      }
    }
  }

  /** Behind an unusable first variable, the first usable one moves up by one place. */
  lemma FirstUsableShift(names: seq<string>, vars: map<string, string>, k: int)
    requires names != [] && !Usable(Variable(vars, names[0]))
    requires FirstUsableAt(names[1..], vars, k)
    ensures FirstUsableAt(names, vars, k + 1) && names[k + 1] == names[1..][k]
  {
    forall j | 0 <= j < k + 1
      ensures !Usable(Variable(vars, names[j]))
    {
      if j > 0 {
        assert names[j] == names[1..][j - 1];
      }
    }
  }

  // ---- data validation ----

  type FormData = seq<(string, Value)>

  /** A section value with data: a non-empty Map or a non-empty List. */
  predicate HasData(v: Value) { (v.Dict? && v.entries != []) || (v.List? && v.items != []) }

  /**
   * `validateData`: false for null or empty data; otherwise true exactly
   * when some section holds data.
   */
  method ValidateData(formData: Option<FormData>) returns (ok: bool)
    ensures ok <==> formData.Some? && exists k :: 0 <= k < |formData.value| && HasData(formData.value[k].1)
  {
    if formData.None? || formData.value == [] {
      return false;
    }
    var entries := formData.value;
    var i := 0;
    while i < |entries|
      invariant 0 <= i <= |entries|
      invariant forall k :: 0 <= k < i ==> !HasData(entries[k].1)
    {
      if HasData(entries[i].1) {
        return true;
      }
      i := i + 1;
    }
    return false;
  }

  // ---- execute ----

  datatype ApiResponse = ApiResponse(success: bool, message: string)

  /**
   * The collaborators of `execute`: the extractor (null for no data), the
   * encoder (null on failure), the test-data wrapper and the API client.
   */
  datatype Services = Services(
    extract: string -> Option<FormData>,
    encode: FormData -> Option<string>,
    wrap: string -> string,
    send: string -> ApiResponse)

  /** The JSON sent: wrapped in the test-data envelope when `useTestDataFormat` is on. */
  function Payload(properties: Properties, services: Services, json: string): string
  {
    if Flag("useTestDataFormat", properties) then services.wrap(json) else json
  }

  /** Some section of the record holds data, as `validateData` asks. */
  predicate HasAnyData(data: FormData)
  {
    exists k :: 0 <= k < |data| && HasData(data[k].1)
  }

  /** The record the id leads to, when there is one with something in it. */
  predicate Extracted(services: Services, id: Option<string>)
  {
    Usable(id) && services.extract(id.value).Some? && services.extract(id.value).value != []
  }

  /** Encoding, the optional validation and the API call all succeed for `data`. */
  predicate Delivered(properties: Properties, services: Services, data: FormData)
  {
    && services.encode(data).Some?
    && (Flag("validateBeforeSending", properties) ==> HasAnyData(data))
    && services.send(Payload(properties, services, services.encode(data).value)).success
  }

  /**
   * The steps of `execute` after extraction: encoding, the optional
   * validation, the optional test-data wrapping and the API call, each
   * failure with its own error response.
   */
  method Deliver(properties: Properties, services: Services, id: string, data: FormData)
    returns (r: PluginResponse)
    requires data != []
    ensures services.encode(data).None? ==> r == Error("Failed to build GovStack JSON")
    ensures services.encode(data).Some? && Flag("validateBeforeSending", properties) && !HasAnyData(data) ==>
      r == Error("Data validation failed - missing required fields")
    ensures (services.encode(data).Some? && (Flag("validateBeforeSending", properties) ==> HasAnyData(data)) &&
             !services.send(Payload(properties, services, services.encode(data).value)).success) ==>
      r == Error("Failed to send data: " + services.send(Payload(properties, services, services.encode(data).value)).message)
    ensures r.success <==> Delivered(properties, services, data)
    ensures r.success ==> r == Success("Successfully processed and sent registration data with ID: " + id)
  {
    var json := services.encode(data);
    if json.None? {
      return Error("Failed to build GovStack JSON");
    }
    if Flag("validateBeforeSending", properties) {
      var ok := ValidateData(Some(data));
      assert ok <==> HasAnyData(data);
      if !ok {
        return Error("Data validation failed - missing required fields");
      }
    }
    r := Send(properties, services, id, json.value);
  }

  /** The last step of delivery: wrap the document if asked to, post it, and report. */
  method Send(properties: Properties, services: Services, id: string, json: string) returns (r: PluginResponse)
    ensures !services.send(Payload(properties, services, json)).success ==>
      r == Error("Failed to send data: " + services.send(Payload(properties, services, json)).message)
    ensures r.success <==> services.send(Payload(properties, services, json)).success
    ensures r.success ==> r == Success("Successfully processed and sent registration data with ID: " + id)
  {
    var payload := json;
    if Flag("useTestDataFormat", properties) {
      payload := services.wrap(payload);
    }
    var response := services.send(payload);
    if response.success {
      return Success("Successfully processed and sent registration data with ID: " + id);
    }
    return Error("Failed to send data: " + response.message);
  }

  /**
   * `execute` after the configuration is read: the record id, extraction,
   * then the delivery steps; a missing id or an empty record ends it with
   * its own error response.
   */
  method Execute(properties: Properties, process: Option<map<string, string>>, services: Services)
    returns (r: PluginResponse)
    ensures var id := RecordIdSpec(properties, process);
      !Usable(id) ==> r == Error("Farmer ID not found")
    ensures var id := RecordIdSpec(properties, process);
      Usable(id) && !Extracted(services, id) ==> r == Error("No data found for record: " + id.value)
    ensures var id := RecordIdSpec(properties, process);
      Extracted(services, id) && services.encode(services.extract(id.value).value).None? ==>
        r == Error("Failed to build GovStack JSON")
    ensures var id := RecordIdSpec(properties, process);
      Extracted(services, id) && services.encode(services.extract(id.value).value).Some? &&
      Flag("validateBeforeSending", properties) && !HasAnyData(services.extract(id.value).value) ==>
        r == Error("Data validation failed - missing required fields")
    ensures r.success <==>
      var id := RecordIdSpec(properties, process);
      Extracted(services, id) && Delivered(properties, services, services.extract(id.value).value)
    ensures r.success ==>
      r == Success("Successfully processed and sent registration data with ID: " + RecordIdSpec(properties, process).value)
  {
    var farmerId := ResolveRecordId(properties, process);
    if !Usable(farmerId) {
      return Error("Farmer ID not found");
    }
    var id := farmerId.value;
    var formData := services.extract(id);
    if formData.None? || formData.value == [] {
      return Error("No data found for record: " + id);
    }
    r := Deliver(properties, services, id, formData.value);
  }

  // ---- properties ----

  /** A record of only an id string never passes validation. */
  lemma IdAloneIsNoData(id: string)
    ensures !HasAnyData([("id", Str(id))])
  {
  }

  /** In "specific" mode the id is the `specificFarmerId` property, "" when absent. */
  lemma SpecificModeId(properties: Properties)
    requires "extractionMode" in properties && properties["extractionMode"] == Str("specific")
    ensures RecordIdSpec(properties, None) == Some(PropertyOr("specificFarmerId", properties, ""))
    ensures "specificFarmerId" !in properties ==> !Usable(RecordIdSpec(properties, None))
  {
  }

  /**
   * Outside "specific" mode, with an assignment, the id is usable exactly
   * when some workflow variable holds one, and then it is the first in
   * priority order.
   */
  lemma WorkflowId(properties: Properties, vars: map<string, string>)
    requires Property("extractionMode", properties) != "specific"
    ensures Usable(RecordIdSpec(properties, Some(vars))) <==>
      exists k :: 0 <= k < |VARIABLE_NAMES| && Usable(Variable(vars, VARIABLE_NAMES[k]))
    ensures Usable(RecordIdSpec(properties, Some(vars))) ==>
      exists k :: 0 <= k < |VARIABLE_NAMES| && RecordIdSpec(properties, Some(vars)) == Variable(vars, VARIABLE_NAMES[k]) &&
        forall j :: 0 <= j < k ==> !Usable(Variable(vars, VARIABLE_NAMES[j]))
  {
    ProbeFindsFirst(VARIABLE_NAMES, vars);
  }
}
