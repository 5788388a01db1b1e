# doc-submitter, modelled in Dafny

This project models the metadata-driven mapping engine of doc-submitter, a Joget plugin that
reads a farmer-registration record out of Joget form tables and sends it, as a GovStack
registration JSON document, to a remote registration service. It models the engine's parts:

- the path-addressed JSON builder (`JsonBuilder`), with dotted and indexed paths, auto-created
  intermediate containers and the leaf-type coercions;
- the value transformers (boolean yes/no, multi-checkbox lists, ISO-8601 dates, numbers) and
  the registry that picks one per field (`TransformationService`);
- the services.yml metadata: its loader and queries (`YamlMetadataService`), its generator from
  mapping hints (`ServicesYamlGenerator`, `MappingHints`), the schema parser and the
  validation-rules generator;
- the record-graph extractor that walks parent rows, embedded references and grids
  (`GenericFormDataExtractor`);
- the encoder that turns the assembled record into the GovStack document
  (`GovStackJsonEncoder`);
- the schema validator, its results and its report (`DatabaseSchemaValidator`,
  `ValidationResult`, `TableValidation`, `ValidationReportGenerator`, `MappingValidator`);
- the plugin entry point that resolves the record id, extracts, validates and delivers
  (`DocSubmitter`, `PluginResponse`).

Each Java class becomes one Dafny module. Classes whose fields the Java code updates in place
(the JSON builder, the metadata service, the extractor, the validation results and reports) are
Dafny classes with `modifies` clauses. Their methods are proved against specification functions
over plain values, and the properties are lemmas about those functions. Pure helpers are
functions. The row store, the HTTP client, the clock, file reading and YAML parsing are
parameters of the model, given as plain values or as function-valued fields.

## Model

| member | source | states |
|---|---|---|
| JsonNodes.Get | src/main/java/global/govstack/registration/sender/util/JsonBuilder.java:189-198 | a member is found exactly when the object has that name, and what is found is that member's value |
| JsonNodes.Set | src/main/java/global/govstack/registration/sender/util/JsonBuilder.java:249-279 | after setting, the member reads back as the new value and every other member reads as before |
| JsonNodes.SetKeys | src/main/java/global/govstack/registration/sender/util/JsonBuilder.java:205-239 | an existing member keeps its place; a new member is appended after the others |
| JsonNodes.SetSet | src/main/java/global/govstack/registration/sender/util/JsonBuilder.java:249-279 | setting a member twice keeps only the second value |
| JsonNodes.SetSame | src/main/java/global/govstack/registration/sender/util/JsonBuilder.java:205-218 | setting a member to the value it already has changes nothing |
| JavaValues.ToNode | src/main/java/global/govstack/registration/sender/util/JsonBuilder.java:249-279 | null, strings, booleans, integers and doubles become the matching JSON scalar, a JsonNode is kept as it is, a list becomes an array of its converted items in order, a map an object of its keys with their converted values in order |
| JavaValues.DictGet | src/main/java/global/govstack/registration/sender/util/JsonBuilder.java:274-277 | a converted map has a member exactly when the map has the key, and that member is the conversion of the value the map gives for it |
| JsonBuilderModel.DigitRun | src/main/java/global/govstack/registration/sender/util/JsonBuilder.java:22 | the run counted is exactly the maximal run of decimal digits starting at that position |
| JsonBuilderModel.FindIndexMatch | src/main/java/global/govstack/registration/sender/util/JsonBuilder.java:58-59 | the match found is the leftmost position at or after the start where a bracketed digit run begins; there is none exactly when no position matches |
| JsonBuilderModel.ParseParts | src/main/java/global/govstack/registration/sender/util/JsonBuilder.java:50-62 | one segment per part, each the parse of that part |
| JsonBuilderModel.IndexedSegment | src/main/java/global/govstack/registration/sender/util/JsonBuilder.java:58-62 | a part made of a name without '[' and a bracketed digit run that fits an int parses to that name and that index |
| JsonBuilderModel.PlainSegment | src/main/java/global/govstack/registration/sender/util/JsonBuilder.java:57-59 | a part without '[' is a plain member name |
| JsonBuilderModel.ObjectChild | src/main/java/global/govstack/registration/sender/util/JsonBuilder.java:205-221 | the child that ensureObject leaves under the name is always an object |
| JsonBuilderModel.ArrayChild | src/main/java/global/govstack/registration/sender/util/JsonBuilder.java:223-239 | the child that ensureArray leaves under the name is always an array |
| JsonBuilderModel.PadTo | src/main/java/global/govstack/registration/sender/util/JsonBuilder.java:241-247 | padding gives max(old length, n) elements: the old elements in place, the filler after them |
| JsonBuilderModel.AtIndex | src/main/java/global/govstack/registration/sender/util/JsonBuilder.java:64-72 | an indexed write into an array always leaves an array |
| JsonBuilderModel.SetPathKeepsKind | src/main/java/global/govstack/registration/sender/util/JsonBuilder.java:53-83 | writing never changes the kind of the node written into, and a node that is neither an object nor an array is left alone |
| JsonBuilderModel.NoOpWrites | src/main/java/global/govstack/registration/sender/util/JsonBuilder.java:39-47 | a blank path or a null value leaves the document unchanged |
| JsonBuilderModel.SetPathTwice | src/main/java/global/govstack/registration/sender/util/JsonBuilder.java:53-83 | writing the same path twice equals writing only the second value |
| JsonBuilderModel.NonObjectTwice | src/main/java/global/govstack/registration/sender/util/JsonBuilder.java:205-239 | the same for a write that starts at a node that is not an object |
| JsonBuilderModel.NonObjectNoOp | src/main/java/global/govstack/registration/sender/util/JsonBuilder.java:58-81 | on a node that is not an object, a plain last part, an index that does not fit an int, or an indexed part on a node that is not an array either, changes nothing |
| JsonBuilderModel.FieldTwice | src/main/java/global/govstack/registration/sender/util/JsonBuilder.java:75-81 | the same-path-twice law for a walk that descends through an object member |
| JsonBuilderModel.IndexedTwice | src/main/java/global/govstack/registration/sender/util/JsonBuilder.java:58-72 | the same-path-twice law for a walk that starts with an indexed part |
| JsonBuilderModel.AtIndexTwice | src/main/java/global/govstack/registration/sender/util/JsonBuilder.java:241-309 | the same-path-twice law inside an array element |
| JsonBuilderModel.SetAtTwice | src/main/java/global/govstack/registration/sender/util/JsonBuilder.java:38-88 | writing two non-null values at the same path keeps only the last one |
| JsonBuilderModel.FinalIndexedWrite | src/main/java/global/govstack/registration/sender/util/JsonBuilder.java:282-309 | a final indexed write gives max(old length, index + 1) elements, puts the value at the index, keeps every other old element and fills the rest with nulls |
| JsonBuilderModel.FinalFieldWrite | src/main/java/global/govstack/registration/sender/util/JsonBuilder.java:249-280 | a final plain write sets exactly that member to the converted value and leaves every sibling unchanged |
| JsonBuilderModel.SiblingsUntouched | src/main/java/global/govstack/registration/sender/util/JsonBuilder.java:53-83 | members other than the first part's name are never touched by a write |
| JsonBuilderModel.ExampleNestedArrayPath | src/main/java/global/govstack/registration/sender/util/JsonBuilder.java:58-72 | writing "x" along a, b[1], c into an empty object gives {"a":{"b":[{},{"c":"x"}]}} |
| JsonBuilderModel.ExamplePathParse | src/main/java/global/govstack/registration/sender/util/JsonBuilder.java:50-62 | the path a.b[1].c parses to a plain part, an indexed part and a plain part |
| JsonBuilderModel.ExampleSetValue | src/main/java/global/govstack/registration/sender/util/JsonBuilder.java:38-88 | from an empty document, setValue("a.b[1].c", "x") makes a.b an array of two elements, the first an empty object and the second {"c":"x"} |
| JsonBuilderModel.AddItemPathKeepsObject | src/main/java/global/govstack/registration/sender/util/JsonBuilder.java:179-203 | walking an object with navigateToPath and appending keeps it an object |
| JsonBuilderModel.AddItemPathScalar | src/main/java/global/govstack/registration/sender/util/JsonBuilder.java:189-203 | a node that is neither an object nor an array is never changed |
| JsonBuilderModel.AddItemPathArray | src/main/java/global/govstack/registration/sender/util/JsonBuilder.java:103-106 | once the walk reaches an array, the remaining parts are ignored and the item is appended to that array |
| JsonBuilderModel.AddItemAtPlain | src/main/java/global/govstack/registration/sender/util/JsonBuilder.java:96-102 | for a non-blank path, addArrayItem walks the parts of the split path |
| JsonBuilderModel.AddArrayItemAsWritten | src/main/java/global/govstack/registration/sender/util/JsonBuilder.java:93-120 | as written, adding an item at the documented path extension.crops of an empty document makes extension an array holding the item, and no crops member is made |
| JsonBuilderModel.AddItemExtensionCrops | src/main/java/global/govstack/registration/sender/util/JsonBuilder.java:179-203 | the same for any non-blank path that splits into extension and crops |
| JsonBuilderModel.AppendAt | src/main/java/global/govstack/registration/sender/util/JsonBuilder.java:93-120 | the corrected walk of an object always leaves an object |
| JsonBuilderModel.PlainParts | src/main/java/global/govstack/registration/sender/util/JsonBuilder.java:183-187 | the parts kept are those without '[' |
| JsonBuilderModel.AppendAtReadBack | src/main/java/global/govstack/registration/sender/util/JsonBuilder.java:93-120 | with the correction, the member path reaches an array whose last element is the item |
| JsonBuilderModel.AddItemCorrectedPlain | src/main/java/global/govstack/registration/sender/util/JsonBuilder.java:96-102 | the corrected addArrayItem walks the plain parts of the split path |
| JsonBuilderModel.AddItemCorrectedReadBack | src/main/java/global/govstack/registration/sender/util/JsonBuilder.java:93-120 | with the correction, reading the path back gives an array whose last element is the item |
| JsonBuilderModel.PlugPush | src/main/java/global/govstack/registration/sender/util/JsonBuilder.java:51-83 | plugging a node under one more frame equals filling that frame first |
| JsonBuilderModel.PadElements | src/main/java/global/govstack/registration/sender/util/JsonBuilder.java:241-247 | the padding loop produces exactly the padded sequence |
| JsonBuilderModel.StepIntoObject | src/main/java/global/govstack/registration/sender/util/JsonBuilder.java:78-81 | descending into an object member, with that member replaced by an object where needed, keeps the document the write will produce |
| JsonBuilderModel.StepIndexed | src/main/java/global/govstack/registration/sender/util/JsonBuilder.java:58-64 | the same for an indexed part inside an object, with the member replaced by an array where needed |
| JsonBuilderModel.StepIndexedArray | src/main/java/global/govstack/registration/sender/util/JsonBuilder.java:223-238 | an indexed part applied to an array works on that array itself |
| JsonBuilderModel.StepElementLast | src/main/java/global/govstack/registration/sender/util/JsonBuilder.java:282-309 | a final indexed write is the null-padded array with the element replaced |
| JsonBuilderModel.StepIntoElement | src/main/java/global/govstack/registration/sender/util/JsonBuilder.java:241-247 | descending into an element padded with empty objects keeps the document the write will produce |
| JsonBuilderModel.StepPart | src/main/java/global/govstack/registration/sender/util/JsonBuilder.java:53-83 | one part of the loop: either the walk stops and the rest of the write changes nothing, or the frames and the cursor move on and the document the write will produce is unchanged |
| JsonBuilderModel.IndexedPart | src/main/java/global/govstack/registration/sender/util/JsonBuilder.java:64-72 | an indexed part applied to an array, padding as setArrayValue or ensureArrayElement does |
| JsonBuilderModel.JsonBuilder.constructor | src/main/java/global/govstack/registration/sender/util/JsonBuilder.java:27-30 | a new builder holds an empty object |
| JsonBuilderModel.JsonBuilder.Document | src/main/java/global/govstack/registration/sender/util/JsonBuilder.java:145-147 | the built document is always an object |
| JsonBuilderModel.JsonBuilder.SetValue | src/main/java/global/govstack/registration/sender/util/JsonBuilder.java:38-88 | the loop over the parts leaves exactly the document the path-write specification gives |
| JsonBuilderModel.JsonBuilder.AddArrayItem | src/main/java/global/govstack/registration/sender/util/JsonBuilder.java:96-120 | the loop over the parts leaves exactly the document the append specification gives |
| BooleanTransformer.Encode | src/main/java/global/govstack/registration/sender/service/transform/BooleanTransformer.java:16-43 | a null value encodes to false |
| BooleanTransformer.Decode | src/main/java/global/govstack/registration/sender/service/transform/BooleanTransformer.java:47-76 | the result is always "yes" or "no" |
| BooleanTransformer.EncodeBoolean | src/main/java/global/govstack/registration/sender/service/transform/BooleanTransformer.java:16-31 | a Boolean object encodes to itself, since its text is "true" or "false" |
| BooleanTransformer.RoundTrip | src/main/java/global/govstack/registration/sender/service/transform/BooleanTransformer.java:16-75 | a Boolean decodes to "yes" or "no", and encoding that word gives the same Boolean back |
| BooleanTransformer.EncodeDecodeStable | src/main/java/global/govstack/registration/sender/service/transform/BooleanTransformer.java:16-76 | encoding then decoding any value gives "yes" or "no", and a second encode-then-decode leaves that word unchanged |
| BooleanTransformer.Agree | src/main/java/global/govstack/registration/sender/service/transform/BooleanTransformer.java:21-75 | for every non-Boolean value other than the words "checked" and "on", encode is true exactly when decode gives "yes" |
| BooleanTransformer.CheckedIsOneWay | src/main/java/global/govstack/registration/sender/service/transform/BooleanTransformer.java:21-74 | "checked" and "on" encode to true but decode to "no" |
| MultiCheckboxTransformer.Kept | src/main/java/global/govstack/farmreg/registration/service/transform/MultiCheckboxTransformer.java:37-40 | trimming and dropping empty pieces keeps at most as many pieces, each non-empty and with nothing left to trim |
| MultiCheckboxTransformer.Encode | src/main/java/global/govstack/farmreg/registration/service/transform/MultiCheckboxTransformer.java:20-45 | the result is always a list; null or blank input gives the empty list; every item is a non-empty trimmed string |
| MultiCheckboxTransformer.NonNullTexts | src/main/java/global/govstack/farmreg/registration/service/transform/MultiCheckboxTransformer.java:57-60 | filtering out nulls never yields more texts than there were items |
| MultiCheckboxTransformer.Decode | src/main/java/global/govstack/farmreg/registration/service/transform/MultiCheckboxTransformer.java:48-91 | null gives ""; a list gives the texts of its non-null items joined with ';'; any other value not in square brackets gives its toString |
| MultiCheckboxTransformer.Unbracket | src/main/java/global/govstack/farmreg/registration/service/transform/MultiCheckboxTransformer.java:82-88 | the unbracketed text holds no double quote and no comma |
| MultiCheckboxTransformer.EncodeSemicolonJoined | src/main/java/global/govstack/farmreg/registration/service/transform/MultiCheckboxTransformer.java:29-40 | option names that are trimmed, non-empty and free of both separators, joined with ';', encode to exactly the list of those names |
| MultiCheckboxTransformer.EncodeCommaJoined | src/main/java/global/govstack/farmreg/registration/service/transform/MultiCheckboxTransformer.java:29-40 | the same names joined with ',' also encode to exactly that list, because the text holds no ';' |
| MultiCheckboxTransformer.CommaLikeSemicolon | src/main/java/global/govstack/farmreg/registration/service/transform/MultiCheckboxTransformer.java:29-40 | "a,b,c" and "a;b;c" encode to the same list |
| MultiCheckboxTransformer.RoundTrip | src/main/java/global/govstack/farmreg/registration/service/transform/MultiCheckboxTransformer.java:20-64 | names joined with ';' encode to their list, and decoding that list gives the same text back |
| MultiCheckboxTransformer.ListRoundTrip | src/main/java/global/govstack/farmreg/registration/service/transform/MultiCheckboxTransformer.java:20-64 | a list of clean names decoded to text and encoded again is the same list |
| MultiCheckboxTransformer.DecodeBracketed | src/main/java/global/govstack/farmreg/registration/service/transform/MultiCheckboxTransformer.java:79-90 | a bracketed text without quotes decodes to its inside with every comma turned into ';' |
| DateTransformer.DaysInMonth | src/main/java/global/govstack/farmreg/registration/service/transform/DateTransformer.java:47 | a month has 28 to 31 days, and 29 exactly for February of a leap year |
| DateTransformer.StripZone | src/main/java/global/govstack/farmreg/registration/service/transform/DateTransformer.java:74-76 | the stripped text holds no '+' and no 'Z', and a text holding neither is unchanged |
| DateTransformer.StripZonePrefix | src/main/java/global/govstack/farmreg/registration/service/transform/DateTransformer.java:75 | removing the zone leaves a leading part that holds no '+' or 'Z' untouched |
| DateTransformer.Encode | src/main/java/global/govstack/farmreg/registration/service/transform/DateTransformer.java:33-59 | the result is null exactly when the input is null or blank, and a string otherwise |
| DateTransformer.Decode | src/main/java/global/govstack/farmreg/registration/service/transform/DateTransformer.java:62-92 | the result is null exactly when the input is null or blank, and a string otherwise; which string is stated by the decode lemmas below |
| DateTransformer.DecodeRegion | src/main/java/global/govstack/farmreg/registration/service/transform/DateTransformer.java:71-78 | a valid date, a local time and an offset followed by a bracketed region id decode to the date when ZoneId knows the id, and come back unchanged when it does not |
| DateTransformer.RegionSuffix | src/main/java/global/govstack/farmreg/registration/service/transform/DateTransformer.java:77 | after the local time, an offset followed by `[id]` is accepted by ISO_DATE_TIME exactly when the id is a known region, and is never taken for a bare offset |
| DateTransformer.MidnightParses | src/main/java/global/govstack/farmreg/registration/service/transform/DateTransformer.java:47-48 | a valid date followed by "T00:00:00" is accepted by the ISO date-time parser |
| DateTransformer.EncodeKeepsIso | src/main/java/global/govstack/farmreg/registration/service/transform/DateTransformer.java:38-44 | a text with no trimmable character at either end that contains 'T' is taken as ISO and encodes to itself |
| DateTransformer.EncodeTextOfDate | src/main/java/global/govstack/farmreg/registration/service/transform/DateTransformer.java:45-48 | a valid yyyy-MM-dd date encodes to that date followed by "T00:00:00Z" |
| DateTransformer.EncodeTextOfNonDate | src/main/java/global/govstack/farmreg/registration/service/transform/DateTransformer.java:45-58 | a yyyy-MM-dd text naming no real day fails LocalDate.parse and comes back unchanged |
| DateTransformer.DecodeTextOfMidnight | src/main/java/global/govstack/farmreg/registration/service/transform/DateTransformer.java:71-78 | the midnight-UTC form of a valid date decodes to the date |
| DateTransformer.DecodeTextParsed | src/main/java/global/govstack/farmreg/registration/service/transform/DateTransformer.java:71-78 | a text with 'T' whose zone-stripped form parses decodes to the first ten characters of that form |
| DateTransformer.DecodeKeepsDatePart | src/main/java/global/govstack/farmreg/registration/service/transform/DateTransformer.java:71-78 | a date-time starting with a valid date decodes to that calendar date, whatever the time and zone after it |
| DateTransformer.DecodeTextOfDateShape | src/main/java/global/govstack/farmreg/registration/service/transform/DateTransformer.java:79-81 | a yyyy-MM-dd text decodes to itself |
| DateTransformer.RoundTrip | src/main/java/global/govstack/farmreg/registration/service/transform/DateTransformer.java:33-81 | a valid date encodes to its midnight-UTC form, and decoding that gives the date back |
| DateTransformer.NonDatePassesThrough | src/main/java/global/govstack/farmreg/registration/service/transform/DateTransformer.java:45-81 | a yyyy-MM-dd text naming no real day, such as 2023-02-29, passes through both directions unchanged |
| DateTransformer.EncodeIdempotent | src/main/java/global/govstack/farmreg/registration/service/transform/DateTransformer.java:33-59 | when the lenient formatter only produces trimmed text containing 'T', encoding an encoded value changes nothing |
| DateTransformer.EncodedText | src/main/java/global/govstack/farmreg/registration/service/transform/DateTransformer.java:38-58 | under the same assumption, the text encode produces is trimmed, non-empty and a fixed point of encode |
| NumericTransformer.Encode | src/main/java/global/govstack/farmreg/registration/service/transform/NumericTransformer.java:15-35 | null or blank gives null; a kept string is the trimmed input; an integer lies in the 64-bit range and came from text without '.'; a double came from text with '.' |
| NumericTransformer.Decode | src/main/java/global/govstack/farmreg/registration/service/transform/NumericTransformer.java:38-50 | a String is returned unchanged and null gives "" |
| NumericTransformer.EncodeLongText | src/main/java/global/govstack/farmreg/registration/service/transform/NumericTransformer.java:20-29 | the decimal text of a 64-bit integer encodes to that integer |
| NumericTransformer.RoundTrip | src/main/java/global/govstack/farmreg/registration/service/transform/NumericTransformer.java:15-50 | a 64-bit integer survives decode then encode, and its text survives encode then decode |
| NumericTransformer.EncodeInteger | src/main/java/global/govstack/farmreg/registration/service/transform/NumericTransformer.java:20-29 | an Integer or Long object encodes to itself |
| NumericTransformer.OverflowKeepsText | src/main/java/global/govstack/farmreg/registration/service/transform/NumericTransformer.java:28-33 | digits outside the 64-bit range are not a number: the text is kept |
| NumericTransformer.NonNumberKeepsText | src/main/java/global/govstack/farmreg/registration/service/transform/NumericTransformer.java:28-45 | text without '.' that Long.parseLong refuses comes back trimmed, and decoding that gives the trimmed text again |
| NumericTransformer.EncodeIdempotent | src/main/java/global/govstack/farmreg/registration/service/transform/NumericTransformer.java:15-35 | on text without '.', encoding what encode produced changes nothing |
| TransformationService.FirstSupporting | src/main/java/global/govstack/farmreg/registration/service/transform/TransformationService.java:49-50 | the chosen position supports the type and no earlier transformer does; there is none exactly when no transformer supports the type |
| TransformationService.Registry.constructor | src/main/java/global/govstack/farmreg/registration/service/transform/TransformationService.java:20-32 | a new registry holds the date, boolean, numeric and multi-checkbox transformers in that order |
| TransformationService.Registry.RegisterTransformer | src/main/java/global/govstack/farmreg/registration/service/transform/TransformationService.java:138-141 | the transformer is appended after every one already registered |
| TransformationService.Registry.Find | src/main/java/global/govstack/farmreg/registration/service/transform/TransformationService.java:49-61 | the loop finds the first registered transformer that supports the type |
| TransformationService.Registry.Encode | src/main/java/global/govstack/farmreg/registration/service/transform/TransformationService.java:44-65 | encode returns what the specification of the registry gives: the value for a null or blank type, the first supporting transformer's result, the value when that transformer fails, the value when none supports the type |
| TransformationService.Registry.Decode | src/main/java/global/govstack/farmreg/registration/service/transform/TransformationService.java:74-95 | decode is the mirror image of encode with each transformer's decode |
| TransformationService.Registry.IsTransformationSupported | src/main/java/global/govstack/farmreg/registration/service/transform/TransformationService.java:149-155 | true exactly when the type is not null or blank and some registered transformer supports it |
| TransformationService.Lookup | src/main/java/global/govstack/farmreg/registration/service/transform/TransformationService.java:114-115 | the looked-up value is the one stored with that key |
| TransformationService.ReverseLookup | src/main/java/global/govstack/farmreg/registration/service/transform/TransformationService.java:121-126 | a found key belongs to an entry whose value prints as the text; nothing is found exactly when no entry's value prints as the text |
| TransformationService.ApplyValueMapping | src/main/java/global/govstack/farmreg/registration/service/transform/TransformationService.java:105-131 | the method, with its loop over the entries, returns what the value-mapping specification gives |
| TransformationService.FirstSupportingAt | src/main/java/global/govstack/farmreg/registration/service/transform/TransformationService.java:49-50 | a transformer that supports the type, with none before it that does, is the one chosen |
| TransformationService.NoTypeKeepsValue | src/main/java/global/govstack/farmreg/registration/service/transform/TransformationService.java:44-47 | a null or blank type returns the value unchanged in both directions |
| TransformationService.FirstSupportingAppend | src/main/java/global/govstack/farmreg/registration/service/transform/TransformationService.java:138-139 | registering a transformer never changes which one handles a type that was already handled |
| TransformationService.RegisterKeepsHandled | src/main/java/global/govstack/farmreg/registration/service/transform/TransformationService.java:44-95 | after registering, encode and decode of an already handled type give the same results as before |
| TransformationService.FirstSupportingNew | src/main/java/global/govstack/farmreg/registration/service/transform/TransformationService.java:138-139 | a type no one handled goes to a newly registered transformer that supports it |
| TransformationService.DefaultsBoolean | src/main/java/global/govstack/farmreg/registration/service/transform/TransformationService.java:28-32 | the default registry hands the type "boolean" to the boolean transformer in both directions |
| TransformationService.DefaultsBooleanType | src/main/java/global/govstack/farmreg/registration/service/transform/TransformationService.java:28-61 | any type the date transformer declines and the boolean one accepts goes to the boolean transformer |
| TransformationService.DefaultsSelectBoolean | src/main/java/global/govstack/farmreg/registration/service/transform/TransformationService.java:28-32 | such a type selects position 1 of the default registry, which is the boolean transformer |
| TransformationService.SelectedTransformer | src/main/java/global/govstack/farmreg/registration/service/transform/TransformationService.java:44-95 | for a non-blank type, encode and decode give the first supporting transformer's result, or the value itself when that transformer throws |
| TransformationService.EncodeFindsEntry | src/main/java/global/govstack/farmreg/registration/service/transform/TransformationService.java:110-117 | encoding a non-null value whose text is a key gives the value mapped to that key |
| TransformationService.EncodeLooksUp | src/main/java/global/govstack/farmreg/registration/service/transform/TransformationService.java:112-117 | encoding a key's text gives the value mapped to that key |
| TransformationService.DecodeFindsKey | src/main/java/global/govstack/farmreg/registration/service/transform/TransformationService.java:119-126 | when the mapped values print differently, decoding an entry's value gives that entry's key |
| TransformationService.MappingRoundTrip | src/main/java/global/govstack/farmreg/registration/service/transform/TransformationService.java:105-131 | with unique keys and distinct, non-null values, decoding what a key encodes to gives the key back |
| TransformationService.UnmappedKeepsValue | src/main/java/global/govstack/farmreg/registration/service/transform/TransformationService.java:110-130 | a value whose text is no key encodes to itself, and one no mapped value prints as decodes to itself |
| GovStackJsonEncoderModel.NestedPath | src/main/java/global/govstack/registration/sender/service/metadata/GovStackJsonEncoder.java:284-298 | writing with the cursor of setNestedValue always leaves an object |
| GovStackJsonEncoderModel.Nested | src/main/java/global/govstack/registration/sender/service/metadata/GovStackJsonEncoder.java:284-332 | a successful nested write leaves an object |
| GovStackJsonEncoderModel.SetNestedValue | src/main/java/global/govstack/registration/sender/service/metadata/GovStackJsonEncoder.java:284-332 | the cursor loop returns exactly what the nested-write specification gives, including the exception for a path with no last part |
| GovStackJsonEncoderModel.SetAtKeepsObject | src/main/java/global/govstack/registration/sender/service/metadata/GovStackJsonEncoder.java:249 | a builder write never turns the root object into anything else |
| GovStackJsonEncoderModel.PlainWrite | src/main/java/global/govstack/registration/sender/service/metadata/GovStackJsonEncoder.java:249 | a builder write at a plain name (no dot, no bracket, not blank) sets exactly that member to the converted value |
| GovStackJsonEncoderModel.GovStackJsonEncoder.constructor | src/main/java/global/govstack/registration/sender/service/metadata/GovStackJsonEncoder.java:34-38 | the encoder keeps its metadata service and gets a fresh registry holding the four built-in transformers |
| GovStackJsonEncoderModel.GovStackJsonEncoder.ApplyFieldTransformations | src/main/java/global/govstack/registration/sender/service/metadata/GovStackJsonEncoder.java:265-279 | the method returns the field's transform through the registry followed by its value-mapping in the encode direction |
| GovStackJsonEncoderModel.GovStackJsonEncoder.ProcessField | src/main/java/global/govstack/registration/sender/service/metadata/GovStackJsonEncoder.java:218-260 | the builder ends up holding the specified field write, and an exception is raised exactly when the specification raises one |
| GovStackJsonEncoderModel.GovStackJsonEncoder.ProcessFormSection | src/main/java/global/govstack/registration/sender/service/metadata/GovStackJsonEncoder.java:113-133 | the builder ends up holding the specified section write, field by field, and fails exactly when that write throws |
| GovStackJsonEncoderModel.GovStackJsonEncoder.ItemFields | src/main/java/global/govstack/registration/sender/service/metadata/GovStackJsonEncoder.java:181-206 | the fields written into one item leave an object |
| GovStackJsonEncoderModel.GovStackJsonEncoder.ItemNode | src/main/java/global/govstack/registration/sender/service/metadata/GovStackJsonEncoder.java:177-209 | a row's item, when it is built, is an object |
| GovStackJsonEncoderModel.GovStackJsonEncoder.BuildItem | src/main/java/global/govstack/registration/sender/service/metadata/GovStackJsonEncoder.java:177-209 | the loop over one row's fields builds exactly the specified item |
| GovStackJsonEncoderModel.GovStackJsonEncoder.ProcessArraySection | src/main/java/global/govstack/registration/sender/service/metadata/GovStackJsonEncoder.java:138-213 | the builder ends up holding the specified array write: the items of all rows at the section's path |
| GovStackJsonEncoderModel.GovStackJsonEncoder.ProcessSection | src/main/java/global/govstack/registration/sender/service/metadata/GovStackJsonEncoder.java:62-87 | one entry of the section loop: skipped without config or data, else written as an array or an object section |
| GovStackJsonEncoderModel.GovStackJsonEncoder.AddMetadata | src/main/java/global/govstack/registration/sender/service/metadata/GovStackJsonEncoder.java:337-366 | the builder ends up holding the specified metadata writes |
| GovStackJsonEncoderModel.GovStackJsonEncoder.EncodeToGovStackJson | src/main/java/global/govstack/registration/sender/service/metadata/GovStackJsonEncoder.java:46-108 | the method returns the specified document, or nothing when there are no form mappings or anything throws |
| GovStackJsonEncoderModel.NoMappingsNoDocument | src/main/java/global/govstack/registration/sender/service/metadata/GovStackJsonEncoder.java:54-59 | without form mappings the answer is null |
| GovStackJsonEncoderModel.MissingSectionSkipped | src/main/java/global/govstack/registration/sender/service/metadata/GovStackJsonEncoder.java:71-76 | a section the record does not hold writes nothing |
| GovStackJsonEncoderModel.FieldNamePriority | src/main/java/global/govstack/registration/sender/service/metadata/GovStackJsonEncoder.java:220-227 | the source name is field_id when it is set, otherwise joget; the target is jsonPath when it is set, otherwise govstack |
| GovStackJsonEncoderModel.FieldWithoutNamesIgnored | src/main/java/global/govstack/registration/sender/service/metadata/GovStackJsonEncoder.java:229-231 | a field without a source name or without a target path writes nothing |
| GovStackJsonEncoderModel.BlankValueNotWritten | src/main/java/global/govstack/registration/sender/service/metadata/GovStackJsonEncoder.java:236-243 | in an object section a null or blank value is never written, whatever the required flag says |
| GovStackJsonEncoderModel.TypePairNeedsBoth | src/main/java/global/govstack/registration/sender/service/metadata/GovStackJsonEncoder.java:246-257 | when govstackType or typeValue is missing, the field's write is the transformed value alone |
| GovStackJsonEncoderModel.FieldReadsBack | src/main/java/global/govstack/registration/sender/service/metadata/GovStackJsonEncoder.java:246-249 | a present value written at a plain target reads back there, transformed |
| GovStackJsonEncoderModel.MappingAfterTransform | src/main/java/global/govstack/registration/sender/service/metadata/GovStackJsonEncoder.java:265-279 | the value-mapping is applied to the transformed value: a mapping keyed by the transformed text answers its entry for that text |
| GovStackJsonEncoderModel.UntransformedPassesThrough | src/main/java/global/govstack/registration/sender/service/metadata/GovStackJsonEncoder.java:265-279 | without a transform and a value-mapping the value passes unchanged |
| GovStackJsonEncoderModel.OneItemPerRow | src/main/java/global/govstack/registration/sender/service/metadata/GovStackJsonEncoder.java:174-209 | an array section has exactly one item per row, in order, each that row's own item object |
| GovStackJsonEncoderModel.RowWithoutValuesGivesEmptyItem | src/main/java/global/govstack/registration/sender/service/metadata/GovStackJsonEncoder.java:177-208 | a row that holds none of the fields' source names still yields an item, an empty one |
| GovStackJsonEncoderModel.BlankKeptInItems | src/main/java/global/govstack/registration/sender/service/metadata/GovStackJsonEncoder.java:196-205 | in an array item a blank string is kept and written at its target |
| GovStackJsonEncoderModel.NestedReadsBack | src/main/java/global/govstack/registration/sender/service/metadata/GovStackJsonEncoder.java:284-332 | a nested write along a path whose members are missing or objects reads back at that path |
| GovStackJsonEncoderModel.NestedSiblings | src/main/java/global/govstack/registration/sender/service/metadata/GovStackJsonEncoder.java:284-332 | members other than the first part's are untouched by a nested write |
| GovStackJsonEncoderModel.ScalarOnPathSteppedOver | src/main/java/global/govstack/registration/sender/service/metadata/GovStackJsonEncoder.java:291-297 | a member on the way that is not an object is stepped over: writing a.b where a holds a scalar sets b beside a and keeps a |
| GovStackJsonEncoderModel.MetadataReadsBack | src/main/java/global/govstack/registration/sender/service/metadata/GovStackJsonEncoder.java:337-366 | the metadata reads back: the timestamp, the record id as a string when the record has one, and the service id when it is set |
| GovStackJsonEncoderModel.MetadataGets | src/main/java/global/govstack/registration/sender/service/metadata/GovStackJsonEncoder.java:337-366 | each metadata member read after the chain of writes has the value last written to it |
| GovStackJsonEncoderModel.DocumentCarriesMetadata | src/main/java/global/govstack/registration/sender/service/metadata/GovStackJsonEncoder.java:46-108 | a document, when there is one, is an object carrying the timestamp and, when the record has an id, that id as a string |
| GovStackJsonEncoderModel.SectionsKeepObject | src/main/java/global/govstack/registration/sender/service/metadata/GovStackJsonEncoder.java:62-87 | the section loop keeps the document an object |
| GovStackJsonEncoderModel.SectionKeepsObject | src/main/java/global/govstack/registration/sender/service/metadata/GovStackJsonEncoder.java:62-87 | one section's write keeps the document an object |
| GovStackJsonEncoderModel.FieldsKeepObject | src/main/java/global/govstack/registration/sender/service/metadata/GovStackJsonEncoder.java:130-132 | the field loop keeps the document an object |
| GovStackJsonEncoderModel.FieldKeepsObject | src/main/java/global/govstack/registration/sender/service/metadata/GovStackJsonEncoder.java:218-260 | one field's write keeps the document an object |
| YamlMetadataServiceModel.CastMap | src/main/java/global/govstack/registration/sender/service/metadata/YamlMetadataService.java:62-77 | a map cast succeeds exactly on null or a mapping, null giving none and a mapping its own entries |
| YamlMetadataServiceModel.CheckLoad | src/main/java/global/govstack/registration/sender/service/metadata/YamlMetadataService.java:33-98 | loading succeeds exactly when the document is a mapping whose `service` is a mapping with the requested `id` and whose `formMappings` is a mapping, and then yields those two blocks |
| YamlMetadataServiceModel.LoadFailures | src/main/java/global/govstack/registration/sender/service/metadata/YamlMetadataService.java:62-77 | a missing service block, an id that differs (or is null) and missing form mappings each fail with their own ConfigurationException message, the mismatch naming both ids |
| YamlMetadataServiceModel.StructureOrEmpty | src/main/java/global/govstack/registration/sender/service/metadata/YamlMetadataService.java:82-90 | an unreadable structure file becomes an empty mapping and a readable mapping is stored as it is |
| YamlMetadataServiceModel.WithColumnPrefix | src/main/java/global/govstack/registration/sender/service/metadata/YamlMetadataService.java:504-510 | the column starts with `c_` and ends with the field name, and an already prefixed name is kept |
| YamlMetadataServiceModel.ColumnPrefixIdempotent | src/main/java/global/govstack/registration/sender/service/metadata/YamlMetadataService.java:504-510 | prefixing twice is prefixing once, and an unprefixed name gains exactly `c_` |
| YamlMetadataServiceModel.FindInFields | src/main/java/global/govstack/registration/sender/service/metadata/YamlMetadataService.java:166-178 | a field the inner loop returns has the requested `joget` (and a `valueMapping` map when one is required) |
| YamlMetadataServiceModel.FindField | src/main/java/global/govstack/registration/sender/service/metadata/YamlMetadataService.java:160-203 | a field the section loops return matches the requested name |
| YamlMetadataServiceModel.FirstMatchIsFirst | src/main/java/global/govstack/registration/sender/service/metadata/YamlMetadataService.java:166-178 | the first-match position matches, nothing before it matches, and with no match nothing matches |
| YamlMetadataServiceModel.FindInFieldsIsFirst | src/main/java/global/govstack/registration/sender/service/metadata/YamlMetadataService.java:166-178 | over a list of mappings the inner loop returns exactly the first matching field, or none |
| YamlMetadataServiceModel.FindFieldIsFirst | src/main/java/global/govstack/registration/sender/service/metadata/YamlMetadataService.java:160-203 | when every section reads cleanly, the search returns the first match across all sections in order, or none |
| YamlMetadataServiceModel.StringMap | src/main/java/global/govstack/registration/sender/service/metadata/YamlMetadataService.java:170-174 | the stringified value map has exactly the keys of the original map |
| YamlMetadataServiceModel.StringMapLastWins | src/main/java/global/govstack/registration/sender/service/metadata/YamlMetadataService.java:172-174 | a key's stringified value is that of its last entry, as `put` overwrites |
| YamlMetadataServiceModel.TransformationOfFirst | src/main/java/global/govstack/registration/sender/service/metadata/YamlMetadataService.java:189-203 | `getTransformation` answers the `transform` of the first field with the name, and null when none has it |
| YamlMetadataServiceModel.ValueMappingOfFirst | src/main/java/global/govstack/registration/sender/service/metadata/YamlMetadataService.java:160-182 | `getValueMapping` answers the stringified map of the first field with the name that has a map, and null when none has |
| YamlMetadataServiceModel.YamlMetadataService.constructor | src/main/java/global/govstack/registration/sender/service/metadata/YamlMetadataService.java:351-355 | a new service holds no metadata, mappings, structure or service id |
| YamlMetadataServiceModel.YamlMetadataService.LoadMetadata | src/main/java/global/govstack/registration/sender/service/metadata/YamlMetadataService.java:33-98 | the id is recorded; the call fails exactly when the checks fail, with their message; blocks read before a failure stay stored; the structure is replaced only on success |
| YamlMetadataServiceModel.YamlMetadataService.FieldMappings | src/main/java/global/govstack/registration/sender/service/metadata/YamlMetadataService.java:105-121 | a non-mapping section throws; a non-empty answer is the section's `fields` list |
| YamlMetadataServiceModel.YamlMetadataService.GetFormStructureFields | src/main/java/global/govstack/registration/sender/service/metadata/YamlMetadataService.java:551-579 | the loop over sections returns the form's `all_fields` or its sections' field lists, as the specification function gives |
| YamlMetadataServiceModel.YamlMetadataService.GetMergedFieldMappings | src/main/java/global/govstack/registration/sender/service/metadata/YamlMetadataService.java:589-626 | the lookup loop and the merge loop return what the merge specification gives |
| YamlMetadataServiceModel.YamlMetadataService.GridForeignKeyColumn | src/main/java/global/govstack/registration/sender/service/metadata/YamlMetadataService.java:641-708 | a column is returned only as the grid search finds it, and any exception gives null |
| YamlMetadataServiceModel.MissingStructureIsEmpty | src/main/java/global/govstack/registration/sender/service/metadata/YamlMetadataService.java:82-90 | with no readable structure file every form has no structure, no fields, no table and no grid column |
| YamlMetadataServiceModel.RequiredKeys | src/main/java/global/govstack/registration/sender/service/metadata/YamlMetadataService.java:225-259 | the form id falls back to the service id; without a `serviceConfig` the parent form id and table name throw naming the key and service; any answer comes from a configured key |
| YamlMetadataServiceModel.ParentFormIdConfigured | src/main/java/global/govstack/registration/sender/service/metadata/YamlMetadataService.java:238-245 | a configured parent form id is returned as it stands |
| YamlMetadataServiceModel.FormIdAfterLoad | src/main/java/global/govstack/registration/sender/service/metadata/YamlMetadataService.java:225-231 | after a load the form id is the service's `formId` when present, else the id it was loaded for |
| YamlMetadataServiceModel.ForeignKeyFromSection | src/main/java/global/govstack/registration/sender/service/metadata/YamlMetadataService.java:498-510 | a section's `parentKey` is the column, else its `parentField` with the `c_` prefix |
| YamlMetadataServiceModel.ForeignKeyFromStructure | src/main/java/global/govstack/registration/sender/service/metadata/YamlMetadataService.java:514-528 | without a section entry the structure's `parent_key`, else its `parentField` prefixed, is the column |
| YamlMetadataServiceModel.ForeignKeyDefault | src/main/java/global/govstack/registration/sender/service/metadata/YamlMetadataService.java:531-542 | with nothing configured a non-empty default is the column, and a missing or empty default throws |
| YamlMetadataServiceModel.ParentFieldColumnPrefixed | src/main/java/global/govstack/registration/sender/service/metadata/YamlMetadataService.java:504-510 | a column taken from a parent field always carries the `c_` prefix |
| YamlMetadataServiceModel.SectionsFieldsMembers | src/main/java/global/govstack/registration/sender/service/metadata/YamlMetadataService.java:551-579 | a field is among the concatenated section fields exactly when some mapping section lists it |
| YamlMetadataServiceModel.SectionsFieldsAppend | src/main/java/global/govstack/registration/sender/service/metadata/YamlMetadataService.java:551-579 | the concatenated section fields of two runs of sections are the two concatenations joined |
| YamlMetadataServiceModel.StructureFieldsSources | src/main/java/global/govstack/registration/sender/service/metadata/YamlMetadataService.java:551-579 | `all_fields` wins when it is a list, else every section's fields in order, else none |
| YamlMetadataServiceModel.TwoSections | src/main/java/global/govstack/registration/sender/service/metadata/YamlMetadataService.java:551-579 | two sections give their field lists one after the other |
| YamlMetadataServiceModel.Put | src/main/java/global/govstack/registration/sender/service/metadata/YamlMetadataService.java:609-619 | after `put` the key holds the new value |
| YamlMetadataServiceModel.PutPut | src/main/java/global/govstack/registration/sender/service/metadata/YamlMetadataService.java:615-619 | putting a key twice keeps the second value |
| YamlMetadataServiceModel.PutOther | src/main/java/global/govstack/registration/sender/service/metadata/YamlMetadataService.java:615-619 | `put` leaves every other key unchanged |
| YamlMetadataServiceModel.EnrichGet | src/main/java/global/govstack/registration/sender/service/metadata/YamlMetadataService.java:612-620 | an enriched field has the mapping field's value at the five copied keys and its own value at every other key |
| YamlMetadataServiceModel.LastMappingWins | src/main/java/global/govstack/registration/sender/service/metadata/YamlMetadataService.java:599-605 | when several mapping fields share a `joget`, the lookup holds the last of them |
| YamlMetadataServiceModel.KeptUntilReplaced | src/main/java/global/govstack/registration/sender/service/metadata/YamlMetadataService.java:599-605 | a name no later mapping field uses keeps the field it had |
| YamlMetadataServiceModel.MergeAllOnePerField | src/main/java/global/govstack/registration/sender/service/metadata/YamlMetadataService.java:608-623 | the merge loop appends exactly one merged field per structure field, in order, after what it had |
| YamlMetadataServiceModel.MergeUnmapped | src/main/java/global/govstack/registration/sender/service/metadata/YamlMetadataService.java:608-622 | a structure field no mapping names is merged to itself |
| YamlMetadataServiceModel.MergeMapped | src/main/java/global/govstack/registration/sender/service/metadata/YamlMetadataService.java:609-620 | a named structure field takes the mapping's five keys and keeps all its others |
| YamlMetadataServiceModel.MergedOnePerField | src/main/java/global/govstack/registration/sender/service/metadata/YamlMetadataService.java:589-626 | the merged list has one entry per structure field, in order, each the merge of that field |
| YamlMetadataServiceModel.ColumnOfFirst | src/main/java/global/govstack/registration/sender/service/metadata/YamlMetadataService.java:690-698 | the column found is that of the first sub-form field whose `field_id` is the foreign key |
| YamlMetadataServiceModel.UnknownGrid | src/main/java/global/govstack/registration/sender/service/metadata/YamlMetadataService.java:674-677 | a grid no form lists gives null |
| YamlMetadataServiceModel.GridColumnFromSubForm | src/main/java/global/govstack/registration/sender/service/metadata/YamlMetadataService.java:679-698 | a found grid's column comes from the fields of its sub-form, or of the given form when it names none |
| YamlMetadataServiceModel.GridInFirstForm | src/main/java/global/govstack/registration/sender/service/metadata/YamlMetadataService.java:651-672 | the grid found in the first form that lists it with a foreign key ends the form search |
| GenericFormDataExtractorModel.StripTablePrefix | src/main/java/global/govstack/registration/sender/service/metadata/GenericFormDataExtractor.java:214-217 | a leading `app_fd_` is removed and a name without it is kept |
| GenericFormDataExtractorModel.StripTablePrefixInverse | src/main/java/global/govstack/registration/sender/service/metadata/GenericFormDataExtractor.java:214-217 | stripping the prefix undoes adding it |
| GenericFormDataExtractorModel.CleanName | src/main/java/global/govstack/registration/sender/service/metadata/GenericFormDataExtractor.java:621 | a leading `c_` is removed from a property name and any other name is kept |
| GenericFormDataExtractorModel.ReferenceFallback | src/main/java/global/govstack/registration/sender/service/metadata/GenericFormDataExtractor.java:187-198 | a reference is found exactly when the `c_` property or the bare one is present; the `c_` one wins; a found reference is never blank |
| GenericFormDataExtractorModel.GenericFormDataExtractor.constructor | src/main/java/global/govstack/registration/sender/service/metadata/GenericFormDataExtractor.java:31-34 | the extractor keeps the metadata service and the row store it is given |
| GenericFormDataExtractorModel.GenericFormDataExtractor.ExtractFieldsFromRowUsingStructure | src/main/java/global/govstack/registration/sender/service/metadata/GenericFormDataExtractor.java:322-366 | the loop gives what the row-field specification gives for the section's merged mappings |
| GenericFormDataExtractorModel.RowFieldsSparse | src/main/java/global/govstack/registration/sender/service/metadata/GenericFormDataExtractor.java:337-357 | every key extracted from a row is a configured `field_id` with a `column`, holding the row's non-blank value |
| GenericFormDataExtractorModel.RowFieldsComplete | src/main/java/global/govstack/registration/sender/service/metadata/GenericFormDataExtractor.java:337-357 | with clean configurations every configured field whose value is present is extracted |
| GenericFormDataExtractorModel.RowFieldsKeeps | src/main/java/global/govstack/registration/sender/service/metadata/GenericFormDataExtractor.java:347-351 | a key holding the row's value keeps it through the loop |
| GenericFormDataExtractorModel.FieldStepAdds | src/main/java/global/govstack/registration/sender/service/metadata/GenericFormDataExtractor.java:338-351 | one turn of the loop adds only the configured field id, with the row's present value |
| GenericFormDataExtractorModel.GenericFormDataExtractor.ExtractFieldsFromParentRow | src/main/java/global/govstack/registration/sender/service/metadata/GenericFormDataExtractor.java:690-729 | the loop reads each field's `joget` from the parent row, as the specification gives |
| GenericFormDataExtractorModel.JogetFieldsSparse | src/main/java/global/govstack/registration/sender/service/metadata/GenericFormDataExtractor.java:705-722 | every key the parent-row loop extracts is some field's `joget`, holding the parent row's non-blank value |
| GenericFormDataExtractorModel.JogetFieldsComplete | src/main/java/global/govstack/registration/sender/service/metadata/GenericFormDataExtractor.java:705-722 | with clean configurations every field whose `joget` has a present value in the parent row is extracted |
| GenericFormDataExtractorModel.JogetFieldsKeeps | src/main/java/global/govstack/registration/sender/service/metadata/GenericFormDataExtractor.java:705-722 | a key holding the parent row's value keeps it through the loop |
| GenericFormDataExtractorModel.ParentRowFieldsExact | src/main/java/global/govstack/registration/sender/service/metadata/GenericFormDataExtractor.java:690-729 | with clean configurations a name is extracted exactly when some listed field has it as `joget` and the parent row holds a present value for it, and it holds that value; a non-list `fields` gives nothing |
| GenericFormDataExtractorModel.GenericFormDataExtractor.ExtractSectionDataDirect | src/main/java/global/govstack/registration/sender/service/metadata/GenericFormDataExtractor.java:175-246 | the section's row, reached through its reference and its table (structure first, then `tableName`, prefix stripped), read through the merged mappings, as specified |
| GenericFormDataExtractorModel.ParentSectionListsGrid | src/main/java/global/govstack/registration/sender/service/metadata/GenericFormDataExtractor.java:276-307 | a parent section found for a grid is one of the sections, not an array, and lists a field for the grid |
| GenericFormDataExtractorModel.GridFieldFound | src/main/java/global/govstack/registration/sender/service/metadata/GenericFormDataExtractor.java:297-305 | a grid field found has the grid as `joget` and `grid` as `transform` |
| GenericFormDataExtractorModel.GridParentIdChoice | src/main/java/global/govstack/registration/sender/service/metadata/GenericFormDataExtractor.java:109-134 | a grid's parent id is the record id unless its parent section's reference is present in the parent row, and then it is that reference |
| GenericFormDataExtractorModel.GridParentKeyTiers | src/main/java/global/govstack/registration/sender/service/metadata/GenericFormDataExtractor.java:517-538 | the grid's foreign key is the structure's column, else the section's `parentKey`, else the configured default |
| GenericFormDataExtractorModel.UnresolvedGridIsSkipped | src/main/java/global/govstack/registration/sender/service/metadata/GenericFormDataExtractor.java:540-544 | a grid whose foreign key resolves nowhere yields no rows |
| GenericFormDataExtractorModel.GenericFormDataExtractor.ExtractGridData | src/main/java/global/govstack/registration/sender/service/metadata/GenericFormDataExtractor.java:495-589 | the grid rows whose foreign key holds the parent id, each read through the grid form's mappings and kept when not empty, as specified |
| GenericFormDataExtractorModel.GridRowsFilled | src/main/java/global/govstack/registration/sender/service/metadata/GenericFormDataExtractor.java:571-577 | grid rows that extract nothing are dropped and no more rows than were read are kept |
| GenericFormDataExtractorModel.GenericFormDataExtractor.ExtractSection | src/main/java/global/govstack/registration/sender/service/metadata/GenericFormDataExtractor.java:94-155 | one turn of the section loop gives what the section specification gives |
| GenericFormDataExtractorModel.SectionItemFilled | src/main/java/global/govstack/registration/sender/service/metadata/GenericFormDataExtractor.java:137-153 | whatever a section puts into the result holds something |
| GenericFormDataExtractorModel.SectionsKeep | src/main/java/global/govstack/registration/sender/service/metadata/GenericFormDataExtractor.java:94-155 | the section loop keeps entries under names no section has |
| GenericFormDataExtractorModel.SectionsFilled | src/main/java/global/govstack/registration/sender/service/metadata/GenericFormDataExtractor.java:137-153 | the section loop only adds entries that hold something |
| GenericFormDataExtractorModel.ExceptionStops | src/main/java/global/govstack/registration/sender/service/metadata/GenericFormDataExtractor.java:159-163 | an exception in a section ends the loop with what the earlier sections gave |
| GenericFormDataExtractorModel.GenericFormDataExtractor.ExtractAllFormData | src/main/java/global/govstack/registration/sender/service/metadata/GenericFormDataExtractor.java:43-164 | the record id, then the section loop over a loaded parent row, as the specification gives |
| GenericFormDataExtractorModel.RecordIdAlwaysThere | src/main/java/global/govstack/registration/sender/service/metadata/GenericFormDataExtractor.java:46-70 | the result maps "id" to the record id, is only that without a parent row, and every entry holds something |
| GenericFormDataExtractorModel.UnconfiguredParent | src/main/java/global/govstack/registration/sender/service/metadata/GenericFormDataExtractor.java:49-58 | without a parent form id or table name configured the result is the record id alone |
| GenericFormDataExtractorModel.GenericFormDataExtractor.ExtractFormById | src/main/java/global/govstack/registration/sender/service/metadata/GenericFormDataExtractor.java:594-634 | no row gives nothing; otherwise every non-blank property of the first row is there under its name without `c_`, and nothing else |
| ServicesYamlGeneratorModel.DetectMasterDataFields | src/main/java/global/govstack/farmreg/registration/util/ServicesYamlGenerator.java:132-156 | succeeds exactly when no form or field is null and no lookup field lacks an id, and then returns the sorted, duplicate-free ids of exactly the fields with a real lookup form |
| ServicesYamlGeneratorModel.CollectMasterData | src/main/java/global/govstack/farmreg/registration/util/ServicesYamlGenerator.java:144-152 | the field loop of one form keeps the set sorted and exact, and throws only for a null field or a lookup field without an id |
| ServicesYamlGeneratorModel.CollectStep | src/main/java/global/govstack/farmreg/registration/util/ServicesYamlGenerator.java:149-151 | adding one field's id to the TreeSet keeps it sorted and exactly the ids picked so far |
| ServicesYamlGeneratorModel.FieldsOfFormsPrefix | src/main/java/global/govstack/farmreg/registration/util/ServicesYamlGenerator.java:138-153 | the fields of the forms visited so far are among all the fields |
| ServicesYamlGeneratorModel.Classify | src/main/java/global/govstack/farmreg/registration/util/ServicesYamlGenerator.java:196-209 | a forced yesNo wins, then a forced oneTwo, then yesNo exactly when the name heuristic says so |
| ServicesYamlGeneratorModel.DetectFieldNormalization | src/main/java/global/govstack/farmreg/registration/util/ServicesYamlGenerator.java:163-216 | succeeds exactly when no form or field is null and no candidate lacks an id, and then returns both sorted lists holding exactly the candidates of each kind |
| ServicesYamlGeneratorModel.NormalizeForms | src/main/java/global/govstack/farmreg/registration/util/ServicesYamlGenerator.java:176-211 | the form loop throws exactly when a form or field is null or a candidate lacks an id, and otherwise returns both sorted lists holding exactly the candidates of each kind |
| ServicesYamlGeneratorModel.NormalizeFields | src/main/java/global/govstack/farmreg/registration/util/ServicesYamlGenerator.java:181-210 | the field loop of one form keeps both sets sorted and exact, and throws only for a null field or a candidate without an id |
| ServicesYamlGeneratorModel.NormalizationDisjoint | src/main/java/global/govstack/farmreg/registration/util/ServicesYamlGenerator.java:196-209 | no field id is put in both lists |
| ServicesYamlGeneratorModel.HeuristicPrefixes | src/main/java/global/govstack/farmreg/registration/util/ServicesYamlGenerator.java:202-203 | `has`, `can` and `is_` prefixes are yes/no, including "hash_code", since the test is the bare prefix "has" |
| ServicesYamlGeneratorModel.HeuristicMemberOf | src/main/java/global/govstack/farmreg/registration/util/ServicesYamlGenerator.java:203 | `member_of` anywhere in the id makes it yes/no |
| ServicesYamlGeneratorModel.HeuristicOthers | src/main/java/global/govstack/farmreg/registration/util/ServicesYamlGenerator.java:202-207 | "is" without its underscore is not a yes/no prefix |
| ServicesYamlGeneratorModel.FindParentForm | src/main/java/global/govstack/farmreg/registration/util/ServicesYamlGenerator.java:274-286 | throws exactly when a null form comes before any flagged form; null exactly when no form is null or flagged; otherwise the key of the first flagged form, with no null form before it |
| ServicesYamlGeneratorModel.ExtractEntityName | src/main/java/global/govstack/farmreg/registration/util/ServicesYamlGenerator.java:499-511 | an id without underscores loses exactly one trailing "s" if it has one |
| ServicesYamlGeneratorModel.EntityIsFirstPart | src/main/java/global/govstack/farmreg/registration/util/ServicesYamlGenerator.java:499-511 | the entity is the text before the first underscore, less one trailing "s" |
| ServicesYamlGeneratorModel.EntityOfFarmersRegistry | src/main/java/global/govstack/farmreg/registration/util/ServicesYamlGenerator.java:499-511 | "farmers_registry" names the entity "farmer" |
| ServicesYamlGeneratorModel.EntityOfUnderscores | src/main/java/global/govstack/farmreg/registration/util/ServicesYamlGenerator.java:499-511 | a service id of underscores only gives "entity", since the split leaves no part |
| ServicesYamlGeneratorModel.ApplyMappingConvention | src/main/java/global/govstack/farmreg/registration/util/ServicesYamlGenerator.java:460-472 | an `_id` suffix other than `parent_id` maps to the identifier path before the four named fields; anything else takes the hints default |
| ServicesYamlGeneratorModel.ParentIdUsesDefault | src/main/java/global/govstack/farmreg/registration/util/ServicesYamlGenerator.java:462 | `parent_id` is not an identifier and takes the default template |
| ServicesYamlGeneratorModel.DetermineTransform | src/main/java/global/govstack/farmreg/registration/util/ServicesYamlGenerator.java:477-495 | a non-empty transform hint wins; otherwise date and signature fields get their transforms and others none |
| ServicesYamlGeneratorModel.FieldMappingRules | src/main/java/global/govstack/farmreg/registration/util/ServicesYamlGenerator.java:418-455 | a null field throws; hidden system fields and html fields give null; a missing id throws exactly when not html; a mapping names its field, takes the explicit hint path before the convention, the derived transform, and `required` exactly when true |
| ServicesYamlGeneratorModel.FieldMappings | src/main/java/global/govstack/farmreg/registration/util/ServicesYamlGenerator.java:391-400 | the field loop yields at most one mapping per field |
| ServicesYamlGeneratorModel.BuildFieldMappings | src/main/java/global/govstack/farmreg/registration/util/ServicesYamlGenerator.java:391-400 | the field loop gives what the field-mappings specification gives |
| ServicesYamlGeneratorModel.FieldMappingsFails | src/main/java/global/govstack/farmreg/registration/util/ServicesYamlGenerator.java:392-399 | an exception in an earlier field is the exception of the whole loop |
| ServicesYamlGeneratorModel.UuidReferenceField | src/main/java/global/govstack/farmreg/registration/util/ServicesYamlGenerator.java:379-383 | the reference field is never empty, is "data" when the key is just the entity, and is the key itself when it lacks the entity prefix and starts lower-case |
| ServicesYamlGeneratorModel.UuidReferenceExample | src/main/java/global/govstack/farmreg/registration/util/ServicesYamlGenerator.java:379-383 | "farmerHousehold" under "farmer" refers to "household", and "farmer" to "data" |
| ServicesYamlGeneratorModel.FormMappingShape | src/main/java/global/govstack/farmreg/registration/util/ServicesYamlGenerator.java:364-385 | a null form throws; a mapping names its form and an `app_fd_` table; exactly child forms get `c_<entity>_id` and a reference field; a child form without a service id throws |
| ServicesYamlGeneratorModel.BuildFormMapping | src/main/java/global/govstack/farmreg/registration/util/ServicesYamlGenerator.java:369-406 | one form's mapping is what the form-mapping specification gives, a null form throwing |
| ServicesYamlGeneratorModel.BuildFormMappingsSection | src/main/java/global/govstack/farmreg/registration/util/ServicesYamlGenerator.java:349-412 | the form loop gives what the section specification gives, with both field counters, and throws when any form is null |
| ServicesYamlGeneratorModel.FormMappingsStep | src/main/java/global/govstack/farmreg/registration/util/ServicesYamlGenerator.java:360-407 | a null form throws; the parent form is skipped; any other form's mapping is appended with its field count, or its exception ends the loop |
| ServicesYamlGeneratorModel.FormMappingsFails | src/main/java/global/govstack/farmreg/registration/util/ServicesYamlGenerator.java:360-407 | an exception in an earlier form is the exception of the whole section |
| ServicesYamlGeneratorModel.NullFormFails | src/main/java/global/govstack/farmreg/registration/util/ServicesYamlGenerator.java:360-365 | a null form anywhere among the forms makes the whole section throw |
| MappingHintsModel.ServiceInfo.constructor | src/main/java/global/govstack/registration/sender/model/MappingHints.java:33-36 | a new service description has no id or name and both versions "1.0" |
| MappingHintsModel.ServiceInfo.SetId | src/main/java/global/govstack/registration/sender/model/MappingHints.java:39 | sets the id and nothing else |
| MappingHintsModel.ServiceInfo.SetVersion | src/main/java/global/govstack/registration/sender/model/MappingHints.java:45 | sets the version and nothing else |
| MappingHintsModel.MappingHints.constructor | src/main/java/global/govstack/registration/sender/model/MappingHints.java:18-22 | new hints have no explicit mappings, the `extension.{fieldName}` template and nothing forced |
| MappingHintsModel.MappingHints.SetService | src/main/java/global/govstack/registration/sender/model/MappingHints.java:67 | sets the service and nothing else |
| MappingHintsModel.MappingHints.SetFieldMappings | src/main/java/global/govstack/registration/sender/model/MappingHints.java:70 | sets the explicit mappings and nothing else |
| MappingHintsModel.MappingHints.SetDefaultMapping | src/main/java/global/govstack/registration/sender/model/MappingHints.java:73 | sets the template and nothing else |
| MappingHintsModel.MappingHints.SetNormalization | src/main/java/global/govstack/registration/sender/model/MappingHints.java:76 | sets both forced lists and nothing else |
| MappingHintsModel.MappingHints.GetMapping | src/main/java/global/govstack/registration/sender/model/MappingHints.java:83-85 | a path is returned exactly for a field with an explicit mapping, and it is that mapping |
| MappingHintsModel.MappingHints.ApplyDefaultMapping | src/main/java/global/govstack/registration/sender/model/MappingHints.java:92-94 | a template cut by `{fieldName}` into pieces that hold no placeholder gives those pieces joined by the field name; a template without the placeholder is returned as it stands |
| MappingHintsModel.PlaceholderFilled | src/main/java/global/govstack/registration/sender/model/MappingHints.java:93 | replacing `{fieldName}` in the pieces joined by it joins the same pieces by the field name |
| MappingHintsModel.DefaultTemplate | src/main/java/global/govstack/registration/sender/model/MappingHints.java:20 | the default template maps a field to `extension.<field>` |
| MappingHintsModel.ReplaceWholePlaceholder | src/main/java/global/govstack/registration/sender/model/MappingHints.java:93 | a template that is only the placeholder gives the field name |
| MappingHintsModel.ForcedByMembership | src/main/java/global/govstack/registration/sender/model/MappingHints.java:99-110 | with no list nothing is forced, and a listed field is forced |
| BusinessRulesModel.ConditionalRule.constructor | src/main/java/global/govstack/registration/sender/model/BusinessRules.java:21-27 | a new rule has every property null |
| BusinessRulesModel.ConditionalRule.SetTriggerField | src/main/java/global/govstack/registration/sender/model/BusinessRules.java:31 | sets the trigger field and nothing else |
| BusinessRulesModel.ConditionalRule.SetTriggerValue | src/main/java/global/govstack/registration/sender/model/BusinessRules.java:34 | sets the trigger value and nothing else |
| BusinessRulesModel.ConditionalRule.SetRequiresGrid | src/main/java/global/govstack/registration/sender/model/BusinessRules.java:37 | sets the required grid and nothing else |
| BusinessRulesModel.ConditionalRule.SetMinEntries | src/main/java/global/govstack/registration/sender/model/BusinessRules.java:40 | sets the minimum and nothing else |
| BusinessRulesModel.ConditionalRule.SetRequiresFields | src/main/java/global/govstack/registration/sender/model/BusinessRules.java:43 | sets the required fields and nothing else |
| BusinessRulesModel.ConditionalRule.SetMessageTemplate | src/main/java/global/govstack/registration/sender/model/BusinessRules.java:46 | sets the template and nothing else |
| BusinessRulesModel.ConditionalRule.BuildCondition | src/main/java/global/govstack/registration/sender/model/BusinessRules.java:52-54 | the condition starts with the trigger field and ends with the closing quote |
| BusinessRulesModel.ConditionalRule.GenerateMessage | src/main/java/global/govstack/registration/sender/model/BusinessRules.java:60-79 | generation throws exactly when a non-empty template meets a null trigger field or value; what the message says is stated by the message lemmas below |
| BusinessRulesModel.BusinessRules.constructor | src/main/java/global/govstack/registration/sender/model/BusinessRules.java:14-16 | new rules hold no conditional rule |
| BusinessRulesModel.BusinessRules.SetConditionalRules | src/main/java/global/govstack/registration/sender/model/BusinessRules.java:84 | sets the rule list |
| BusinessRulesModel.ConditionRoundTrip | src/main/java/global/govstack/registration/sender/model/BusinessRules.java:52-54 | a condition built from a field without '=' reads back as that field and value |
| BusinessRulesModel.ParseBuilt | src/main/java/global/govstack/registration/sender/model/BusinessRules.java:53 | the text `f == 'v'` reads back as f and v when f has no '=' |
| BusinessRulesModel.GridMessage | src/main/java/global/govstack/registration/sender/model/BusinessRules.java:63-64 | without a template a required grid gives a message naming the grid and quoting the trigger value |
| BusinessRulesModel.FallbackMessage | src/main/java/global/govstack/registration/sender/model/BusinessRules.java:68 | without a template, grid or fields the message quotes the condition, which reads back as the trigger |
| BusinessRulesModel.FieldsMessage | src/main/java/global/govstack/registration/sender/model/BusinessRules.java:65-66 | without a template or grid, the message starts with the required fields joined by ", ", names each of them and ends with the quoted trigger value |
| BusinessRulesModel.PlaceholdersHeadUnique | src/main/java/global/govstack/registration/sender/model/BusinessRules.java:73-76 | no placeholder's opening brace recurs inside it, so occurrences cannot overlap |
| BusinessRulesModel.FieldTemplate | src/main/java/global/govstack/registration/sender/model/BusinessRules.java:72-78 | a template cut by `{trigger_field}` into pieces becomes the pieces joined by the trigger field, when the result holds no other placeholder |
| BusinessRulesModel.ValueTemplate | src/main/java/global/govstack/registration/sender/model/BusinessRules.java:72-78 | a template without `{trigger_field}` cut by `{trigger_value}` becomes the pieces joined by the trigger value, when the result holds no `{min_entries}` |
| BusinessRulesModel.MinEntriesTemplate | src/main/java/global/govstack/registration/sender/model/BusinessRules.java:72-78 | a template with neither trigger placeholder cut by `{min_entries}` becomes the pieces joined by the minimum in decimal, and keeps its `{min_entries}` when there is no minimum |
| BusinessRulesModel.FieldFill | src/main/java/global/govstack/registration/sender/model/BusinessRules.java:72-78 | filling a template cut by `{trigger_field}` joins its pieces by the field and changes nothing else |
| BusinessRulesModel.ValueFill | src/main/java/global/govstack/registration/sender/model/BusinessRules.java:72-78 | filling a template cut by `{trigger_value}` joins its pieces by the value and changes nothing else |
| BusinessRulesModel.MinFillSome | src/main/java/global/govstack/registration/sender/model/BusinessRules.java:75-77 | with a minimum, filling a template cut by `{min_entries}` joins its pieces by the minimum's text |
| BusinessRulesModel.MinFillNone | src/main/java/global/govstack/registration/sender/model/BusinessRules.java:75-77 | without a minimum, a template cut by `{min_entries}` is left whole |
| BusinessRulesModel.MinJoin | src/main/java/global/govstack/registration/sender/model/BusinessRules.java:76 | replacing `{min_entries}` in pieces joined by it, none holding it, joins the same pieces by the replacement |
| BusinessRulesModel.FillOnlyField | src/main/java/global/govstack/registration/sender/model/BusinessRules.java:73-77 | when filling the field leaves no other placeholder, the value and minimum steps change nothing |
| BusinessRulesModel.FillOnlyValue | src/main/java/global/govstack/registration/sender/model/BusinessRules.java:73-77 | a template without a field placeholder has only its value placeholders filled when no minimum placeholder results |
| BusinessRulesModel.FillOnlyMin | src/main/java/global/govstack/registration/sender/model/BusinessRules.java:73-77 | a template with neither trigger placeholder with a minimum has only its `{min_entries}` replaced by the minimum's text |
| BusinessRulesModel.FillNoMin | src/main/java/global/govstack/registration/sender/model/BusinessRules.java:73-77 | without a minimum, a template with neither trigger placeholder is left as it is |
| BusinessRulesModel.TemplateWithoutPlaceholders | src/main/java/global/govstack/registration/sender/model/BusinessRules.java:72-78 | a template without placeholders is the message as it stands |
| BusinessRulesModel.NullTriggerWithTemplate | src/main/java/global/govstack/registration/sender/model/BusinessRules.java:73 | with a template, a null trigger field makes the replacement throw |
| ValidationRulesGeneratorModel.BuildConditionalValidation | src/main/java/global/govstack/registration/sender/util/ValidationRulesGenerator.java:90-116 | the condition and generated message always; the grid as a one-element list exactly when required, the minimum exactly when there is a grid and it is positive, the fields exactly when non-empty; fails exactly when the message does |
| ValidationRulesGeneratorModel.Generate | src/main/java/global/govstack/registration/sender/util/ValidationRulesGenerator.java:71-76 | one validation per rule in rule order, each the rule's own, failing exactly when some rule's message fails |
| ValidationRulesGeneratorModel.ParseArgs | src/main/java/global/govstack/registration/sender/util/ValidationRulesGenerator.java:181-192 | the loop gives what the flag-pair specification gives |
| ValidationRulesGeneratorModel.PlainRule | src/main/java/global/govstack/registration/sender/util/ValidationRulesGenerator.java:90-116 | a plain rule gives only a condition that reads back as its trigger, and the fallback message |
| ValidationRulesGeneratorModel.MinimumNeedsGrid | src/main/java/global/govstack/registration/sender/util/ValidationRulesGenerator.java:97-105 | a minimum without a grid, or not positive, is dropped |
| CommandLine.ParseArgs | src/main/java/global/govstack/farmreg/registration/util/ServicesYamlGenerator.java:584-595 | the loop that skips the value it consumes gives what the flag-pair specification gives |
| CommandLine.ParsedFromFlags | src/main/java/global/govstack/farmreg/registration/util/ServicesYamlGenerator.java:584-595 | every entry comes from an argument `--key` followed by its value, or was there before |
| CommandLine.ParseFromOver | src/main/java/global/govstack/farmreg/registration/util/ServicesYamlGenerator.java:584-595 | each pair is put over the map built so far, so what was there before survives exactly where no pair sets its key |
| CommandLine.KeepsUnflagged | src/main/java/global/govstack/farmreg/registration/util/ServicesYamlGenerator.java:584-595 | a key that no argument flags is present afterwards exactly when it was before, with the same value |
| CommandLine.FlagSetsKey | src/main/java/global/govstack/farmreg/registration/util/ServicesYamlGenerator.java:586-589 | a `--name value` pair sets `name` to `value` when no later argument flags `name` again |
| CommandLine.ThreeFlags | src/main/java/global/govstack/farmreg/registration/util/ServicesYamlGenerator.java:584-595 | the generator's three flags parse to their names and values |
| CommandLine.DanglingFlag | src/main/java/global/govstack/farmreg/registration/util/ServicesYamlGenerator.java:587 | a trailing flag without a value is dropped |
| YamlSchemaParserModel.ComputeIfAbsent | src/main/java/global/govstack/registration/sender/util/YamlSchemaParser.java:33 | the table gets an entry, a new one empty, nothing else changes and the invariant is kept |
| YamlSchemaParserModel.Add | src/main/java/global/govstack/registration/sender/util/YamlSchemaParser.java:48-50 | the column is in the table's set afterwards, other tables are untouched and the invariant is kept for a non-empty column |
| YamlSchemaParserModel.AddFieldColumn | src/main/java/global/govstack/registration/sender/util/YamlSchemaParser.java:92-95 | a field's non-empty `column` joins the table's set; the tables and invariant are kept |
| YamlSchemaParserModel.ListUnder | src/main/java/global/govstack/registration/sender/util/YamlSchemaParser.java:36-45 | a key the form does not have gives no list |
| YamlSchemaParserModel.AllFields | src/main/java/global/govstack/registration/sender/util/YamlSchemaParser.java:43-52 | a readable `all_fields` is the list the form holds |
| YamlSchemaParserModel.AddFieldColumns | src/main/java/global/govstack/registration/sender/util/YamlSchemaParser.java:46-51 | the field loop gives what the field specification gives |
| YamlSchemaParserModel.ExtractColumnsFromFields | src/main/java/global/govstack/registration/sender/util/YamlSchemaParser.java:86-99 | the section loop gives what the section specification gives |
| YamlSchemaParserModel.AddGridColumns | src/main/java/global/govstack/registration/sender/util/YamlSchemaParser.java:55-76 | the grid loop gives what the grid specification gives |
| YamlSchemaParserModel.AddFormColumns | src/main/java/global/govstack/registration/sender/util/YamlSchemaParser.java:24-77 | one pass of the form loop gives what the form specification gives |
| YamlSchemaParserModel.ParseTableColumnMappings | src/main/java/global/govstack/registration/sender/util/YamlSchemaParser.java:10-84 | the parse gives what its specification gives |
| YamlSchemaParserModel.AddFieldsGrows | src/main/java/global/govstack/registration/sender/util/YamlSchemaParser.java:46-51 | the field loop loses nothing and keeps the invariant |
| YamlSchemaParserModel.AddSectionsGrows | src/main/java/global/govstack/registration/sender/util/YamlSchemaParser.java:86-99 | the section loop loses nothing and keeps the invariant |
| YamlSchemaParserModel.AddGridsGrows | src/main/java/global/govstack/registration/sender/util/YamlSchemaParser.java:55-76 | the grid loop loses nothing and keeps the invariant |
| YamlSchemaParserModel.AddFormsGrows | src/main/java/global/govstack/registration/sender/util/YamlSchemaParser.java:24-77 | the form loop loses nothing and keeps the invariant |
| YamlSchemaParserModel.ParseValid | src/main/java/global/govstack/registration/sender/util/YamlSchemaParser.java:10-84 | each table is listed once with distinct non-empty columns, and no data or no `forms` gives the empty map |
| YamlSchemaParserModel.AddFieldsHas | src/main/java/global/govstack/registration/sender/util/YamlSchemaParser.java:91-96 | the column of every field the loop visits is in the table's set |
| YamlSchemaParserModel.AddFieldColumnExact | src/main/java/global/govstack/registration/sender/util/YamlSchemaParser.java:92-95 | one field adds its non-empty column to the table and changes nothing else |
| YamlSchemaParserModel.AddFieldsExact | src/main/java/global/govstack/registration/sender/util/YamlSchemaParser.java:91-96 | after the field loop a table holds a column exactly when it held it before or (for the form's table) some field carries it; the tables are unchanged |
| YamlSchemaParserModel.AddSectionExact | src/main/java/global/govstack/registration/sender/util/YamlSchemaParser.java:88-97 | a section adds exactly the columns its `fields` carry, and none without `fields` |
| YamlSchemaParserModel.AddSectionsExact | src/main/java/global/govstack/registration/sender/util/YamlSchemaParser.java:86-99 | after the section loop the form's table holds exactly its old columns and those some section's fields carry; nothing else changes |
| YamlSchemaParserModel.AddGridExact | src/main/java/global/govstack/registration/sender/util/YamlSchemaParser.java:60-74 | a grid with a table name adds exactly that table and its sub-form columns; one without a name adds nothing |
| YamlSchemaParserModel.AddGridsExact | src/main/java/global/govstack/registration/sender/util/YamlSchemaParser.java:55-76 | after the grid loop the tables are the old ones plus the named grids', and each holds exactly its old columns plus those of the grids naming it |
| YamlSchemaParserModel.AddTableFormExact | src/main/java/global/govstack/registration/sender/util/YamlSchemaParser.java:35-76 | a form's sections, `all_fields` and grids add exactly their tables and columns |
| YamlSchemaParserModel.AddFormExact | src/main/java/global/govstack/registration/sender/util/YamlSchemaParser.java:25-76 | one pass of the form loop adds exactly the form's table and grid tables with exactly their columns, and nothing for a form without a table name |
| YamlSchemaParserModel.AddFormsExact | src/main/java/global/govstack/registration/sender/util/YamlSchemaParser.java:24-77 | after the form loop a table is a key exactly when it was or some form names it, and holds exactly its old columns and those some form gives it |
| YamlSchemaParserModel.ParseExact | src/main/java/global/govstack/registration/sender/util/YamlSchemaParser.java:10-84 | the parsed map's tables are exactly those the forms and their grids name, and each table's columns exactly those their fields carry |
| YamlSchemaParserModel.ParseListsSection | src/main/java/global/govstack/registration/sender/util/YamlSchemaParser.java:35-40 | the column of every field in a section of a named form is in that form's table |
| YamlSchemaParserModel.ParseListsGrid | src/main/java/global/govstack/registration/sender/util/YamlSchemaParser.java:58-73 | every named grid is a table holding the columns of its sub-form fields |
| YamlSchemaParserModel.ParseSound | src/main/java/global/govstack/registration/sender/util/YamlSchemaParser.java:10-84 | every table and column of the parsed map comes from some form or grid of the data |
| YamlSchemaParserModel.ParseListsForm | src/main/java/global/govstack/registration/sender/util/YamlSchemaParser.java:24-52 | every form with a string `table_name` has an entry holding the non-empty columns of its `all_fields` |
| YamlSchemaParserModel.GridListed | src/main/java/global/govstack/registration/sender/util/YamlSchemaParser.java:58-73 | a grid with a table name gets its own entry holding its non-empty sub-form columns |
| YamlSchemaParserModel.ParseErrorsWrapped | src/main/java/global/govstack/registration/sender/util/YamlSchemaParser.java:79-81 | every failure is the parser's own exception with its message prefix |
| JavaStr.ReplaceJoin | src/main/java/global/govstack/registration/sender/model/BusinessRules.java:73-76 | `String.replace` of a placeholder whose opening character does not recur in it, on pieces joined by the placeholder that hold none, joins the same pieces by the replacement |
| DatabaseSchemaValidatorModel.FirstHitMeaning | src/main/java/global/govstack/registration/sender/service/DatabaseSchemaValidator.java:78-154 | the case-variant queries answer false exactly when all say no, true exactly when one confirms after only noes, and otherwise the exception of the first query to throw after only noes |
| DatabaseSchemaValidatorModel.AbsentTable | src/main/java/global/govstack/registration/sender/service/DatabaseSchemaValidator.java:78-101 | a table no case variant finds is reported missing |
| DatabaseSchemaValidatorModel.LowerCaseTableFound | src/main/java/global/govstack/registration/sender/service/DatabaseSchemaValidator.java:93-98 | a table only the lower-case query finds exists |
| DatabaseSchemaValidatorModel.SplitColumns | src/main/java/global/govstack/registration/sender/service/DatabaseSchemaValidator.java:52-59 | every column of an existing table lands in one of the two lists |
| DatabaseSchemaValidatorModel.SplitColumnsPermutes | src/main/java/global/govstack/registration/sender/service/DatabaseSchemaValidator.java:52-59 | the found and absent columns together are exactly the table's columns |
| DatabaseSchemaValidatorModel.OutcomeOf | src/main/java/global/govstack/registration/sender/service/DatabaseSchemaValidator.java:38-64 | one table's outcome names it, and a found table's validated and absent columns add up to its total |
| DatabaseSchemaValidatorModel.Outcomes | src/main/java/global/govstack/registration/sender/service/DatabaseSchemaValidator.java:37-65 | one outcome per table in map order, each with its name and its column total |
| DatabaseSchemaValidatorModel.Dotted | src/main/java/global/govstack/registration/sender/service/DatabaseSchemaValidator.java:57 | each missing column is reported as `table.column` |
| DatabaseSchemaValidatorModel.TablesPartition | src/main/java/global/govstack/registration/sender/service/DatabaseSchemaValidator.java:48-64 | every table is either found or missing, once |
| DatabaseSchemaValidatorModel.MissingColumnsCount | src/main/java/global/govstack/registration/sender/service/DatabaseSchemaValidator.java:52-59 | each listed missing column is one absent column of an existing table |
| DatabaseSchemaValidatorModel.ColumnsPartition | src/main/java/global/govstack/registration/sender/service/DatabaseSchemaValidator.java:48-64 | validated plus missing columns are exactly the columns of the existing tables, at most the columns asked about |
| DatabaseSchemaValidatorModel.Validate | src/main/java/global/govstack/registration/sender/service/DatabaseSchemaValidator.java:22-76 | fails exactly when a catalogue query throws, with the wrapped message; otherwise the totals come from the map and the lists and counters agree with the per-table outcomes |
| DatabaseSchemaValidatorModel.ValidateTables | src/main/java/global/govstack/registration/sender/service/DatabaseSchemaValidator.java:37-65 | the table loop leaves the result agreeing with all outcomes, or stops with the first exception |
| DatabaseSchemaValidatorModel.ValidateEntry | src/main/java/global/govstack/registration/sender/service/DatabaseSchemaValidator.java:37-65 | one pass of the table loop extends the agreement by one table, or stops with its exception |
| DatabaseSchemaValidatorModel.ValidateTable | src/main/java/global/govstack/registration/sender/service/DatabaseSchemaValidator.java:41-64 | the table's lookup and columns are recorded as its outcome says: listed missing once, or its absent columns and then its record |
| DatabaseSchemaValidatorModel.CheckColumns | src/main/java/global/govstack/registration/sender/service/DatabaseSchemaValidator.java:52-59 | found columns are appended to the table's validated list and absent ones to the missing list as `table.column`; nothing else changes |
| DatabaseSchemaValidatorModel.SplitFoundStep | src/main/java/global/govstack/registration/sender/service/DatabaseSchemaValidator.java:53-55 | a confirmed column joins the validated list |
| DatabaseSchemaValidatorModel.SplitAbsentStep | src/main/java/global/govstack/registration/sender/service/DatabaseSchemaValidator.java:56-57 | a denied column joins the absent list |
| DatabaseSchemaValidatorModel.SplitErrStep | src/main/java/global/govstack/registration/sender/service/DatabaseSchemaValidator.java:53 | a column whose query throws ends the walk with that exception |
| DatabaseSchemaValidatorModel.SplitColumnsFails | src/main/java/global/govstack/registration/sender/service/DatabaseSchemaValidator.java:52-59 | once a column throws, the whole column walk throws the same |
| DatabaseSchemaValidatorModel.OutcomesStep | src/main/java/global/govstack/registration/sender/service/DatabaseSchemaValidator.java:37-65 | one more table extends the outcomes by its own |
| DatabaseSchemaValidatorModel.OutcomesErrStep | src/main/java/global/govstack/registration/sender/service/DatabaseSchemaValidator.java:37-65 | a table whose queries throw ends the walk with that exception |
| DatabaseSchemaValidatorModel.OutcomesFails | src/main/java/global/govstack/registration/sender/service/DatabaseSchemaValidator.java:70-73 | once a table throws, the whole validation fails the same way |
| DatabaseSchemaValidatorModel.FoundStep | src/main/java/global/govstack/registration/sender/service/DatabaseSchemaValidator.java:48-61 | a found table adds its record, its missing columns and its validated count, and no missing table |
| DatabaseSchemaValidatorModel.MissingStep | src/main/java/global/govstack/registration/sender/service/DatabaseSchemaValidator.java:62-64 | a missing table is listed and changes nothing else |
| ValidationResultModel.ValidationResult.constructor | src/main/java/global/govstack/farmreg/registration/model/ValidationResult.java:15-19 | a new result has empty lists and zero counters |
| ValidationResultModel.ValidationResult.SetTotalTables | src/main/java/global/govstack/farmreg/registration/model/ValidationResult.java:25-27 | sets its counter and nothing else |
| ValidationResultModel.ValidationResult.SetValidatedTables | src/main/java/global/govstack/farmreg/registration/model/ValidationResult.java:33-35 | sets its counter and nothing else |
| ValidationResultModel.ValidationResult.SetTotalColumns | src/main/java/global/govstack/farmreg/registration/model/ValidationResult.java:41-43 | sets its counter and nothing else |
| ValidationResultModel.ValidationResult.SetValidatedColumns | src/main/java/global/govstack/farmreg/registration/model/ValidationResult.java:49-51 | sets its counter and nothing else |
| ValidationResultModel.ValidationResult.AddFoundTable | src/main/java/global/govstack/farmreg/registration/model/ValidationResult.java:77-79 | appends to the found list and changes nothing else |
| ValidationResultModel.ValidationResult.AddMissingTable | src/main/java/global/govstack/farmreg/registration/model/ValidationResult.java:81-83 | appends to the missing-table list and changes nothing else |
| ValidationResultModel.ValidationResult.AddMissingColumn | src/main/java/global/govstack/farmreg/registration/model/ValidationResult.java:85-87 | appends exactly `table.column` and changes nothing else |
| ValidationResultModel.ValidationResult.HasErrors | src/main/java/global/govstack/farmreg/registration/model/ValidationResult.java:89-91 | there are errors exactly when the error count is positive |
| ValidationResultModel.ValidationResult.ErrorCount | src/main/java/global/govstack/farmreg/registration/model/ValidationResult.java:93-95 | the count is zero exactly when nothing is missing, and is at least each list's length |
| TableValidationModel.TableValidation.constructor | src/main/java/global/govstack/registration/sender/model/TableValidation.java:12-15 | a new record has the given name, no validated columns, is not present and has no columns |
| TableValidationModel.TableValidation.SetTableName | src/main/java/global/govstack/registration/sender/model/TableValidation.java:21-23 | sets the name and nothing else |
| TableValidationModel.TableValidation.SetExists | src/main/java/global/govstack/registration/sender/model/TableValidation.java:29-31 | sets the presence flag and nothing else |
| TableValidationModel.TableValidation.SetTotalColumns | src/main/java/global/govstack/registration/sender/model/TableValidation.java:49-51 | sets the total and nothing else |
| TableValidationModel.TableValidation.AddValidatedColumn | src/main/java/global/govstack/registration/sender/model/TableValidation.java:41-43 | appends the column, raising the count by one, and changes nothing else |
| TableValidationModel.TableValidation.ValidatedColumnCount | src/main/java/global/govstack/registration/sender/model/TableValidation.java:53-55 | the count is zero exactly when no column is validated |
| ValidationReportGeneratorModel.TotalsInReport | src/main/java/global/govstack/farmreg/registration/util/ValidationReportGenerator.java:8-68 | whatever the totals block says, the report says |
| ValidationReportGeneratorModel.ListingInReport | src/main/java/global/govstack/farmreg/registration/util/ValidationReportGenerator.java:8-68 | whatever the listing blocks say, the report says |
| ValidationReportGeneratorModel.ReportHasTotals | src/main/java/global/govstack/farmreg/registration/util/ValidationReportGenerator.java:11-22 | the report opens with the banner and always carries the results heading and both validated/total lines |
| ValidationReportGeneratorModel.ItemListed | src/main/java/global/govstack/farmreg/registration/util/ValidationReportGenerator.java:39-41 | every item of a list gets its own line |
| ValidationReportGeneratorModel.FoundListed | src/main/java/global/govstack/farmreg/registration/util/ValidationReportGenerator.java:27-32 | every found table gets its own line |
| ValidationReportGeneratorModel.ItemInBlock | src/main/java/global/govstack/farmreg/registration/util/ValidationReportGenerator.java:37-42 | a non-empty missing block carries every item's line |
| ValidationReportGeneratorModel.ReportListsFoundTable | src/main/java/global/govstack/farmreg/registration/util/ValidationReportGenerator.java:25-34 | each found table is listed with its validated and total column counts |
| ValidationReportGeneratorModel.ReportListsMissingTable | src/main/java/global/govstack/farmreg/registration/util/ValidationReportGenerator.java:37-45 | each missing table is listed by name |
| ValidationReportGeneratorModel.ReportListsMissingColumn | src/main/java/global/govstack/farmreg/registration/util/ValidationReportGenerator.java:48-56 | each missing column is listed in its `table.column` form |
| ValidationReportGeneratorModel.ReportSaysNone | src/main/java/global/govstack/farmreg/registration/util/ValidationReportGenerator.java:43-45 | with nothing missing in a list, the report says "(none)" for it |
| ValidationReportGeneratorModel.FoundBlockOnlyWhenFound | src/main/java/global/govstack/farmreg/registration/util/ValidationReportGenerator.java:25-45 | the found-tables block appears exactly when there are found tables |
| ValidationReportGeneratorModel.ReportSummary | src/main/java/global/govstack/farmreg/registration/util/ValidationReportGenerator.java:58-65 | the report ends with the issue count when there are errors, else with the success line, then the closing rule |
| MappingValidatorModel.CollectIdsNames | src/test/java/global/govstack/registration/sender/util/MappingValidator.java:83-94 | the mapped-id set is exactly the names the mapped fields give |
| MappingValidatorModel.Counted | src/test/java/global/govstack/registration/sender/util/MappingValidator.java:100-114 | at most one counted id per structure field |
| MappingValidatorModel.Missing | src/test/java/global/govstack/registration/sender/util/MappingValidator.java:111-113 | the unmapped ids are exactly the counted ids the mappings do not name, in order |
| MappingValidatorModel.FoundPlusMissing | src/test/java/global/govstack/registration/sender/util/MappingValidator.java:118 | every counted id is either mapped or unmapped |
| MappingValidatorModel.TallyReadable | src/test/java/global/govstack/registration/sender/util/MappingValidator.java:100-114 | the structure loop fails exactly when some field cannot be read |
| MappingValidatorModel.TallyCounts | src/test/java/global/govstack/registration/sender/util/MappingValidator.java:100-114 | the structure loop counts exactly the fields needing a mapping and lists, in order, those the mappings do not name |
| MappingValidatorModel.TallyStep | src/test/java/global/govstack/registration/sender/util/MappingValidator.java:101-113 | a system field is skipped; any other is counted and, when unmapped, listed |
| MappingValidatorModel.CoverageMeaning | src/test/java/global/govstack/registration/sender/util/MappingValidator.java:59-127 | a reported coverage names its form, counts its fields needing a mapping (more than none), lists the unmapped ones and reports the rest as mapped |
| MappingValidatorModel.NothingCountedNoCoverage | src/test/java/global/govstack/registration/sender/util/MappingValidator.java:117-122 | a form with no field needing a mapping adds no coverage |
| MappingValidatorModel.NothingMapped | src/test/java/global/govstack/registration/sender/util/MappingValidator.java:72-80 | a form with no section reports every counted field unmapped |
| MappingValidatorModel.MissingNone | src/test/java/global/govstack/registration/sender/util/MappingValidator.java:111-113 | with no mapped ids every counted id is unmapped |
| MappingValidatorModel.MappedFieldIds | src/test/java/global/govstack/registration/sender/util/MappingValidator.java:83-94 | the mapped-id loop gives what the id specification gives, `joget` only for grid forms |
| MappingValidatorModel.CountFields | src/test/java/global/govstack/registration/sender/util/MappingValidator.java:97-114 | the structure loop gives what the tally specification gives |
| MappingValidatorModel.MeasureCoverage | src/test/java/global/govstack/registration/sender/util/MappingValidator.java:59-127 | the shared body of the form and grid checks gives what the coverage specification gives |
| MappingValidatorModel.ValidationReport.constructor | src/test/java/global/govstack/registration/sender/util/MappingValidator.java:260-261 | a new report holds no coverage and no error |
| MappingValidatorModel.ValidationReport.AddFormCoverage | src/test/java/global/govstack/registration/sender/util/MappingValidator.java:263-266 | appends the coverage, raising both totals by its counts |
| MappingValidatorModel.ValidationReport.AddError | src/test/java/global/govstack/registration/sender/util/MappingValidator.java:268-270 | appends the error; the report then has errors |
| MappingValidatorModel.MappedWithinTotal | src/test/java/global/govstack/registration/sender/util/MappingValidator.java:272-278 | over sound coverages the mapped total lies between zero and the field total |
| MappingValidatorModel.CoverageSound | src/test/java/global/govstack/registration/sender/util/MappingValidator.java:117-122 | every reported coverage counts something and maps within its count |
| MappingValidatorModel.Validate | src/test/java/global/govstack/registration/sender/util/MappingValidator.java:28-54 | unloaded mappings give the load error alone; otherwise no error and the coverages of the seven forms then the three grid forms |
| MappingValidatorModel.MeasureForms | src/test/java/global/govstack/registration/sender/util/MappingValidator.java:41-43 | the form loop appends one coverage per form that reports one |
| MappingValidatorModel.MeasureGrids | src/test/java/global/govstack/registration/sender/util/MappingValidator.java:132-146 | the grid loop appends one coverage per grid form that reports one |
| MappingValidatorModel.FormCoveragesSound | src/test/java/global/govstack/registration/sender/util/MappingValidator.java:41-43 | every form coverage is sound |
| MappingValidatorModel.GridCoveragesSound | src/test/java/global/govstack/registration/sender/util/MappingValidator.java:140-145 | every grid coverage is sound |
| MappingValidatorModel.ValidationTotals | src/test/java/global/govstack/registration/sender/util/MappingValidator.java:272-278 | over any validation the overall mapped count lies between zero and the overall field count |
| MappingValidatorModel.SystemFieldExamples | src/test/java/global/govstack/registration/sender/util/MappingValidator.java:234-254 | a missing id, an audit field and any `_id` or `_key` need no mapping; other names do, whatever the type |
| PluginResponseModel.PluginResponse.ToString | src/main/java/global/govstack/farmreg/registration/model/PluginResponse.java:92-98 | a success prints as its data, an error as "Error: " followed by its message |
| PluginResponseModel.Success | src/main/java/global/govstack/farmreg/registration/model/PluginResponse.java:25-27 | a success carries the data, the message "Success" and status 200 |
| PluginResponseModel.ErrorWithStatus | src/main/java/global/govstack/farmreg/registration/model/PluginResponse.java:46-48 | an error carries no data, the message and the status |
| PluginResponseModel.Error | src/main/java/global/govstack/farmreg/registration/model/PluginResponse.java:35-37 | the one-argument error is the two-argument one with status 500 |
| PluginResponseModel.ToStringOfFactories | src/main/java/global/govstack/farmreg/registration/model/PluginResponse.java:25-98 | each factory's response prints as its data or as "Error: " and its message |
| PluginResponseModel.ErrorOverloads | src/main/java/global/govstack/farmreg/registration/model/PluginResponse.java:35-48 | the two error overloads differ only in the status code |
| DocSubmitterModel.PropertyOr | src/main/java/global/govstack/farmreg/registration/lib/DocSubmitter.java:226-229 | an absent or null property gives the default, a text property its text |
| DocSubmitterModel.Property | src/main/java/global/govstack/farmreg/registration/lib/DocSubmitter.java:222-224 | the one-default form uses "" |
| DocSubmitterModel.ResolveRecordId | src/main/java/global/govstack/farmreg/registration/lib/DocSubmitter.java:73-117 | the resolution loop, breaking at the first usable variable, gives what the record-id specification gives |
| DocSubmitterModel.ProbeStep | src/main/java/global/govstack/farmreg/registration/lib/DocSubmitter.java:92-98 | moving past an unusable variable keeps the answer, and the answer is the first usable one or the last looked up |
| DocSubmitterModel.ProbeFindsFirst | src/main/java/global/govstack/farmreg/registration/lib/DocSubmitter.java:92-98 | the probe is usable exactly when some variable is, and then it is the first usable variable's value |
| DocSubmitterModel.ProbeFirst | src/main/java/global/govstack/farmreg/registration/lib/DocSubmitter.java:92-98 | a usable probe result is the value of the first variable holding a usable id; an unusable result means no variable holds one |
| DocSubmitterModel.FirstUsableShift | src/main/java/global/govstack/farmreg/registration/lib/DocSubmitter.java:92-98 | behind an unusable first variable, the first usable variable of the rest is the first usable one of the whole list, one place later |
| DocSubmitterModel.SpecificModeId | src/main/java/global/govstack/farmreg/registration/lib/DocSubmitter.java:74-75 | in "specific" mode the id is the `specificFarmerId` property, blank when absent |
| DocSubmitterModel.WorkflowId | src/main/java/global/govstack/farmreg/registration/lib/DocSubmitter.java:79-117 | outside "specific" mode the id is usable exactly when some workflow variable holds one, and is the first in priority order |
| DocSubmitterModel.ValidateData | src/main/java/global/govstack/farmreg/registration/lib/DocSubmitter.java:250-276 | data passes exactly when it is non-empty and some section is a non-empty map or list |
| DocSubmitterModel.IdAloneIsNoData | src/main/java/global/govstack/farmreg/registration/lib/DocSubmitter.java:258-270 | a record holding only its id never passes validation |
| DocSubmitterModel.Deliver | src/main/java/global/govstack/farmreg/registration/lib/DocSubmitter.java:135-211 | a failed encoding, failed validation and a failed send each give their own error response; success, naming the id, happens exactly when all three succeed |
| DocSubmitterModel.Send | src/main/java/global/govstack/farmreg/registration/lib/DocSubmitter.java:154-211 | the document, wrapped when useTestDataFormat is "true", is posted; success naming the id happens exactly when the post succeeds, and a failed post gives "Failed to send data: " and the service's message |
| DocSubmitterModel.Execute | src/main/java/global/govstack/farmreg/registration/lib/DocSubmitter.java:43-217 | a missing id and an empty record give their error responses, then the delivery errors in order; success happens exactly when the record is extracted and delivered, and names the resolved id |

## Left out

- Floating point: the numeric transformer's decimal branch and Jackson's double nodes carry the
  text `Double.toString` would give; parsing and printing doubles are parameters.
- Lenient `SimpleDateFormat` parsing in the date transformer is a parameter. Only the strict
  ISO-8601 shapes are modelled character by character.
- Which zone region ids `ZoneId` knows (the `[Europe/Paris]` ISO_DATE_TIME accepts after an
  offset) is a parameter of the date transformer's decode side.
- DateTransformer.Decode: years are read as four unsigned digits. ISO_DATE_TIME also accepts a
  negative year (`-0001-01-01T00:00`), which Java formats as a year of era; the model returns
  such text unparsed. Longer years need a `+`, which is stripped with the zone, as in the source.
- Unicode: case changes, digits and `trim` cover ASCII only. Sorted id lists order strings by
  Unicode code point, where Java's `compareTo` orders UTF-16 code units. The two orders differ
  only for characters beyond U+FFFF.
- I/O: reading services.yml and the hint files, writing YAML and report files, the HTTP post,
  and all logging are outside the model. YAML text is given to the model already parsed into
  nested maps and lists.
- The clock (the `createdAt` timestamp), the Joget row store, the form catalogue and the
  HTTP client are parameters.
- `wrapInTestDataFormat` is a parameter. `toPrettyJsonString` is not modelled: the encoder
  returns the document, not its text.
- Order of `HashMap` iteration: the model uses the order in which entries were inserted,
  which is one of the orders Java may produce.
- Exceptions: a thrown exception is modelled by the class name of the exception, not its
  message.
- The regular-expression `replaceFirst("^" + entityName, "")` in the services.yml generator is
  modelled as removing `entityName` when the form key starts with it. That is what the pattern
  matches only when the entity name holds no regular-expression metacharacter. With one, Java
  behaves differently: `a.b` also matches `axb`, and `c++` throws a `PatternSyntaxException`.
- The legacy extractor helpers `extractFieldsFromRow`, `extractFormData`, `loadFormRow`,
  `recordExists` and `loadMetadataWithoutValidation` are not part of this model; no
  modelled operation calls them.
- Item `ObjectNode`s are values in the model, so two places in a document never share a node.
- GenericFormDataExtractorModel.GenericFormDataExtractor.ExtractAllFormData: a null
  `parentTableName` is treated like a missing parent row, where the source passes it on to
  `loadByTableNameAndColumnName`.
- GenericFormDataExtractorModel.GenericFormDataExtractor.ExtractAllFormData: a section
  named `id` overwrites the record id, as in the source; no lemma excludes that name.
- ValidationReportGeneratorModel: `%n` is written as "\n". Java's `%n` is the platform line
  separator, "\r\n" on Windows, so the report text matches the source only on Unix-like systems.
- 32-bit `int` overflow is not modelled: array indices in paths are parsed as unbounded
  integers after the range check the source does.
- Casts in the services.yml generator are not modelled as throwing. A YAML value of another
  type than the cast expects is read as missing (null, no list, not true), where Java's cast
  throws a `ClassCastException`. This covers every cast site:
  - `forms`, a form, a field or a grid that is not a map;
  - `all_fields`, `grids` or `grid_forms` that is not a list;
  - `is_parent_form` or `required` that is not a Boolean;
  - `field_id`, `type`, `lookup_form`, `child_of`, `transform_hint`, `grid_id` or
    `sub_form_id` that is not a String;
  - `options_count` that is not an Integer.
  A null form or a null element of `all_fields` is not read as missing: it throws a
  `NullPointerException`, as the source's `get` on it does.
- DocSubmitterModel.Execute: does not model exceptions thrown by its collaborators (the
  `"Error: "` catch), the timeout property, `updateWorkflowVariables` or the loop that logs
  every property.
- The imports in the report generator and the schema validator name a `ValidationResult` in
  the sender package and a `TableValidation` in the farmreg package. Neither file is part of
  this model; the model pairs the two classes that are.
- MappingValidator's `generateReport`, its coverage as a double and the sorting of the report
  are not modelled.
- ServiceInfo's setters `setName` and `setGovstackVersion` are not modelled; nothing in the
  core calls them.

## Findings

| source | as written | input that shows it | evidently intended | confidence | as-written member | corrected member |
|---|---|---|---|---|---|---|
| src/main/java/global/govstack/registration/sender/util/JsonBuilder.java:93-120 | `addArrayItem` creates every missing part of the path as an array, so the walk stops at the first part | the path `extension.crops` on an empty document gives `{"extension": [item]}` and no `crops` member | every part but the last is an object, the last part is an array, and the item is appended to it | not executed | JsonBuilderModel.AddArrayItemAsWritten | JsonBuilderModel.AddItemCorrectedReadBack |

The builder method `JsonBuilderModel.JsonBuilder.AddArrayItem` keeps the behaviour as written,
because it models the source. No other modelled operation adds array items.
