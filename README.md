# JsonExpectations, modelled in Dafny

BreadTh.JsonExpectations is a C# library for declaring what a JSON document
must look like. You declare it as a tree of small wrapper types. The library
then builds an instance from a token tree or reports every violation it finds.

- **Scalar wrappers.** The string, bool, int, double and enum wrappers turn one
  JSON token into a value. The path and the `required` flag decide what happens
  when the token is absent. Each wrapper runs an overridable `Validate(path)`
  hook on the value it built.
- **List wrapper.** It validates every element at `path[i]` and gathers all
  element violations. Only then does it run its own hook on the whole list.
- **Object wrapper.** It validates each property at `path.name`, using the
  property's own wrapper type. It gathers every violation. It also accepts an
  object that arrives stringified inside a JSON string.
- **Output.** The same tree writes itself back out with `ToJToken(path)` and
  `ToJsonString()`.
- **Violations.** Every violation is a pair of a stable id and a
  human-readable description. The description starts with `@(path)`.

What the model contains:

- **Violation records.** The record `ExpectationViolation` and the mutable
  collection `ExpectationViolations`, a Dafny class whose `Add` methods append
  to a `seq` field.
- **`ValueOf`.** A value datatype: the concrete wrapper type's name plus the
  wrapped value.
- **Scalar and list wrappers.** One module per wrapper. Its `From` is a
  function over a `Json.Token`, and its `Validate` override is a *hook*
  parameter.
- **Object wrapper.** Reflection is replaced by a descriptor tree, `Schema.Schema`:
  - each object type is an ordered list of fields;
  - each field has a JSON name, a `[Required]` flag and a schema.

  The values built are `Schema.Instance`, with one slot per property.
- **Two layers for the list and object loops.**
  - `Validation` holds recursive specification functions.
  - `ValidationLoops` and `Serialization` hold the loops the source runs. Each
    loop method is proved equal to its specification function.
- **Properties.** The lemmas in `Properties` are stated about the
  specification functions. They cover:
  - which outcomes succeed;
  - where violations are reported;
  - that a built value can be written out and rebuilt;
  - the round trip of serialization and validation.
- **Examples.** `DemoModel` restates the hooks and types of the bundled example
  program and proves the outcomes of some of its payloads.

These calls are not modelled. They are fields of the record `Json.Env`, and no
property is proved about them beyond what a lemma states as a precondition:
- the Newtonsoft JSON parser (`JObject.Parse`);
- the JSON writer (`JToken.ToString()`);
- the culture-dependent `double.TryParse`;
- double formatting.

Some behaviours of the code are easy to miss; the model follows the code:

- **Parse failure in `FromJsonString`.** A parsed document is validated
  from the root path `""` (`JsonObjectExpectation.cs:27`), but the violation
  for unparsable text hard-codes `@(root) The given string is not a valid
  json object` (line 24).
- **Absent object that is required.** This is not reported with a
  "missing value" id like every other wrapper. It gets
  `f6c9e553-… Expected an object, but got Null` (or `None`/`Undefined`).
- **Paths reach the hooks.** Every `Validate` hook receives its path, so an
  outcome can depend on where the value sits. The model passes the path to
  each hook.
- **Descriptions carry no enforced path.** Nothing forces a hook's description to
  start with its `@(path)`. The path-attribution lemmas therefore assume it
  (`Expectation.Attributed`).
- **Empty violation lists.** A hook may return an empty violation list. The
  callers then see "no violations":
  - a list element with that outcome is dropped from the list;
  - an object property with that outcome is never set, so it keeps its
    initial value from `new TSelf()` (`JsonObjectExpectation.cs:46`), even
    when it is required. The model has no initial values: such a slot is null.

  Two premises on the hooks are used, each only where it is needed:
  - `Expectation.NonSilent` says that a hook that rejects gives at least one
    violation. It may still return another wrapper than it was given.
    `Properties.RejectionsExplained`, `FieldsReportIffRejected`,
    `ListBuiltIff` and `ObjectBuiltIff` assume only this.
  - `Expectation.Filter` says in addition that a hook that accepts returns
    its input unchanged. `Properties.ListBuiltContents`, the
    `*IsRebuildable` lemmas and `Properties.Idempotent` assume this, because
    they relate the built value to what was read.

## Model

| member | source | states |
|---|---|---|
| ExpectationViolation.Printable | BreadTh.JsonExpectations/Error/ExpectationViolation.cs:5-6 | the printed form is `[`, the id, `]`, one space, then the description, and nothing else |
| ExpectationViolation.ViolationEquality | BreadTh.JsonExpectations/Error/ExpectationViolation.cs:3 | two violations are equal exactly when their ids and their descriptions are equal (record equality) |
| ExpectationViolation.ParsePrintableRoundTrip | BreadTh.JsonExpectations/Error/ExpectationViolation.cs:5-6 | when the id contains no `]`, the printed form determines the violation: parsing it back gives the same id and description |
| ExpectationViolations.JoinAppend | BreadTh.JsonExpectations/Error/ExpectationViolations.cs:36-37 | printing a concatenation of two non-empty lists is printing each and joining them with one newline |
| ExpectationViolations.LinesOfJoin | BreadTh.JsonExpectations/Error/ExpectationViolations.cs:36-37 | when no violation contains a newline, the printed collection has exactly one line per violation, in order, the k-th line being the k-th violation's printed form |
| ExpectationViolations.Join | BreadTh.JsonExpectations/Error/ExpectationViolations.cs:36-37 | the printed list is empty exactly when there are no violations |
| ExpectationViolations.ViolationSet.FromList | BreadTh.JsonExpectations/Error/ExpectationViolations.cs:3 | the collection holds exactly the given list |
| ExpectationViolations.ViolationSet.FromArray | BreadTh.JsonExpectations/Error/ExpectationViolations.cs:5-7 | the collection holds the array's elements in order |
| ExpectationViolations.ViolationSet.Single | BreadTh.JsonExpectations/Error/ExpectationViolations.cs:9-11 | the collection holds just that violation (also the implicit conversion at lines 21-22) |
| ExpectationViolations.ViolationSet.Of | BreadTh.JsonExpectations/Error/ExpectationViolations.cs:13-15 | the collection holds one violation built from the id and description |
| ExpectationViolations.ViolationSet.constructor | BreadTh.JsonExpectations/Error/ExpectationViolations.cs:17-19 | the new collection is empty |
| ExpectationViolations.ViolationSet.AddNew | BreadTh.JsonExpectations/Error/ExpectationViolations.cs:24-25 | appends one violation built from id and description at the end, and the collection is then non-empty |
| ExpectationViolations.ViolationSet.Add | BreadTh.JsonExpectations/Error/ExpectationViolations.cs:27-28 | appends the violation at the end, and the collection is then non-empty |
| ExpectationViolations.ViolationSet.AddAll | BreadTh.JsonExpectations/Error/ExpectationViolations.cs:30-31 | appends the other collection's entries in order and leaves the other one unchanged; the result is empty iff both were |
| ExpectationViolations.ViolationSet.IsEmpty | BreadTh.JsonExpectations/Error/ExpectationViolations.cs:33-34 | true exactly when the collection holds no violation |
| ExpectationViolations.ViolationSet.Printable | BreadTh.JsonExpectations/Error/ExpectationViolations.cs:36-37 | the printed collection is empty exactly when the collection is; a single violation prints as its own printed form |
| ValueObject.From | BreadTh.JsonExpectations/External/ValueOf/ValueOf.cs:35-41 | the new wrapper is of the requested concrete type and holds exactly the item |
| ValueObject.Equals | BreadTh.JsonExpectations/External/ValueOf/ValueOf.cs:43-57 | a wrapper equals an object iff it is non-null, of the same concrete type and holds an equal value |
| ValueObject.Eq | BreadTh.JsonExpectations/External/ValueOf/ValueOf.cs:64-73 | `==` holds iff both sides are null or both are equal wrappers |
| ValueObject.Neq | BreadTh.JsonExpectations/External/ValueOf/ValueOf.cs:75-78 | `!=` is exactly the negation of `==` |
| ValueObject.EqualsImpliesEqualHash | BreadTh.JsonExpectations/External/ValueOf/ValueOf.cs:59-62 | equal wrappers (indeed wrappers holding equal values) have equal hash codes |
| Expectation.DefaultValidate | BreadTh.JsonExpectations/JsonStringExpectation.cs:22-23 | the default `Validate` accepts every value unchanged (the same default in every wrapper) |
| Expectation.At | BreadTh.JsonExpectations/JsonStringExpectation.cs:17 | every description starts with `@(`, the path, then `) `, and the message follows directly |
| Expectation.DefaultValidateIsFilter | BreadTh.JsonExpectations/JsonStringExpectation.cs:22-23 | the default hook either returns its input or a non-empty, path-attributed violation list |
| Expectation.Present | BreadTh.JsonExpectations/JsonStringExpectation.cs:19 | a hook's outcome passes through unchanged: the same violations, or the same value now present |
| Expectation.NullHandle | BreadTh.JsonExpectations/JsonStringExpectation.cs:25-26 | an absent value is null iff not required; otherwise exactly one "Expected a value, but got nothing." violation under the path |
| Expectation.Fail | BreadTh.JsonExpectations/JsonListExpectation.cs:19 | a failure is exactly one violation whose description is the path marker followed by the message |
| Expectation.PrimitiveOperators | BreadTh.JsonExpectations/JsonStringExpectation.cs:31-41 | comparing a wrapper with a raw value is comparing it with the wrapper of that value, and `!=` is the negation of `==` |
| Json.Lookup | BreadTh.JsonExpectations/JsonObjectExpectation.cs:56 | a member is found iff some member has that name, and what is found is the value of such a member |
| JsonString.From | BreadTh.JsonExpectations/JsonStringExpectation.cs:11-20 | absent gives null iff not required (else the missing-value violation); an object gives exactly the one violation with its object id and the message "Expected a primitive, but got an object." under the path, an array likewise with its array id; any primitive gives its text to the hook; every rejection is non-empty when the hook never rejects silently, and under the path when the hook reports there |
| JsonString.ToJToken | BreadTh.JsonExpectations/JsonStringExpectation.cs:28-29 | writes a string token holding exactly the wrapped string |
| JsonString.RoundTrip | BreadTh.JsonExpectations/JsonStringExpectation.cs:11-29 | reading back what `ToJToken` wrote gives the same wrapper whenever its hook accepts it |
| JsonBool.ParseBool | BreadTh.JsonExpectations/JsonBoolExpectation.cs:23-35 | true iff the lower-cased text is `true` or `1`, false iff it is `false` or `0`, rejected otherwise |
| JsonBool.ParseAndValidate | BreadTh.JsonExpectations/JsonBoolExpectation.cs:23-35 | a parsed text goes to the hook; an unparsable one is the single not-a-bool violation under the path |
| JsonBool.From | BreadTh.JsonExpectations/JsonBoolExpectation.cs:12-21 | the absent, object, array and primitive cases as for strings (the object and array violations written out in full), with primitives parsed as booleans; a built value is one the hook accepted |
| JsonBool.RoundTrip | BreadTh.JsonExpectations/JsonBoolExpectation.cs:12-44 | reading back what `ToJToken` wrote gives the same wrapper whenever its hook accepts it |
| JsonBool.ToJToken | BreadTh.JsonExpectations/JsonBoolExpectation.cs:43-44 | writes a boolean token holding the value, whose text `ParseBool` reads back as that value |
| JsonBool.TrueSpellings | BreadTh.JsonExpectations.Examples/Program.cs:42-44 | `TrUe`, `1`, the boolean token `true` and the integer token `1` all read as true |
| JsonBool.RejectedSpellings | BreadTh.JsonExpectations.Examples/Program.cs:59-61 | `2`, `true.` and `Hello` are rejected, and `"true."` gives exactly the not-a-bool violation |
| JsonInt.ParseInt32 | BreadTh.JsonExpectations/JsonIntExpectation.cs:22-30 | an accepted text denotes an integer in the 32-bit signed range |
| JsonInt.ParseInt32Accepts | BreadTh.JsonExpectations/JsonIntExpectation.cs:26 | a text that, with surrounding whitespace trimmed, is an optional `+` or `-` and one or more digits parses iff its value fits in 32 bits, and then to that value |
| JsonInt.ParseInt32Sound | BreadTh.JsonExpectations/JsonIntExpectation.cs:26 | every accepted text is, once trimmed, an optional sign and one or more digits denoting the value returned |
| JsonInt.ParseSignedIntText | BreadTh.JsonExpectations/JsonIntExpectation.cs:22-30 | the sign-and-digits step reads the decimal text of every 32-bit integer back as that integer |
| JsonInt.ParseIntText | BreadTh.JsonExpectations/JsonIntExpectation.cs:22-39 | the decimal text of every 32-bit integer parses back to that integer |
| JsonInt.RejectsNonDigit | BreadTh.JsonExpectations/JsonIntExpectation.cs:22-30 | an unsigned text without surrounding whitespace that contains a non-digit is rejected |
| JsonInt.RejectsNonIntegers | BreadTh.JsonExpectations.Examples/Program.cs:54-55 | `7.5` and `Hello` are not integers |
| JsonInt.AcceptsPaddedSigned | BreadTh.JsonExpectations/JsonIntExpectation.cs:22-30 | surrounding whitespace and a sign are accepted: ` -7 ` reads as -7 |
| JsonInt.ParseAndValidate | BreadTh.JsonExpectations/JsonIntExpectation.cs:22-30 | a parsed integer goes to the hook; otherwise the single not-an-int violation; a built value is in range |
| JsonInt.From | BreadTh.JsonExpectations/JsonIntExpectation.cs:11-20 | the absent, object, array and primitive cases as for strings (the object and array violations written out in full); a built value is accepted by the hook and fits in 32 bits |
| JsonInt.RoundTrip | BreadTh.JsonExpectations/JsonIntExpectation.cs:11-39 | an in-range wrapper its hook accepts reads back unchanged from what `ToJToken` wrote |
| JsonInt.ToJToken | BreadTh.JsonExpectations/JsonIntExpectation.cs:38-39 | writes an integer token holding the value, whose text is the value's decimal text |
| JsonDouble.ParseAndValidate | BreadTh.JsonExpectations/JsonDoubleExpectation.cs:23-31 | a text the culture parser accepts goes to the hook; otherwise the single not-a-double violation |
| JsonDouble.From | BreadTh.JsonExpectations/JsonDoubleExpectation.cs:12-21 | the absent, object, array and primitive cases as for strings (the object and array violations written out in full); a built value is accepted by the hook |
| JsonDouble.ContainersNeverParsed | BreadTh.JsonExpectations/JsonDoubleExpectation.cs:12-21 | for absent, object and array tokens the outcome does not depend on the number parser at all |
| JsonDouble.ToJToken | BreadTh.JsonExpectations/JsonDoubleExpectation.cs:39-40 | writes a float token whose text is the formatter's rendering of the value |
| JsonDouble.RoundTrip | BreadTh.JsonExpectations/JsonDoubleExpectation.cs:12-40 | when the parser reads back this value's formatted text as the value, a wrapper its hook accepts reads back unchanged |
| JsonEnum.NameIndex | BreadTh.JsonExpectations/JsonEnumExpectation.cs:30 | the member found is the first one with that name; none is found iff no member has it |
| JsonEnum.ParseAndValidate | BreadTh.JsonExpectations/JsonEnumExpectation.cs:25-40 | a known name goes to the hook as that member; an unknown one is the single violation listing every valid name; a built value names a member |
| JsonEnum.From | BreadTh.JsonExpectations/JsonEnumExpectation.cs:13-23 | the absent, object and array cases as for strings (the object and array violations written out in full); strings are looked up by name; every other primitive is the single expected-a-string violation |
| JsonEnum.RoundTrip | BreadTh.JsonExpectations/JsonEnumExpectation.cs:13-52 | with distinct member names, a member its hook accepts reads back unchanged from the name `ToJToken` wrote |
| JsonEnum.ToJToken | BreadTh.JsonExpectations/JsonEnumExpectation.cs:48-52 | writes a string token: the member's name for a known member, the number's decimal text otherwise |
| JsonEnum.ExampleKnownName | BreadTh.JsonExpectations.Examples/Program.cs:176-179 | `Def` reads as the second member of `{Abc, Def, Hij}` |
| JsonEnum.ExampleJoin | BreadTh.JsonExpectations/JsonEnumExpectation.cs:35-36 | the valid names are listed quoted and separated by `", "` |
| JsonEnum.ExampleUnknownName | BreadTh.JsonExpectations.Examples/Program.cs:53 | `Xyz` is rejected with the message that lists `Abc`, `Def`, `Hij` |
| JsonEnum.NeqAsWrittenIsEq | BreadTh.JsonExpectations/JsonEnumExpectation.cs:57-58 | the enum `!=` as written returns the same answer as `==` for every operand, so it holds for equal values |
| JsonEnum.PrimitiveNeq | BreadTh.JsonExpectations/JsonEnumExpectation.cs:57-64 | the corrected `!=` is the negation of `==` |
| Validation.ElementPath | BreadTh.JsonExpectations/JsonListExpectation.cs:32 | an element's path extends the list's path with `[`, the index, `]` |
| Validation.FieldPath | BreadTh.JsonExpectations/JsonObjectExpectation.cs:55 | a property's path extends the object's path with `.` and the property's JSON name |
| Validation.MergeAppend | BreadTh.JsonExpectations/JsonListExpectation.cs:31-36 | gathering the violations of two runs of children is gathering each run and concatenating |
| Validation.Lift | BreadTh.JsonExpectations/JsonObjectExpectation.cs:68-81 | calling a property's wrapper through the common interface keeps its violations and its null-ness |
| Validation.From | BreadTh.JsonExpectations/JsonObjectExpectation.cs:61-68 | dispatch to the property's wrapper type; the outcome is null iff the token is absent and the value not required |
| Validation.ListFrom | BreadTh.JsonExpectations/JsonListExpectation.cs:13-22 | null iff absent and optional; absent and required, an object, and a primitive each give exactly their single violation |
| Validation.ListParseAndValidate | BreadTh.JsonExpectations/JsonListExpectation.cs:24-42 | a list read from an array is never null (its own meaning is proved in Properties.ListBuiltIff and ListBuiltContents) |
| Validation.ElementOutcomes | BreadTh.JsonExpectations/JsonListExpectation.cs:31-36 | there is one outcome per element read so far |
| Validation.ElementStep | BreadTh.JsonExpectations/JsonListExpectation.cs:31-36 | one more element appends its violations to those gathered and its value to the result list; a required element is never null |
| Validation.ObjectFrom | BreadTh.JsonExpectations/JsonObjectExpectation.cs:34-44 | null iff absent and optional; an array, a non-string primitive or a required absent value gives exactly the expected-an-object violation naming the token type |
| Validation.FromStringifiedObject | BreadTh.JsonExpectations/JsonObjectExpectation.cs:120-138 | a stringified object is never null: it is parsed and then validated, or rejected |
| Validation.ObjectFields | BreadTh.JsonExpectations/JsonObjectExpectation.cs:46-88 | an object read from members is never null (its meaning is proved in Properties.ObjectBuiltIff) |
| Validation.FieldOutcomes | BreadTh.JsonExpectations/JsonObjectExpectation.cs:51-83 | there is one outcome per property visited so far |
| Validation.FieldStep | BreadTh.JsonExpectations/JsonObjectExpectation.cs:79-82 | one more property appends its violations to those gathered and its value (null when rejected) as the next property of the instance |
| Validation.FromJsonString | BreadTh.JsonExpectations/JsonObjectExpectation.cs:14-32 | unparsable text gives exactly the invalid-json violation; parsable text is validated from the root path `""`; the result is never null |
| ValidationLoops.FromToken | BreadTh.JsonExpectations/JsonObjectExpectation.cs:61-68 | the dispatch computes exactly the specified outcome |
| ValidationLoops.ListFrom | BreadTh.JsonExpectations/JsonListExpectation.cs:13-22 | the list wrapper's `From` computes exactly the specified outcome |
| ValidationLoops.ListParseAndValidate | BreadTh.JsonExpectations/JsonListExpectation.cs:24-42 | the loop over the children, with its collection of violations and its result list, computes exactly the specified outcome |
| ValidationLoops.ObjectFrom | BreadTh.JsonExpectations/JsonObjectExpectation.cs:34-44 | the object wrapper's `From` computes exactly the specified outcome |
| ValidationLoops.FromStringifiedObject | BreadTh.JsonExpectations/JsonObjectExpectation.cs:120-138 | computes exactly the specified outcome |
| ValidationLoops.ObjectFields | BreadTh.JsonExpectations/JsonObjectExpectation.cs:46-88 | the loop over the properties, filling a fresh instance's slots and collecting violations, computes exactly the specified outcome |
| ValidationLoops.FromJsonString | BreadTh.JsonExpectations/JsonObjectExpectation.cs:14-32 | computes exactly the specified outcome |
| Serialization.ElementTokens | BreadTh.JsonExpectations/JsonListExpectation.cs:55-65 | one token per element written so far |
| Serialization.MemberTokens | BreadTh.JsonExpectations/JsonObjectExpectation.cs:95-112 | at most one member per property: null properties are skipped |
| Serialization.ToJToken | BreadTh.JsonExpectations/Interface/IJsonExpectation.cs:4 | the dispatch writes exactly the specified token |
| Serialization.ListToJToken | BreadTh.JsonExpectations/JsonListExpectation.cs:50-67 | the loop writes exactly the specified array, one element token per element at its indexed path |
| Serialization.ObjectToJToken | BreadTh.JsonExpectations/JsonObjectExpectation.cs:91-115 | the loop writes exactly the specified object, skipping null properties |
| Serialization.ToJsonString | BreadTh.JsonExpectations/JsonObjectExpectation.cs:117-118 | the text is the writer's rendering of the token written from the root path |
| Properties.ElementOutcomeAt | BreadTh.JsonExpectations/JsonListExpectation.cs:31-32 | element `k` is validated as a required value of the element type at path `path[k]` |
| Properties.FieldOutcomeAt | BreadTh.JsonExpectations/JsonObjectExpectation.cs:55-68 | property `k` is looked up by its JSON name (null when missing) and validated with its own required flag at `path.name` |
| Properties.MergeSplit | BreadTh.JsonExpectations/JsonListExpectation.cs:31-36 | the gathered violations are the ones before child `k`, then child `k`'s own, then the ones after it, in order |
| Properties.MergeCount | BreadTh.JsonExpectations/JsonListExpectation.cs:31-36 | no violation is lost or invented: the number gathered is the sum over the children |
| Properties.MergeEmptyIff | BreadTh.JsonExpectations/JsonListExpectation.cs:38-39 | nothing is gathered iff no child reported anything |
| Properties.MergeEmptyIffBuilt | BreadTh.JsonExpectations/JsonObjectExpectation.cs:85-88 | when each child reports something exactly when it fails, nothing is gathered iff every child succeeded |
| Properties.FieldsReportIffRejected | BreadTh.JsonExpectations/JsonObjectExpectation.cs:68-82 | when no hook rejects without a violation, each property reports nothing exactly when it was built |
| Properties.ValuesAllPresent | BreadTh.JsonExpectations/JsonListExpectation.cs:35 | when every child was built, the result list holds every child's value in order |
| Schema.FiltersAreNonSilent | BreadTh.JsonExpectations/JsonObjectExpectation.cs:79-82 | a type whose hooks only pass their input through or reject with violations has no hook that rejects silently |
| Properties.StringifiedObject | BreadTh.JsonExpectations/JsonObjectExpectation.cs:38-39 | a string given for an object is parsed: unparsable gives exactly the not-stringified violation, parsable is validated at the same path |
| Properties.RejectionsExplained | BreadTh.JsonExpectations/JsonObjectExpectation.cs:85-88 | when no hook rejects without a violation, every rejection carries at least one violation |
| Properties.ListBuiltIff | BreadTh.JsonExpectations/JsonListExpectation.cs:31-41 | when no hook rejects without a violation, a list is built iff every element is built and the list hook accepts the built list |
| Properties.ListBuiltContents | BreadTh.JsonExpectations/JsonListExpectation.cs:31-41 | a built list has one element per array item, in order, each being that item's built value, and the list hook accepted it unchanged |
| Properties.ObjectBuiltIff | BreadTh.JsonExpectations/JsonObjectExpectation.cs:51-88 | when no hook rejects without a violation, an object is built iff every property is built, and property `k` of the result is exactly property `k`'s outcome |
| Properties.ReportedUnderPrefix | BreadTh.JsonExpectations/JsonObjectExpectation.cs:55 | a violation reported under a child's path is also reported under every prefix of that path |
| Properties.MergeReportedUnder | BreadTh.JsonExpectations/JsonListExpectation.cs:31-39 | gathering keeps every violation under the common path |
| Properties.ReportedUnderFrom | BreadTh.JsonExpectations/JsonObjectExpectation.cs:34-89 | when hooks mark their own path, every violation of a validation carries a path that starts with the validated path |
| Properties.ListReportedUnder | BreadTh.JsonExpectations/JsonListExpectation.cs:24-42 | the same for a list's elements and the list hook |
| Properties.ObjectReportedUnder | BreadTh.JsonExpectations/JsonObjectExpectation.cs:46-88 | the same for an object's properties |
| Properties.BuiltIsRebuildable | BreadTh.JsonExpectations/JsonObjectExpectation.cs:34-89 | every built value fits the writer (32-bit integers, known enum members, nulls only where optional) and every hook accepts it at its path; when the culture is stable on the doubles it parses, every double in it reads back as itself |
| Properties.ListIsRebuildable | BreadTh.JsonExpectations/JsonListExpectation.cs:24-42 | the same for a built list |
| Properties.ObjectIsRebuildable | BreadTh.JsonExpectations/JsonObjectExpectation.cs:46-88 | the same for a built object, with a null slot only for an optional property |
| Properties.StableCultureExists | BreadTh.JsonExpectations/JsonDoubleExpectation.cs:27 | a double parser and formatter that are stable on every parsed double exist, so `Properties.Idempotent` is not vacuous |
| Properties.ElementTokenAt | BreadTh.JsonExpectations/JsonListExpectation.cs:55-64 | element `k` is written from element `k` at path `path[k]` |
| Properties.LookupAppend | BreadTh.JsonExpectations/JsonObjectExpectation.cs:56 | looking a name up in a concatenation finds it in the first part when it is there, else in the second |
| Properties.MemberLookup | BreadTh.JsonExpectations/JsonObjectExpectation.cs:95-112 | in the written object, property `k`'s name finds exactly its written value, and nothing when the property is null |
| Properties.RoundTrip | BreadTh.JsonExpectations/JsonObjectExpectation.cs:34-115 | reading back what `ToJToken` wrote reproduces any value that fits the writer, that its hooks accept, and whose doubles the culture reads back as themselves |
| Properties.ListRoundTrip | BreadTh.JsonExpectations/JsonListExpectation.cs:24-67 | the same for a list read back from its written array |
| Properties.ObjectRoundTrip | BreadTh.JsonExpectations/JsonObjectExpectation.cs:46-115 | the same for an object read back from its written members |
| Properties.JsonStringRoundTrip | BreadTh.JsonExpectations/JsonObjectExpectation.cs:14-32 | `FromJsonString(ToJsonString(x))` gives `x` back when the parser reads the text written for `x` as the members it was written from |
| Properties.Idempotent | BreadTh.JsonExpectations/JsonObjectExpectation.cs:34-115 | with hooks that accept only unchanged and reject only with violations, and a culture stable on the doubles it parses, validating a written value that was itself built gives the same value again |
| DemoModel.ExcitedMessage | BreadTh.JsonExpectations.Examples/Program.cs:154-158 | a message is accepted unchanged iff it contains `!`, otherwise exactly its own violation |
| DemoModel.InternationalGreetingList | BreadTh.JsonExpectations.Examples/Program.cs:105-111 | a greeting list is accepted unchanged iff some greeting is not a common English one, otherwise exactly its own violation |
| DemoModel.HooksAreFilters | BreadTh.JsonExpectations.Examples/Program.cs:105-158 | both example hooks either accept unchanged or report a non-empty violation under their path |
| DemoModel.EmptyGreetingListRejected | BreadTh.JsonExpectations.Examples/Program.cs:107-110 | an empty greeting list is rejected |
| DemoModel.StringifiedObjectAccepted | BreadTh.JsonExpectations.Examples/Program.cs:45 | the stringified `{"Field": "Value"}` builds an object whose required field holds `Value` |
| DemoModel.StringifiedObjectRejected | BreadTh.JsonExpectations.Examples/Program.cs:62 | the string `{Field: Value}` is rejected with exactly the not-stringified violation |
| DemoModel.MissingRequiredField | BreadTh.JsonExpectations.Examples/Program.cs:184-188 | an empty object for a type with a required string property gives exactly the string's missing-value violation at `.Field` |

## Left out

- Double parsing and formatting: `double.TryParse` under the current culture and the double formatter are record fields of `Json.Env`. Group separators, culture decimal marks and the `7,5`-reads-as-75 behaviour are therefore not modelled. Floating-point values are `real`.
- JSON text: `JObject.Parse` and `JToken.ToString()` are fields of `Json.Env`. The JSON grammar and the writer's formatting are not modelled.
- Properties.JsonStringRoundTrip: assumes the parser reads the text written for the value back as the members it was written from. Newtonsoft's default `DateParseHandling` turns a string that looks like a date into a date token, so for such values the premise, and the round trip, fail.
- JsonEnum.ParseAndValidate: `Enum.TryParse` also accepts numeric strings, surrounding whitespace and comma-separated flag names. The model accepts only an exact member name.
- JsonEnum.ToJToken: `Value.ToString()` prints an out-of-range enum value as its number. The model only writes values that name a member (`Serialization.Representable`).
- JsonBool.ParseBool: `ToLower()` is modelled for ASCII letters only.
- JsonInt.ParseInt32: `int.TryParse` also ignores trailing NUL characters and knows culture-specific signs and whitespace. The model takes ASCII `+`/`-`, ASCII digits and the usual whitespace characters.
- Json.Lookup: `SelectToken(name)` interprets the name as a JSON path. The model looks up a plain member name, the first match winning.
- Reflection: property discovery, `[Required]` attributes and `[JsonProperty]` names are replaced by the field list of `Schema.ObjectS`. The exceptions thrown for a mis-wired property type are not modelled. The AOT and runtime reflection paths are one path here.
- Null from hooks: a `Validate` override returning null is not modelled. Hooks return either violations or a value.
- Instance properties: a built object is a sequence of slots, not typed properties set one by one. `SetPropValue` and `GetPropValue` are slot writes and reads.
- ValueOf: the static factory constructor, reference identity (`ReferenceEquals`) and concrete hash values are not modelled. Hashing is a parameter, and equality is value equality of the type name and the value.
- ValueObject.ToString: delegating to the wrapped value's `ToString()` takes the rendering function as a parameter, so no property is stated about it.
- Validation.ObjectFields: a built object starts as `new TSelf()` (`JsonObjectExpectation.cs:46`), so in C# a property keeps its initializer's or constructor's value whenever it is not set. That happens when its wrapper rejects with an empty violation list, and, on the AOT path, when an absent optional property yields null, because `SetPropValue` skips a null there (line 190). The model starts every slot as null and has no initial values.
- ValueObject.Equals: for a list wrapper, `EqualityComparer<IEnumerable<TElement>>.Default` (`ValueOf.cs:45`) compares the two lists by reference. Two list wrappers read from the same array are therefore unequal in C#, while the model compares sequences by value and calls them equal.
- ExpectationViolations.ViolationSet.FromList: the C# record keeps the caller's list object, so later `Add` calls mutate it. The model copies the sequence, and this aliasing is not captured.
- JObject member uniqueness: `JObject.Add` throws on a duplicate name. `Serialization.ObjectToJToken` instead appends the duplicate member, and the exception is not modelled. The read-back lemmas (`Properties.RoundTrip` and those built on it) require distinct JSON names (`Schema.WellFormed`).
- Enum values: an enum type is its member names in `Enum.GetValues` order, and member k is taken to have underlying value k. Explicit, repeated or gapped underlying values are not modelled.
- `IJsonRootExpectation.ToJsonString(bool indented)`: the interface declares it, but the object wrapper implements only the parameterless `ToJsonString()`. That one is modelled.
- The example program's `[JsonPropertyName]` attributes come from System.Text.Json and are not read by the library's reflection. The example models use property names as JSON names.
- The example program's console output and the benchmark project are not part of this model.

## Findings

| source | as written | input that shows it | evidently intended | confidence | as-written member | corrected member |
|---|---|---|---|---|---|---|
| BreadTh.JsonExpectations/JsonEnumExpectation.cs:57-58 | both `!=` operators between an enum wrapper and a raw enum value return `EqualityComparer.Equals(wrapped.Value, primitive)`, the same as `==` | a wrapper holding `Def` compared with `Def`: `wrapped != Def` is true | `!=` is the negation of `==`, as in the string, bool, int and double wrappers | not executed | JsonEnum.NeqAsWrittenIsEq | JsonEnum.PrimitiveNeq |
