# Parameter and form-body processing of vertx-web-validation, in Dafny

This project models two pieces of the request-validation library
vertx-web-validation:

- the **parameter processor** (`ParameterProcessing`, in
  `parameter_processor.dfy`). For one named parameter at one location
  (query, header, path, cookie), it runs the parameter parser. It maps a
  malformed value to `PARSING_ERROR`. It maps a missing value to a
  `MISSING_PARAMETER_WHEN_REQUIRED` failure when the parameter is required.
  If the parameter is optional, a missing value becomes the validator's
  default wrapped as a `RequestParameter`, or no result when there is no
  default. A present value goes to the value validator, and a rejection
  becomes `VALIDATION_ERROR`. Every failure carries the processor's
  location and name, and its cause. The missing-required failure is the
  only one without a cause. The processor is a value: name, location,
  `isOptional`, parser and validator. The parser and validator are
  function-typed fields, the way the unit test mocks them. `Process` is a
  total function.
- the **form body processor** (`FormBodyProcessing`, in
  `form_body_processor.dfy`):
  - `CanProcess` is Java's `String.contains`: the request content type
    contains the configured token.
  - `MustNullateValue` is the nullation hook: the value list is null or
    empty.
  - `GetAdditionalPropertiesParserIfRequired` returns the configured
    additional-properties parser, or else a fallback that wraps the raw
    strings as a JSON array.
  - `Process` is the imperative key loop. It visits the form fields in
    order and calls the object parser's `parseField` on each. It puts every
    non-null entry into one map, then validates the whole object once. A
    malformed field becomes a body parsing error tagged with the raw
    `Content-Type` header. A schema or validation failure becomes a body
    validation error tagged with the parsed content type. `Process` is
    proved equal to `ProcessOutcome`, which is defined through
    `BuildObject`, the loop as a recursive function over the fields seen so
    far. `BuildObject` has an independent characterisation: the loop aborts
    exactly at the first malformed field. Otherwise the object holds
    exactly the keys of the parsed entries, and each key holds the value of
    the last field that yields it.

`Options` gives `Option`, which stands for Java's null. `Values` gives the
JSON-like values, `RequestParameter`, and the parser and schema-engine
exceptions, each kept as a value with its message.

The behaviour of `ParameterProcessorImpl` comes from its unit test. The
test does not stub `validate` in the default case
(`ParameterProcessorUnitTest.java:84-89`), and it still expects the
default `"bla"` back. The model follows the test: the default is wrapped
directly and is not validated. `ValidateConsultedOnlyOnParsedValue`
states this.

## Model

| member | source | states |
|---|---|---|
| `ParameterProcessing.Process` | vertx-web-validation/src/test/java/io/vertx/ext/web/validation/impl/ParameterProcessorUnitTest.java:34-161 | every failure carries the processor's location and name; a failure has no cause exactly when it is the missing-required one; the missing-required failure only happens for a required parameter; no result only happens for an optional parameter without a default |
| `ParameterProcessing.RequiredAbsentIsMissing` | vertx-web-validation/src/test/java/io/vertx/ext/web/validation/impl/ParameterProcessorUnitTest.java:34-51 | a required parameter whose parser yields no value fails with MISSING_PARAMETER_WHEN_REQUIRED, the processor's location and name, and no cause |
| `ParameterProcessing.OptionalAbsentWithoutDefaultIsNoResult` | vertx-web-validation/src/test/java/io/vertx/ext/web/validation/impl/ParameterProcessorUnitTest.java:53-71 | an optional parameter with no value and no default gives no result, not an error |
| `ParameterProcessing.OptionalAbsentWithDefaultIsDefault` | vertx-web-validation/src/test/java/io/vertx/ext/web/validation/impl/ParameterProcessorUnitTest.java:74-92 | an optional parameter with no value and default d gives the parameter wrapping d itself |
| `ParameterProcessing.MalformedIsParsingError` | vertx-web-validation/src/test/java/io/vertx/ext/web/validation/impl/ParameterProcessorUnitTest.java:94-112 | a malformed value gives PARSING_ERROR whose cause is that malformed value, whether the parameter is required or not |
| `ParameterProcessing.AcceptedValueIsValidatorResult` | vertx-web-validation/src/test/java/io/vertx/ext/web/validation/impl/ParameterProcessorUnitTest.java:114-133 | a parsed value the validator accepts gives exactly the validator's parameter |
| `ParameterProcessing.RejectedValueIsValidationError` | vertx-web-validation/src/test/java/io/vertx/ext/web/validation/impl/ParameterProcessorUnitTest.java:135-161 | a parsed value the validator rejects gives VALIDATION_ERROR with the validator's exception as cause, attributed to the processor |
| `ParameterProcessing.ValidateConsultedOnlyOnParsedValue` | vertx-web-validation/src/test/java/io/vertx/ext/web/validation/impl/ParameterProcessorUnitTest.java:84-89 | the outcome depends on `validate` only at the parsed value, so an absent value or a default is never validated |
| `ParameterProcessing.DefaultConsultedOnlyWhenOptionalAndAbsent` | vertx-web-validation/src/test/java/io/vertx/ext/web/validation/impl/ParameterProcessorUnitTest.java:53-92 | the default is only consulted for an optional parameter whose parser yields no value |
| `ParameterProcessing.ScenarioRequiredParam` | vertx-web-validation/src/test/java/io/vertx/ext/web/validation/impl/ParameterProcessorUnitTest.java:34-51 | "myParam" in QUERY, required, parser yields nothing: MISSING_PARAMETER_WHEN_REQUIRED, QUERY, "myParam", no cause |
| `ParameterProcessing.ScenarioOptionalParam` | vertx-web-validation/src/test/java/io/vertx/ext/web/validation/impl/ParameterProcessorUnitTest.java:53-71 | optional, parser yields nothing, no default: no result |
| `ParameterProcessing.ScenarioOptionalParamWithDefault` | vertx-web-validation/src/test/java/io/vertx/ext/web/validation/impl/ParameterProcessorUnitTest.java:74-92 | optional, parser yields nothing, default "bla": a string parameter "bla", for any validate |
| `ParameterProcessing.ScenarioParsingFailure` | vertx-web-validation/src/test/java/io/vertx/ext/web/validation/impl/ParameterProcessorUnitTest.java:94-112 | required, parser fails with malformed value "bla": PARSING_ERROR, QUERY, "myParam", that malformed value as cause |
| `ParameterProcessing.ScenarioValidation` | vertx-web-validation/src/test/java/io/vertx/ext/web/validation/impl/ParameterProcessorUnitTest.java:114-133 | parser yields "aaa", validator returns the string parameter "aaa": that string parameter |
| `ParameterProcessing.ScenarioValidationFailure` | vertx-web-validation/src/test/java/io/vertx/ext/web/validation/impl/ParameterProcessorUnitTest.java:135-161 | parser yields "aaa", validator throws: VALIDATION_ERROR, QUERY, "myParam", the validation exception as cause |
| `FormBodyProcessing.Contains` | vertx-web-validation/src/main/java/io/vertx/ext/web/validation/impl/body/FormBodyProcessorImpl.java:34 | true exactly when the token occurs at some position of the string |
| `FormBodyProcessing.CanProcess` | vertx-web-validation/src/main/java/io/vertx/ext/web/validation/impl/body/FormBodyProcessorImpl.java:32-35 | the processor accepts a content type exactly when its configured token occurs in it |
| `FormBodyProcessing.CanProcessOwnContentType` | vertx-web-validation/src/main/java/io/vertx/ext/web/validation/impl/body/FormBodyProcessorImpl.java:33-35 | the configured content type itself is accepted |
| `FormBodyProcessing.CanProcessWithSuffix` | vertx-web-validation/src/main/java/io/vertx/ext/web/validation/impl/body/FormBodyProcessorImpl.java:33-35 | an accepted content type stays accepted with any suffix, such as a charset parameter |
| `FormBodyProcessing.CanProcessWithPrefix` | vertx-web-validation/src/main/java/io/vertx/ext/web/validation/impl/body/FormBodyProcessorImpl.java:33-35 | an accepted content type stays accepted with any prefix |
| `FormBodyProcessing.ShorterContentTypeIsRejected` | vertx-web-validation/src/main/java/io/vertx/ext/web/validation/impl/body/FormBodyProcessorImpl.java:33-35 | a content type shorter than the token is not accepted |
| `FormBodyProcessing.MustNullateValue` | vertx-web-validation/src/main/java/io/vertx/ext/web/validation/impl/body/FormBodyProcessorImpl.java:60-63 | a field is nullated exactly when its value list is null or empty |
| `FormBodyProcessing.MustNullateValueIgnoresParser` | vertx-web-validation/src/main/java/io/vertx/ext/web/validation/impl/body/FormBodyProcessorImpl.java:61-62 | nullation does not depend on the parser argument |
| `FormBodyProcessing.StringArray` | vertx-web-validation/src/main/java/io/vertx/ext/web/validation/impl/body/FormBodyProcessorImpl.java:57 | the array built from a value list has one string item per value, in order |
| `FormBodyProcessing.WrapAsArray` | vertx-web-validation/src/main/java/io/vertx/ext/web/validation/impl/body/FormBodyProcessorImpl.java:57 | the fallback `JsonArray::new` never fails and yields an array holding exactly the raw strings, in order |
| `FormBodyProcessing.StringArrayRoundTrip` | vertx-web-validation/src/main/java/io/vertx/ext/web/validation/impl/body/FormBodyProcessorImpl.java:57 | reading the strings back out of the wrapped array gives the original value list |
| `FormBodyProcessing.GetAdditionalPropertiesParserIfRequired` | vertx-web-validation/src/main/java/io/vertx/ext/web/validation/impl/body/FormBodyProcessorImpl.java:55-58 | the configured additional-properties parser when there is one; otherwise a parser that never fails and turns every value list into an array holding exactly those strings |
| `FormBodyProcessing.BuildObject` | vertx-web-validation/src/main/java/io/vertx/ext/web/validation/impl/body/FormBodyProcessorImpl.java:41-46 | the key loop over the fields seen so far: every non-null entry is put into the object, later puts of a key replace earlier ones, a malformed field stops the loop; an abort always carries the malformed value of some field |
| `FormBodyProcessing.BuildObjectAborts` | vertx-web-validation/src/main/java/io/vertx/ext/web/validation/impl/body/FormBodyProcessorImpl.java:42-49 | the key loop aborts exactly when some field is malformed, and then with the malformed value of the first such field |
| `FormBodyProcessing.BuildObjectEntries` | vertx-web-validation/src/main/java/io/vertx/ext/web/validation/impl/body/FormBodyProcessorImpl.java:41-46 | a completed loop's object holds exactly the keys of the non-null parsed entries, each with the value of the last field yielding it; nothing else is added |
| `FormBodyProcessing.AbortedStaysAborted` | vertx-web-validation/src/main/java/io/vertx/ext/web/validation/impl/body/FormBodyProcessorImpl.java:42-49 | once a field is malformed, the fields after it do not change the outcome |
| `FormBodyProcessing.BuildObjectOfDistinctNames` | vertx-web-validation/src/main/java/io/vertx/ext/web/validation/impl/body/FormBodyProcessorImpl.java:42-45 | with distinct form names and a key-preserving parseField, the object is keyed by form names only, and each non-null field's value sits under its own name |
| `FormBodyProcessing.ProcessOutcome` | vertx-web-validation/src/main/java/io/vertx/ext/web/validation/impl/body/FormBodyProcessorImpl.java:37-53 | the result of `process`: a parsing error is tagged with the raw Content-Type header, a validation error with the parsed content type, and a success is the validator's own result on the built object |
| `FormBodyProcessing.Process` | vertx-web-validation/src/main/java/io/vertx/ext/web/validation/impl/body/FormBodyProcessorImpl.java:37-53 | the loop with its map variable and the single validate call give exactly the result of building the object and validating it once, with the failures mapped |
| `FormBodyProcessing.ProcessSucceeds` | vertx-web-validation/src/main/java/io/vertx/ext/web/validation/impl/body/FormBodyProcessorImpl.java:47 | processing succeeds exactly when the object is built and the validator accepts it, and it then returns the validator's result unchanged |
| `FormBodyProcessing.MalformedFieldIsParsingError` | vertx-web-validation/src/main/java/io/vertx/ext/web/validation/impl/body/FormBodyProcessorImpl.java:48-49 | a malformed value in any field gives a body parsing error carrying the Content-Type header and the malformed value of the first malformed field |
| `FormBodyProcessing.ValidatorFailureIsValidationError` | vertx-web-validation/src/main/java/io/vertx/ext/web/validation/impl/body/FormBodyProcessorImpl.java:50-51 | a schema or validation failure gives a body validation error carrying the parsed content type and that failure as cause |
| `FormBodyProcessing.ValidatedOnceOnWholeObject` | vertx-web-validation/src/main/java/io/vertx/ext/web/validation/impl/body/FormBodyProcessorImpl.java:47 | the outcome depends on the validator only at the whole built object, and not at all when a field is malformed |

## Left out

- `ParameterProcessorImpl` source is not part of this model. Its behaviour comes from the six scenarios of its unit test. The parameter parser's lookup of the raw parameters is a function-typed field, and its internals are not modelled.
- The parameter validator is modelled with two outcomes: a validated parameter or a validation exception. The test shows no schema-definition failure on this path, so the model does not say what the processor does with one.
- `ObjectParser.parseField` is a parameter of `FormBodyProcessing.Process` and is left uninterpreted. Its resolution order (exact property, pattern, additional properties), its use of `MustNullateValue` and of the additional-properties parser, and its regular-expression matching are not part of this model.
- The JSON Schema engine: validation is a function-typed field that returns an accepted parameter, a schema-definition failure or a validation failure. `JsonObject` and `JsonArray` are the `Json` datatype. Numbers are integers, because no floating point is modelled.
- The HTTP transport objects are replaced by plain values: `RoutingContext`, `formAttributes()`, `getHeader` and `parsedHeaders()`. The form is a sequence of fields in the order `names()` returns them. The raw `Content-Type` header is optional, since `getHeader` may return null. The parsed content type is a string.
- Java's `null` is modelled only as `Absent` (parser result) and `None` (default). A parser result or default that is a JSON null is `Value(JNull)` or `Some(JNull)` in the model. Neither exists in Java, where such a null is indistinguishable from "no value" (a JSON-null default gives no result there, but `Param(RequestParameter(JNull))` in the model).
- Exception messages and the exception class hierarchy are left out. Only kind, location, name, content type and cause are kept.
- Runtime exceptions other than the caught ones are not modelled. These include a null pointer from a missing parsed content type, and exceptions thrown by a parser or validator outside the declared kinds.
