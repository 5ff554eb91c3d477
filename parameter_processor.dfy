/**
 * The processor of one named request parameter: it runs the parameter's
 * parser on the request's raw parameters, handles a missing value (required
 * parameter, default value, or nothing), hands a present value to the value
 * validator, and attributes every failure to the parameter's location and
 * name together with its cause.
 */
module ParameterProcessing {
  import opened Options
  import opened Values

  /** Where in the request a parameter is taken from. */
  datatype ParameterLocation = Query | Header | Path | Cookie

  /** The kinds of failure a parameter processor reports. */
  datatype ErrorKind = MissingParameterWhenRequired | ParsingError | ValidationError

  /** The exception a failure wraps. */
  datatype Cause = MalformedCause(malformed: MalformedValue) | ValidationCause(fault: ValidationFault)

  /** A parameter processing failure: kind, location, parameter name and cause (if any). */
  datatype ParameterProcessorError =
    ParameterProcessorError(kind: ErrorKind, location: ParameterLocation, parameterName: string, cause: Option<Cause>)

  /** What a parameter parser makes of the raw parameters: no value, a value, or a malformed-value failure. */
  datatype ParseOutcome = Absent | Value(value: Json) | Malformed(malformed: MalformedValue)

  /** What the value validator makes of a value: a validated parameter or a validation failure. */
  datatype ValidateOutcome = Validated(param: RequestParameter) | Invalid(fault: ValidationFault)

  /** The raw parameters of one location: each name with all the values it was given. */
  type RawParameters = map<string, seq<string>>

  /** The value validator of a parameter: its validation and its default value (None for null). */
  datatype ValueValidator = ValueValidator(validate: Json -> ValidateOutcome, default: Option<Json>)

  /**
   * A processor for one parameter. The third argument is `isOptional`:
   * `false` means the parameter is required.
   */
  datatype ParameterProcessor = ParameterProcessor(
    parameterName: string,
    location: ParameterLocation,
    isOptional: bool,
    parseParameter: RawParameters -> ParseOutcome,
    validator: ValueValidator)

  /** The outcome of processing: a parameter, no result (null), or a failure. */
  datatype ProcessResult = Param(param: RequestParameter) | NoResult | Failed(error: ParameterProcessorError)

  /** The failure of kind `kind` attributed to the processor `pp`. */
  function ErrorOf(pp: ParameterProcessor, kind: ErrorKind, cause: Option<Cause>): (e: ParameterProcessorError) {
    ParameterProcessorError(kind, pp.location, pp.parameterName, cause)
  }

  /**
   * Processing of one parameter. Every failure is attributed to the
   * processor's location and name, and it carries a cause exactly when it is
   * not the missing-required failure.
   */
  function Process(pp: ParameterProcessor, params: RawParameters): (r: ProcessResult)
    ensures r.Failed? ==> r.error.location == pp.location && r.error.parameterName == pp.parameterName
    ensures r.Failed? ==> (r.error.cause.None? <==> r.error.kind == MissingParameterWhenRequired)
    ensures r.Failed? && r.error.kind == MissingParameterWhenRequired ==> !pp.isOptional
    ensures r.NoResult? ==> pp.isOptional && pp.validator.default.None?
  {
    match pp.parseParameter(params)
    case Malformed(m) => Failed(ErrorOf(pp, ParsingError, Some(MalformedCause(m))))
    case Absent =>
      if !pp.isOptional then
        Failed(ErrorOf(pp, MissingParameterWhenRequired, None))
      else
        (match pp.validator.default
         case None => NoResult
         case Some(d) => Param(RequestParameter(d)))
    case Value(v) =>
      match pp.validator.validate(v)
      case Validated(p) => Param(p)
      case Invalid(e) => Failed(ErrorOf(pp, ValidationError, Some(ValidationCause(e))))
  }

  // ---------------------------------------------------------------------
  // The six scenarios, each stated for all processors and inputs that match it.

  /** A required parameter whose parser yields no value fails as missing, with no cause. */
  lemma RequiredAbsentIsMissing(pp: ParameterProcessor, params: RawParameters)
    requires !pp.isOptional && pp.parseParameter(params).Absent?
    ensures Process(pp, params) == Failed(ParameterProcessorError(MissingParameterWhenRequired, pp.location, pp.parameterName, None))
  {
  }

  /** An optional parameter with no value and no default yields no result, and no error. */
  lemma OptionalAbsentWithoutDefaultIsNoResult(pp: ParameterProcessor, params: RawParameters)
    requires pp.isOptional && pp.parseParameter(params).Absent? && pp.validator.default.None?
    ensures Process(pp, params) == NoResult
  {
  }

  /** An optional parameter with no value and a default yields the default itself, wrapped. */
  lemma OptionalAbsentWithDefaultIsDefault(pp: ParameterProcessor, params: RawParameters, d: Json)
    requires pp.isOptional && pp.parseParameter(params).Absent? && pp.validator.default == Some(d)
    ensures Process(pp, params) == Param(RequestParameter(d))
  {
  }

  /** A malformed value is a parsing error whose cause is that malformed value, required or not. */
  lemma MalformedIsParsingError(pp: ParameterProcessor, params: RawParameters, m: MalformedValue)
    requires pp.parseParameter(params) == Malformed(m)
    ensures Process(pp, params) == Failed(ParameterProcessorError(ParsingError, pp.location, pp.parameterName, Some(MalformedCause(m))))
  {
  }

  /** A value the validator accepts yields exactly the validator's parameter. */
  lemma AcceptedValueIsValidatorResult(pp: ParameterProcessor, params: RawParameters, v: Json, p: RequestParameter)
    requires pp.parseParameter(params) == Value(v) && pp.validator.validate(v) == Validated(p)
    ensures Process(pp, params) == Param(p)
  {
  }

  /** A value the validator rejects is a validation error whose cause is the validator's exception. */
  lemma RejectedValueIsValidationError(pp: ParameterProcessor, params: RawParameters, v: Json, e: ValidationFault)
    requires pp.parseParameter(params) == Value(v) && pp.validator.validate(v) == Invalid(e)
    ensures Process(pp, params) == Failed(ParameterProcessorError(ValidationError, pp.location, pp.parameterName, Some(ValidationCause(e))))
  {
  }

  // ---------------------------------------------------------------------
  // Which collaborator decides the outcome.

  /**
   * The validator's `validate` is consulted only on a parsed value, and only
   * on that value: two validators that agree there (and share the default)
   * give the same outcome. In particular a default is never validated.
   */
  lemma ValidateConsultedOnlyOnParsedValue(pp: ParameterProcessor, params: RawParameters, validate': Json -> ValidateOutcome)
    requires pp.parseParameter(params).Value? ==> validate'(pp.parseParameter(params).value) == pp.validator.validate(pp.parseParameter(params).value)
    ensures Process(pp.(validator := pp.validator.(validate := validate')), params) == Process(pp, params)
  {
  }

  /** The default is consulted only for an optional parameter whose parser yields no value. */
  lemma DefaultConsultedOnlyWhenOptionalAndAbsent(pp: ParameterProcessor, params: RawParameters, default': Option<Json>)
    requires !(pp.isOptional && pp.parseParameter(params).Absent?)
    ensures Process(pp.(validator := pp.validator.(default := default')), params) == Process(pp, params)
  {
  }

  // ---------------------------------------------------------------------
  // The unit test's scenarios, on its own values: parameter "myParam" in the
  // query, mocked parser and validator.

  /** testRequiredParam */
  lemma ScenarioRequiredParam(validator: ValueValidator, params: RawParameters)
    ensures Process(ParameterProcessor("myParam", Query, false, _ => Absent, validator), params)
         == Failed(ParameterProcessorError(MissingParameterWhenRequired, Query, "myParam", None))
  {
  }

  /** testOptionalParam */
  lemma ScenarioOptionalParam(validate: Json -> ValidateOutcome, params: RawParameters)
    ensures Process(ParameterProcessor("myParam", Query, true, _ => Absent, ValueValidator(validate, None)), params) == NoResult
  {
  }

  /** testOptionalParamWithDefault */
  lemma ScenarioOptionalParamWithDefault(validate: Json -> ValidateOutcome, params: RawParameters)
    ensures var r := Process(ParameterProcessor("myParam", Query, true, _ => Absent, ValueValidator(validate, Some(JString("bla")))), params);
      r.Param? && r.param.IsString() && r.param.GetString() == "bla"
  {
  }

  /** testParsingFailure */
  lemma ScenarioParsingFailure(validator: ValueValidator, params: RawParameters)
    ensures Process(ParameterProcessor("myParam", Query, false, _ => Malformed(MalformedValue("bla")), validator), params)
         == Failed(ParameterProcessorError(ParsingError, Query, "myParam", Some(MalformedCause(MalformedValue("bla")))))
  {
  }

  /** testValidation */
  lemma ScenarioValidation(default: Option<Json>, params: RawParameters)
    ensures var r := Process(ParameterProcessor("myParam", Query, true, _ => Value(JString("aaa")),
                                                ValueValidator(_ => Validated(RequestParameter(JString("aaa"))), default)), params);
      r.Param? && r.param.IsString() && r.param.GetString() == "aaa"
  {
  }

  /** testValidationFailure */
  lemma ScenarioValidationFailure(default: Option<Json>, params: RawParameters)
    ensures Process(ParameterProcessor("myParam", Query, true, _ => Value(JString("aaa")),
                                       ValueValidator(_ => Invalid(ValidationFault("aaa")), default)), params)
         == Failed(ParameterProcessorError(ValidationError, Query, "myParam", Some(ValidationCause(ValidationFault("aaa")))))
  {
  }
}
