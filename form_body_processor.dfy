/**
 * The body processor for form-encoded request bodies. It is selected by a
 * substring match on the request's content type; it turns every form field
 * into an entry of one object through the object parser's `parseField`,
 * validates that whole object once, and maps the two failure families
 * (a malformed field, a schema or validation failure) to body processing
 * errors.
 */
module FormBodyProcessing {
  import opened Options
  import opened Values

  /** What a value parser makes of the raw values of one field. */
  datatype ValueParse = Parsed(value: Json) | ParseFailed(malformed: MalformedValue)

  /** A value parser over the list of raw strings given for one form field. */
  type ValueParser = seq<string> -> ValueParse

  /** What the object parser's `parseField` yields for one key: nothing (null), an entry, or a malformed value. */
  datatype FieldOutcome = NoEntry | Entry(key: string, value: Json) | FieldMalformed(malformed: MalformedValue)

  /** The object parser's `parseField`, whose resolution of parsers is not part of this model. */
  type FieldParser = (string, seq<string>) -> FieldOutcome

  /** What the value validator makes of the whole form object. */
  datatype ValidationOutcome =
    | Valid(param: RequestParameter)
    | SchemaFailure(schemaFault: SchemaFault)
    | ValidationFailure(validationFault: ValidationFault)

  /** The schema engine's exception a body validation error wraps. */
  datatype BodyCause = SchemaCause(schemaFault: SchemaFault) | ValidationCause(validationFault: ValidationFault)

  /** A body processing failure, tagged with a content type and carrying its cause. */
  datatype BodyProcessorError =
    | BodyParsingError(headerContentType: Option<string>, malformed: MalformedValue)
    | BodyValidationError(contentType: string, cause: BodyCause)

  /** The outcome of processing a body. */
  datatype BodyResult = Body(param: RequestParameter) | BodyFailed(error: BodyProcessorError)

  /** One form attribute: a name and all the values it was given. */
  datatype FormField = FormField(name: string, values: seq<string>)

  /**
   * What the processor reads from the request: the form attributes in the
   * order their names are visited, the raw Content-Type header (None when
   * the header is missing) and the value of the parsed content type.
   */
  datatype FormRequest = FormRequest(formAttributes: seq<FormField>, contentTypeHeader: Option<string>, parsedContentType: string)

  /** A form body processor: its content-type token, additional-properties parser (None for null) and validator. */
  datatype FormBodyProcessor = FormBodyProcessor(
    contentType: string,
    additionalPropertiesParser: Option<ValueParser>,
    validate: Json -> ValidationOutcome)

  // ---------------------------------------------------------------------
  // Content-type matching

  /** `t` occurs in `s` at position `i`. */
  ghost predicate OccursAt(s: string, t: string, i: nat) {
    i + |t| <= |s| && s[i..i + |t|] == t
  }

  /** Substring containment, as Java's String.contains: the empty string is contained everywhere. */
  function Contains(s: string, t: string): (r: bool)
    ensures r <==> exists i: nat :: OccursAt(s, t, i)
    decreases |s|
  {
    if |t| <= |s| && s[..|t|] == t then
      assert OccursAt(s, t, 0);
      true
    else if |s| == 0 then
      false
    else
      ShiftOccurrences(s, t);
      Contains(s[1..], t)
  }

  /** Past a non-match at position 0, the occurrences of `t` in `s` are those in `s[1..]`, shifted by one. */
  lemma ShiftOccurrences(s: string, t: string)
    requires |s| > 0 && !OccursAt(s, t, 0)
    ensures (exists i: nat :: OccursAt(s, t, i)) <==> (exists j: nat :: OccursAt(s[1..], t, j))
  {
    forall i: nat | OccursAt(s, t, i)
      ensures i > 0 && OccursAt(s[1..], t, i - 1)
    {
      assert s[1..][i - 1..i - 1 + |t|] == s[i..i + |t|];
    }
    forall j: nat | OccursAt(s[1..], t, j)
      ensures OccursAt(s, t, j + 1)
    {
      assert s[1..][j..j + |t|] == s[j + 1..j + 1 + |t|];
    }
  }

  /** The processor handles a request whose content type contains its configured token. */
  function CanProcess(fp: FormBodyProcessor, contentType: string): (r: bool)
    ensures r <==> exists i: nat :: OccursAt(contentType, fp.contentType, i)
  {
    Contains(contentType, fp.contentType)
  }

  /** The configured content type itself is accepted. */
  lemma CanProcessOwnContentType(fp: FormBodyProcessor)
    ensures CanProcess(fp, fp.contentType)
  {
    assert OccursAt(fp.contentType, fp.contentType, 0);
  }

  /** Text appended to an accepted content type (such as a charset parameter) keeps it accepted. */
  lemma CanProcessWithSuffix(fp: FormBodyProcessor, contentType: string, suffix: string)
    requires CanProcess(fp, contentType)
    ensures CanProcess(fp, contentType + suffix)
  {
    var t := fp.contentType;
    var i: nat :| OccursAt(contentType, t, i);
    assert (contentType + suffix)[i..i + |t|] == contentType[i..i + |t|];
    assert OccursAt(contentType + suffix, t, i);
  }

  /** Text prepended to an accepted content type keeps it accepted. */
  lemma CanProcessWithPrefix(fp: FormBodyProcessor, prefix: string, contentType: string)
    requires CanProcess(fp, contentType)
    ensures CanProcess(fp, prefix + contentType)
  {
    var t := fp.contentType;
    var i: nat :| OccursAt(contentType, t, i);
    assert (prefix + contentType)[|prefix| + i..|prefix| + i + |t|] == contentType[i..i + |t|];
    assert OccursAt(prefix + contentType, t, |prefix| + i);
  }

  /** A content type shorter than the token is never accepted. */
  lemma ShorterContentTypeIsRejected(fp: FormBodyProcessor, contentType: string)
    requires |contentType| < |fp.contentType|
    ensures !CanProcess(fp, contentType)
  {
  }

  // ---------------------------------------------------------------------
  // Object-parser hooks overridden by the form body processor

  /** A field is nullated when its value list is null or empty, whatever its parser. */
  function MustNullateValue(serialized: Option<seq<string>>, parser: ValueParser): (r: bool)
    ensures r <==> serialized == None || serialized == Some([])
  {
    serialized.None? || |serialized.value| == 0
  }

  /** The parser argument plays no part in nullation. */
  lemma MustNullateValueIgnoresParser(serialized: Option<seq<string>>, p: ValueParser, p': ValueParser)
    ensures MustNullateValue(serialized, p) == MustNullateValue(serialized, p')
  {
  }

  /** The raw strings of a field as a JSON array of strings, in order. */
  function StringArray(raw: seq<string>): (items: seq<Json>)
    ensures |items| == |raw|
    ensures forall i :: 0 <= i < |raw| ==> items[i] == JString(raw[i])
  {
    if raw == [] then [] else [JString(raw[0])] + StringArray(raw[1..])
  }

  /** The strings of a JSON array whose items are all strings, or None. */
  function ArrayStrings(items: seq<Json>): (r: Option<seq<string>>) {
    if items == [] then Some([])
    else if !items[0].JString? then None
    else
      match ArrayStrings(items[1..])
      case None => None
      case Some(rest) => Some([items[0].s] + rest)
  }

  /**
   * The fallback parser for additional properties: wraps the raw list as an
   * array. It never fails, and the array holds exactly the raw strings.
   */
  function WrapAsArray(raw: seq<string>): (r: ValueParse)
    ensures r.Parsed? && r.value.JArray? && ArrayStrings(r.value.items) == Some(raw)
  {
    StringArrayRoundTrip(raw);
    Parsed(JArray(StringArray(raw)))
  }

  /** The additional-properties parser: the configured one when present, otherwise the array-wrapping fallback. */
  function GetAdditionalPropertiesParserIfRequired(fp: FormBodyProcessor): (p: ValueParser)
    ensures fp.additionalPropertiesParser.Some? ==> forall raw :: p(raw) == fp.additionalPropertiesParser.value(raw)
    ensures fp.additionalPropertiesParser.None? ==>
      forall raw :: p(raw).Parsed? && p(raw).value.JArray? && ArrayStrings(p(raw).value.items) == Some(raw)
  {
    if fp.additionalPropertiesParser.Some? then
      fp.additionalPropertiesParser.value
    else
      WrapAsArray
  }

  /** Wrapping a value list as an array loses nothing: every value, in order, comes back out. */
  lemma {:induction false} StringArrayRoundTrip(raw: seq<string>)
    ensures ArrayStrings(StringArray(raw)) == Some(raw)
    decreases |raw|
  {
    if raw != [] {
      StringArrayRoundTrip(raw[1..]);
      assert StringArray(raw)[1..] == StringArray(raw[1..]);
      assert StringArray(raw)[0] == JString(raw[0]);
      assert [raw[0]] + raw[1..] == raw;
    }
  }

  // ---------------------------------------------------------------------
  // Building the form object

  /** The outcome of the key loop: the object built, or the first malformed value met. */
  datatype BuildOutcome = Built(entries: map<string, Json>) | Aborted(malformed: MalformedValue)

  /**
   * The key loop as a function of the fields visited: each field is parsed
   * in turn, a non-null entry is put into the object (a later put of the
   * same key replaces the earlier one), and a malformed value stops the loop.
   * An abort always carries the malformed value of some field.
   */
  function BuildObject(form: seq<FormField>, parseField: FieldParser): (r: BuildOutcome)
    ensures r.Aborted? ==> exists i: nat :: MalformedAt(form, parseField, i) && FieldAt(form, parseField, i).malformed == r.malformed
    decreases |form|
  {
    if form == [] then Built(map[])
    else
      var last := form[|form| - 1];
      PrefixFields(form, parseField, |form| - 1);
      match BuildObject(form[..|form| - 1], parseField)
      case Aborted(m) => Aborted(m)
      case Built(obj) =>
        match parseField(last.name, last.values)
        case NoEntry => Built(obj)
        case Entry(k, v) => Built(obj[k := v])
        case FieldMalformed(m) =>
          assert MalformedAt(form, parseField, |form| - 1);
          Aborted(m)
  }

  /** What `parseField` yields for the `i`-th field. */
  function FieldAt(form: seq<FormField>, parseField: FieldParser, i: nat): (r: FieldOutcome)
    requires i < |form|
  {
    parseField(form[i].name, form[i].values)
  }

  /** The `i`-th field yields an entry with key `k`. */
  ghost predicate ProducesKey(form: seq<FormField>, parseField: FieldParser, i: nat, k: string) {
    i < |form| && FieldAt(form, parseField, i).Entry? && FieldAt(form, parseField, i).key == k
  }

  /** The `i`-th field is the last one that yields an entry with key `k`. */
  ghost predicate LastProducer(form: seq<FormField>, parseField: FieldParser, i: nat, k: string) {
    ProducesKey(form, parseField, i, k) && forall j: nat :: i < j ==> !ProducesKey(form, parseField, j, k)
  }

  /** The `i`-th field yields a malformed value. */
  ghost predicate MalformedAt(form: seq<FormField>, parseField: FieldParser, i: nat) {
    i < |form| && FieldAt(form, parseField, i).FieldMalformed?
  }

  /** The `i`-th field is the first one that yields a malformed value. */
  ghost predicate FirstMalformed(form: seq<FormField>, parseField: FieldParser, i: nat) {
    MalformedAt(form, parseField, i) && forall j: nat :: j < i ==> !MalformedAt(form, parseField, j)
  }

  /** Facts about a field of a prefix are facts about the field of the whole form. */
  lemma PrefixFields(form: seq<FormField>, parseField: FieldParser, n: nat)
    requires n <= |form|
    ensures forall i :: 0 <= i < n ==> FieldAt(form[..n], parseField, i) == FieldAt(form, parseField, i)
  {
  }

  /**
   * The loop aborts exactly when some field yields a malformed value, and
   * then with the value of the first such field.
   */
  lemma {:induction false} BuildObjectAborts(form: seq<FormField>, parseField: FieldParser)
    ensures BuildObject(form, parseField).Aborted? <==> exists i: nat :: MalformedAt(form, parseField, i)
    ensures BuildObject(form, parseField).Aborted? ==>
      exists i: nat :: FirstMalformed(form, parseField, i)
        && FieldAt(form, parseField, i).malformed == BuildObject(form, parseField).malformed
    decreases |form|
  {
    if form != [] {
      var n := |form| - 1;
      var init := form[..n];
      BuildObjectAborts(init, parseField);
      PrefixFields(form, parseField, n);
      if BuildObject(init, parseField).Aborted? {
        var i: nat :| FirstMalformed(init, parseField, i)
          && FieldAt(init, parseField, i).malformed == BuildObject(init, parseField).malformed;
        forall j: nat | j < i ensures !MalformedAt(form, parseField, j) {
          assert MalformedAt(form, parseField, j) == MalformedAt(init, parseField, j);
        }
        assert FirstMalformed(form, parseField, i);
      } else {
        assert forall i: nat :: i < n ==> !MalformedAt(form, parseField, i) by {
          forall i: nat | i < n ensures !MalformedAt(form, parseField, i) {
            assert MalformedAt(form, parseField, i) == MalformedAt(init, parseField, i);
          }
        }
        if FieldAt(form, parseField, n).FieldMalformed? {
          assert FirstMalformed(form, parseField, n);
        }
      }
    }
  }

  /**
   * When the loop completes, the object holds exactly the keys of the
   * entries the fields yield, and each key holds the value of the last field
   * that yields it: nothing is added beyond the parsed entries.
   */
  lemma BuildObjectEntries(form: seq<FormField>, parseField: FieldParser)
    requires BuildObject(form, parseField).Built?
    ensures forall k :: k in BuildObject(form, parseField).entries <==> exists i: nat :: ProducesKey(form, parseField, i, k)
    ensures forall k :: k in BuildObject(form, parseField).entries ==>
      exists i: nat :: LastProducer(form, parseField, i, k)
        && BuildObject(form, parseField).entries[k] == FieldAt(form, parseField, i).value
  {
    forall k: string
      ensures k in BuildObject(form, parseField).entries <==> exists i: nat :: ProducesKey(form, parseField, i, k)
      ensures k in BuildObject(form, parseField).entries ==>
        exists i: nat :: LastProducer(form, parseField, i, k)
          && BuildObject(form, parseField).entries[k] == FieldAt(form, parseField, i).value
    {
      BuildObjectEntryAt(form, parseField, k);
    }
  }

  /** BuildObjectEntries for one key `k`, proved by induction on the fields. */
  lemma {:induction false} BuildObjectEntryAt(form: seq<FormField>, parseField: FieldParser, k: string)
    requires BuildObject(form, parseField).Built?
    ensures k in BuildObject(form, parseField).entries <==> exists i: nat :: ProducesKey(form, parseField, i, k)
    ensures k in BuildObject(form, parseField).entries ==>
      exists i: nat :: LastProducer(form, parseField, i, k)
        && BuildObject(form, parseField).entries[k] == FieldAt(form, parseField, i).value
    decreases |form|
  {
    if form != [] {
      var n := |form| - 1;
      var init := form[..n];
      BuildObjectEntryAt(init, parseField, k);
      PrefixFields(form, parseField, n);
      var obj := BuildObject(init, parseField).entries;
      var obj' := BuildObject(form, parseField).entries;
      var last := FieldAt(form, parseField, n);
      if last.Entry? && last.key == k {
        assert obj'[k] == last.value;
        assert LastProducer(form, parseField, n, k);
      } else {
        assert obj' == obj || (last.Entry? && obj' == obj[last.key := last.value]);
        forall i: nat | ProducesKey(form, parseField, i, k)
          ensures ProducesKey(init, parseField, i, k)
        {
        }
        if k in obj {
          var i: nat :| LastProducer(init, parseField, i, k) && obj[k] == FieldAt(init, parseField, i).value;
          forall j: nat | i < j
            ensures !ProducesKey(form, parseField, j, k)
          {
            if j < n {
              assert !ProducesKey(init, parseField, j, k);
            }
          }
          assert LastProducer(form, parseField, i, k);
        }
      }
    }
  }

  /** Once the loop has aborted on a prefix of the fields, the remaining fields change nothing. */
  lemma {:induction false} AbortedStaysAborted(form: seq<FormField>, parseField: FieldParser, n: nat)
    requires n <= |form| && BuildObject(form[..n], parseField).Aborted?
    ensures BuildObject(form, parseField) == BuildObject(form[..n], parseField)
    decreases |form| - n
  {
    if n == |form| {
      assert form[..n] == form;
    } else {
      var init := form[..|form| - 1];
      assert init[..n] == form[..n];
      AbortedStaysAborted(init, parseField, n);
    }
  }

  /**
   * When `parseField` keeps each key and the form's names are distinct, the
   * object is keyed by form names only, and each field's entry is found under
   * its own name.
   */
  lemma {:induction false} BuildObjectOfDistinctNames(form: seq<FormField>, parseField: FieldParser)
    requires BuildObject(form, parseField).Built?
    requires forall i, j :: 0 <= i < j < |form| ==> form[i].name != form[j].name
    requires forall i :: 0 <= i < |form| && FieldAt(form, parseField, i).Entry? ==> FieldAt(form, parseField, i).key == form[i].name
    ensures forall k :: k in BuildObject(form, parseField).entries ==> exists i :: 0 <= i < |form| && form[i].name == k
    ensures forall i :: 0 <= i < |form| && FieldAt(form, parseField, i).Entry? ==>
      form[i].name in BuildObject(form, parseField).entries
        && BuildObject(form, parseField).entries[form[i].name] == FieldAt(form, parseField, i).value
  {
    BuildObjectEntries(form, parseField);
    var obj := BuildObject(form, parseField).entries;
    forall i | 0 <= i < |form| && FieldAt(form, parseField, i).Entry?
      ensures form[i].name in obj && obj[form[i].name] == FieldAt(form, parseField, i).value
    {
      var k := form[i].name;
      assert ProducesKey(form, parseField, i, k);
      var i': nat :| LastProducer(form, parseField, i', k) && obj[k] == FieldAt(form, parseField, i').value;
      assert form[i'].name == k;
    }
    forall k | k in obj
      ensures exists i :: 0 <= i < |form| && form[i].name == k
    {
      var i: nat :| ProducesKey(form, parseField, i, k);
      assert form[i].name == k;
    }
  }

  // ---------------------------------------------------------------------
  // Processing a form body

  /**
   * The outcome of processing: build the object, then validate it once and
   * map the failures. A parsing error is tagged with the raw Content-Type
   * header, a validation error with the parsed content type, and a success
   * is the validator's own result on the built object.
   */
  function ProcessOutcome(fp: FormBodyProcessor, request: FormRequest, parseField: FieldParser): (r: BodyResult)
    ensures r.BodyFailed? && r.error.BodyParsingError? ==> r.error.headerContentType == request.contentTypeHeader
    ensures r.BodyFailed? && r.error.BodyValidationError? ==> r.error.contentType == request.parsedContentType
    ensures r.Body? ==>
      BuildObject(request.formAttributes, parseField).Built?
        && fp.validate(JObject(BuildObject(request.formAttributes, parseField).entries)) == Valid(r.param)
  {
    match BuildObject(request.formAttributes, parseField)
    case Aborted(m) => BodyFailed(BodyParsingError(request.contentTypeHeader, m))
    case Built(obj) =>
      match fp.validate(JObject(obj))
      case Valid(p) => Body(p)
      case SchemaFailure(e) => BodyFailed(BodyValidationError(request.parsedContentType, SchemaCause(e)))
      case ValidationFailure(e) => BodyFailed(BodyValidationError(request.parsedContentType, ValidationCause(e)))
  }

  /**
   * Processes a form body: loops over the form's fields, puts every
   * non-null parsed entry into one object, and validates the object once.
   */
  method Process(fp: FormBodyProcessor, request: FormRequest, parseField: FieldParser) returns (r: BodyResult)
    ensures r == ProcessOutcome(fp, request, parseField)
  {
    var form := request.formAttributes;
    var formObject: map<string, Json> := map[];
    var i := 0;
    while i < |form|
      invariant 0 <= i <= |form|
      invariant BuildObject(form[..i], parseField) == Built(formObject)
    {
      var field := form[i];
      var parsed := parseField(field.name, field.values);
      assert form[..i + 1][..i] == form[..i];
      match parsed {
        case FieldMalformed(m) =>
          AbortedStaysAborted(form, parseField, i + 1);
          return BodyFailed(BodyParsingError(request.contentTypeHeader, m));
        case NoEntry =>
        case Entry(k, v) =>
          formObject := formObject[k := v];
      }
      i := i + 1;
    }
    assert form[..i] == form;
    var outcome := fp.validate(JObject(formObject));
    match outcome {
      case Valid(p) =>
        r := Body(p);
      case SchemaFailure(e) =>
        r := BodyFailed(BodyValidationError(request.parsedContentType, SchemaCause(e)));
      case ValidationFailure(e) =>
        r := BodyFailed(BodyValidationError(request.parsedContentType, ValidationCause(e)));
    }
  }

  // ---------------------------------------------------------------------
  // Properties of processing

  /**
   * Success: exactly when no field is malformed and the validator accepts
   * the built object; the result is then the validator's own.
   */
  lemma ProcessSucceeds(fp: FormBodyProcessor, request: FormRequest, parseField: FieldParser)
    ensures ProcessOutcome(fp, request, parseField).Body? <==>
      BuildObject(request.formAttributes, parseField).Built?
        && fp.validate(JObject(BuildObject(request.formAttributes, parseField).entries)).Valid?
    ensures ProcessOutcome(fp, request, parseField).Body? ==>
      BuildObject(request.formAttributes, parseField).Built? &&
      ProcessOutcome(fp, request, parseField).param == fp.validate(JObject(BuildObject(request.formAttributes, parseField).entries)).param
  {
  }

  /**
   * A malformed value in any field aborts processing before validation: the
   * result is a parsing error tagged with the Content-Type header, whose
   * cause is the malformed value of the first malformed field.
   */
  lemma MalformedFieldIsParsingError(fp: FormBodyProcessor, request: FormRequest, parseField: FieldParser, i: nat)
    requires MalformedAt(request.formAttributes, parseField, i)
    ensures var r := ProcessOutcome(fp, request, parseField);
      r.BodyFailed? && r.error.BodyParsingError? && r.error.headerContentType == request.contentTypeHeader
        && exists j: nat :: j <= i && FirstMalformed(request.formAttributes, parseField, j)
             && r.error.malformed == FieldAt(request.formAttributes, parseField, j).malformed
  {
    BuildObjectAborts(request.formAttributes, parseField);
    var j: nat :| FirstMalformed(request.formAttributes, parseField, j)
      && FieldAt(request.formAttributes, parseField, j).malformed == BuildObject(request.formAttributes, parseField).malformed;
    assert j <= i;
  }

  /** A schema or validation failure of the validator is a body validation error with that failure as cause. */
  lemma ValidatorFailureIsValidationError(fp: FormBodyProcessor, request: FormRequest, parseField: FieldParser)
    requires BuildObject(request.formAttributes, parseField).Built?
    requires !fp.validate(JObject(BuildObject(request.formAttributes, parseField).entries)).Valid?
    ensures var outcome := fp.validate(JObject(BuildObject(request.formAttributes, parseField).entries));
      var r := ProcessOutcome(fp, request, parseField);
      r.BodyFailed? && r.error.BodyValidationError? && r.error.contentType == request.parsedContentType
        && (outcome.SchemaFailure? ==> r.error.cause == SchemaCause(outcome.schemaFault))
        && (outcome.ValidationFailure? ==> r.error.cause == ValidationCause(outcome.validationFault))
  {
  }

  /**
   * The validator is consulted once, on the whole object and nothing else:
   * two validators that agree on the built object give the same outcome, and
   * when a field is malformed the validator is not consulted at all.
   */
  lemma ValidatedOnceOnWholeObject(fp: FormBodyProcessor, request: FormRequest, parseField: FieldParser, validate': Json -> ValidationOutcome)
    requires BuildObject(request.formAttributes, parseField).Built? ==>
      validate'(JObject(BuildObject(request.formAttributes, parseField).entries))
        == fp.validate(JObject(BuildObject(request.formAttributes, parseField).entries))
    ensures ProcessOutcome(fp.(validate := validate'), request, parseField) == ProcessOutcome(fp, request, parseField)
  {
  }
}
