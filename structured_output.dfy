/**
 * Structured output (harness/structured_output.rs): the JSON value a run produced is taken from
 * its content, or failing that from its fallback text, and checked against the requested
 * schema. The JSON parser and the schema validator are outside the model: the parser is a
 * function on trimmed text, and the validator's verdict for a (schema, value) pair is a
 * `SchemaVerdict`.
 */
module StructuredOutput {
  import opened Wrappers
  import opened Text
  import Json

  /** What the schema library says: the schema does not compile, or the list of violations. */
  datatype SchemaVerdict = CompileFailed(message: string) | Checked(errors: seq<string>)

  /** `StructuredOutputValidationResult`. */
  datatype Validation = Validation(value: Option<Json.Value>, error: Option<string>, errors: seq<string>)

  const MISSING_MESSAGE := "Structured output is missing or invalid JSON."
  const MISMATCH_MESSAGE := "Structured output did not match schema."
  const COMPILE_PREFIX := "Failed to validate structured output schema: "

  /** `parse_json_value`: blank text is no value; otherwise the parser reads the trimmed text. */
  function ParseJsonValue(raw: string, parse: string -> Option<Json.Value>): (r: Option<Json.Value>)
    ensures IsBlank(raw) ==> r.None?
    ensures !IsBlank(raw) ==> r == parse(Trim(raw))
  {
    var trimmed := Trim(raw);
    if trimmed == [] then None else parse(trimmed)
  }

  /** `content.and_then(parse_json_value)`. */
  function ParseOptional(text: Option<string>, parse: string -> Option<Json.Value>): Option<Json.Value>
  {
    match text
    case Some(t) => ParseJsonValue(t, parse)
    case None => None
  }

  /** `resolve_structured_output`: the content's value when it has one, else the fallback's. */
  function ResolveStructuredOutput(content: Option<string>, fallbackText: Option<string>,
                                   parse: string -> Option<Json.Value>): (r: Option<Json.Value>)
    ensures ParseOptional(content, parse).Some? ==> r == ParseOptional(content, parse)
    ensures ParseOptional(content, parse).None? ==> r == ParseOptional(fallbackText, parse)
    ensures r.Some? ==> r == ParseOptional(content, parse) || r == ParseOptional(fallbackText, parse)
  {
    var primary := ParseOptional(content, parse);
    if primary.Some? then primary else ParseOptional(fallbackText, parse)
  }

  /**
   * `validate_structured_output`: a value is always handed back as it came; the error is set
   * when a schema was asked for and the value is missing, the schema does not compile, or the
   * value violates it; the violations are listed only in the last case.
   */
  function ValidateStructuredOutput(value: Option<Json.Value>, schema: Option<Json.Value>,
                                    check: (Json.Value, Json.Value) -> SchemaVerdict): (r: Validation)
    ensures r.value == value
    ensures value.None? ==> r.errors == [] && (r.error.Some? <==> schema.Some?)
    ensures value.None? && schema.Some? ==> r.error == Some(MISSING_MESSAGE)
    ensures value.Some? && schema.None? ==> r.error.None? && r.errors == []
    ensures value.Some? && schema.Some? ==>
              var verdict := check(schema.value, value.value);
              && (r.error.Some? <==> (verdict.CompileFailed? || verdict.errors != []))
              && (verdict.CompileFailed? ==> r.errors == [] && r.error == Some(COMPILE_PREFIX + verdict.message))
              && (verdict.Checked? ==> r.errors == verdict.errors)
              && (verdict.Checked? && verdict.errors != [] ==> r.error == Some(MISMATCH_MESSAGE))
  {
    match value
    case None =>
      if schema.Some? then Validation(None, Some(MISSING_MESSAGE), []) else Validation(None, None, [])
    case Some(v) =>
      match schema
      case None => Validation(Some(v), None, [])
      case Some(s) =>
        match check(s, v)
        case CompileFailed(message) => Validation(Some(v), Some(COMPILE_PREFIX + message), [])
        case Checked(errors) =>
          if errors == [] then Validation(Some(v), None, errors)
          else Validation(Some(v), Some(MISMATCH_MESSAGE), errors)
  }

  /**
   * Resolving then validating: with no schema there is never an error; with one, the run is
   * accepted exactly when some text parsed and the validator found nothing wrong with it.
   */
  lemma ResolvedValidation(content: Option<string>, fallbackText: Option<string>, schema: Option<Json.Value>,
                           parse: string -> Option<Json.Value>, check: (Json.Value, Json.Value) -> SchemaVerdict)
    ensures var v := ResolveStructuredOutput(content, fallbackText, parse);
            var r := ValidateStructuredOutput(v, schema, check);
            && (schema.None? ==> r.error.None?)
            && (schema.Some? ==>
                  (r.error.None? <==> v.Some? && check(schema.value, v.value) == Checked([])))
  {
  }

  /** Blank content falls through to the fallback text, which is then the only source. */
  lemma BlankContentUsesFallback(content: string, fallbackText: Option<string>, parse: string -> Option<Json.Value>)
    requires IsBlank(content)
    ensures ResolveStructuredOutput(Some(content), fallbackText, parse) == ParseOptional(fallbackText, parse)
  {
  }
}
