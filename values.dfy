/**
 * The values that flow through the validation pipeline: parsed JSON-like
 * values, the validated RequestParameter handed to request handlers, and the
 * exceptions raised by parsers and by the schema engine, kept as opaque
 * values that carry only their message.
 */
module Values {

  /** A parsed, typed value (string, number, boolean, array, object or null). */
  datatype Json =
    | JNull
    | JBool(b: bool)
    | JNumber(n: int)
    | JString(s: string)
    | JArray(items: seq<Json>)
    | JObject(fields: map<string, Json>)

  /** A validated parameter or body: an immutable wrapper around a value. */
  datatype RequestParameter = RequestParameter(value: Json)
  {
    predicate IsString() { value.JString? }

    function GetString(): (s: string)
      requires IsString()
      ensures value == JString(s)
    {
      value.s
    }
  }

  /** Raised by a value parser when the raw text cannot be converted. */
  datatype MalformedValue = MalformedValue(message: string)

  /** Raised by the schema engine when an instance violates its schema. */
  datatype ValidationFault = ValidationFault(message: string)

  /** Raised by the schema engine when the schema itself is malformed. */
  datatype SchemaFault = SchemaFault(message: string)
}
