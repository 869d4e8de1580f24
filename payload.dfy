/** The JSON payloads seen by the two message handlers, after `JSON.parse`. */
module Payload {

  /** One property of a parsed JSON object. `JUndef` stands for a missing key.
      JSON numbers are taken to be finite and abstracted to reals; an overflowing
      literal such as `1e400`, which parses to Infinity, is not modelled. */
  datatype Value = JNum(n: real) | JNull | JStr(s: string) | JBool(b: bool) | JUndef

  /** The properties the handlers read; everything else in the object is ignored. */
  datatype Fields = Fields(electricity: Value, water: Value, pasien: Value, ph: Value)

  /** What `JSON.parse` followed by the property reads produced: an object, or a
      thrown error (bad JSON text, or a top-level `null`) with its message. */
  datatype Inbound = Parsed(fields: Fields) | Unparsable(reason: string)

  /** JavaScript truthiness of a JSON value. */
  predicate Truthy(v: Value)
  {
    match v
    case JNum(n) => n != 0.0
    case JNull => false
    case JStr(s) => s != ""
    case JBool(b) => b
    case JUndef => false
  }
}
