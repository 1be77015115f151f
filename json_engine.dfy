/**
 * The JavaScript engine's JSON built-ins, which the extension calls but does
 * not implement. `JSON.parse` is an uninterpreted oracle: whether it accepts a
 * text (a JSON text per section 2 of RFC 8259, as accepted by section 25.5.1
 * of ECMA-262), which value it returns and which exception it throws are
 * whatever the engine says. The two serialisations used by the extension,
 * `JSON.stringify(v, null, 2)` and `JSON.stringify(v)`, are oracles too.
 */
module JsonEngine {
  import opened JsText

  /** A parsed JSON value; numbers are kept as their literal text. */
  datatype JsonValue =
    | JsonNull
    | JsonBool(b: bool)
    | JsonNumber(literal: Text)
    | JsonString(s: Text)
    | JsonArray(elements: seq<JsonValue>)
    | JsonObject(members: seq<(Text, JsonValue)>)

  /** A thrown JavaScript value: an `Error` instance with its message, or anything else. */
  datatype Thrown = ErrorInstance(message: string) | OtherValue

  /** What one call of `JSON.parse` does: return a value or throw. */
  datatype ParseAttempt = Parsed(value: JsonValue) | ParseThrew(thrown: Thrown)

  /** What one call of `JSON.stringify` does: return a string or throw. */
  datatype Stringified = Serialized(text: Text) | StringifyThrew(thrown: Thrown)

  /**
   * The engine's JSON built-ins. Each is a total, deterministic function of
   * its argument, as the built-ins are.
   */
  datatype Engine = Engine(
    parse: Text -> ParseAttempt,
    stringifyIndented: JsonValue -> Stringified,
    stringifyCompact: JsonValue -> Stringified)

  /** `JSON.parse(s)` returns without throwing. */
  predicate Accepts(e: Engine, s: Text) {
    e.parse(s).Parsed?
  }

  /** The message a `catch` block reports: the `Error`'s message, or `fallback` for any other thrown value. */
  function ThrownMessage(t: Thrown, fallback: string): string {
    match t
    case ErrorInstance(message) => message
    case OtherValue => fallback
  }
}
