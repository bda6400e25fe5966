/**
  The JavaScript values the server inspects after `JSON.parse` or body parsing.
  The only test the core applies to them is strict equality (`===`) with a string
  literal, so every value that is not a string is kept opaque.
 */
module JsValues {

  /** A JavaScript value: `undefined`, a string, or any other JSON value (kept as its JSON text). */
  datatype Value = Undefined | Str(s: string) | Other(json: string)

  /** A decoded JSON object: property names to values. */
  type Record = map<string, Value>

  /** Property access `r.name`: an absent property reads as `undefined`. */
  function Field(r: Record, name: string): Value {
    if name in r then r[name] else Undefined
  }
}
