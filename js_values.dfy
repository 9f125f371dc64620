/**
 * The few pieces of JavaScript semantics the contact handlers depend on:
 * what a destructured request field can be, when it is truthy, how it is
 * turned into text by a template literal or `RegExp.prototype.test`, and
 * which characters the regular-expression class `\s` matches.
 */
module JsValues {

  /**
   * A field destructured from the parsed request body.
   * `Absent` is `undefined` (the key is missing). `Str` is a JSON string.
   * `Other` is any other JSON value (null, number, boolean, array, object),
   * given by its truthiness and by the text `String(v)` produces for it.
   */
  datatype FieldValue =
    | Absent
    | Str(s: string)
    | Other(truthy: bool, text: string)

  /** JavaScript truthiness: `undefined` and `""` are falsy; other values as recorded. */
  predicate Truthy(v: FieldValue) {
    match v
    case Absent => false
    case Str(s) => s != []
    case Other(t, _) => t
  }

  /** `String(v)`, the conversion a template literal and `RegExp.prototype.test` apply. */
  function ToText(v: FieldValue): string {
    match v
    case Absent => "undefined"
    case Str(s) => s
    case Other(_, text) => text
  }

  /**
   * The characters matched by `\s` in an ECMAScript regular expression:
   * WhiteSpace (tab, vertical tab, form feed, space, no-break space, zero
   * width no-break space and the Unicode space separators) and
   * LineTerminator (line feed, carriage return, line and paragraph separators).
   */
  predicate IsWhitespace(c: char) {
    var n := c as int;
    || n == 0x09 || n == 0x0A || n == 0x0B || n == 0x0C || n == 0x0D
    || n == 0x20 || n == 0xA0 || n == 0x1680
    || (0x2000 <= n <= 0x200A)
    || n == 0x2028 || n == 0x2029 || n == 0x202F || n == 0x205F
    || n == 0x3000 || n == 0xFEFF
  }

}
