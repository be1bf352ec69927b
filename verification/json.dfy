/**
 * The JSON value tree that request bodies and parsed responses are made of,
 * with the JavaScript coercions the application applies to such values:
 * truthiness, property access, optional chaining, `typeof` and `String(v)`.
 * `JSON.parse`, `JSON.stringify` and number formatting are foreign
 * functions; they are carried as the fields of a `Codec`.
 */
module Json {
  import opened Wrappers
  import opened Record

  datatype Json =
    | JNull
    | JBool(b: bool)
    | JNum(n: real)
    | JStr(s: string)
    | JArr(items: seq<Json>)
    | JObj(fields: Fields<Json>)

  /** The foreign pieces: `JSON.parse` (failing with the SyntaxError message),
      `JSON.stringify`, and the decimal rendering of a number. */
  datatype Codec = Codec(
    parse: string -> Result<Json, string>,
    stringify: Json -> string,
    numberText: real -> string)

  /** JavaScript truthiness of a JSON value (NaN is not representable). */
  predicate Truthy(v: Json) {
    match v
    case JNull => false
    case JBool(b) => b
    case JNum(n) => n != 0.0
    case JStr(s) => s != ""
    case _ => true
  }

  /** Truthiness of a value that may be `undefined` (`None`). */
  predicate IsTruthy(x: Option<Json>) {
    x.Some? && Truthy(x.value)
  }

  /** `v.key` on a non-null value.  Only objects carry the property names the
      application reads (`choices`, `message`, `data`, `id`, ...); strings,
      numbers, booleans and arrays answer `undefined` for them. */
  function Prop(v: Json, key: string): (r: Option<Json>)
    ensures r.Some? ==> v.JObj? && (key, r.value) in v.fields
  {
    if v.JObj? then Lookup(v.fields, key) else None
  }

  /** `v[0]` on a non-null value: the first element of an array, the first
      character of a string, the property named "0" of an object. */
  function Index0(v: Json): Option<Json> {
    match v
    case JArr(items) => if |items| > 0 then Some(items[0]) else None
    case JStr(s) => if |s| > 0 then Some(JStr([s[0]])) else None
    case JObj(fs) => Lookup(fs, "0")
    case _ => None
  }

  /** Optional chaining `x?.key`: `undefined` and `null` short-circuit to `undefined`. */
  function Chain(x: Option<Json>, key: string): (r: Option<Json>)
    ensures r.Some? ==> x.Some? && x.value.JObj?
  {
    if x.None? || x.value.JNull? then None else Prop(x.value, key)
  }

  /** Optional chaining `x?.[0]`. */
  function ChainIndex0(x: Option<Json>): Option<Json> {
    if x.None? || x.value.JNull? then None else Index0(x.value)
  }

  /** `a || b` on possibly-undefined values: `a` when truthy, else `b`. */
  function Or(a: Option<Json>, b: Option<Json>): (r: Option<Json>)
    ensures IsTruthy(a) ==> r == a
    ensures !IsTruthy(a) ==> r == b
  {
    if IsTruthy(a) then a else b
  }

  /** `typeof v`. */
  function TypeOf(v: Json): string {
    match v
    case JBool(_) => "boolean"
    case JNum(_) => "number"
    case JStr(_) => "string"
    case _ => "object"
  }

  /** `String(v)`: arrays join their elements' texts with commas (null as the
      empty text), plain objects render as "[object Object]". */
  function StringOf(v: Json, codec: Codec): string
    decreases v, 0
  {
    match v
    case JNull => "null"
    case JBool(b) => if b then "true" else "false"
    case JNum(n) => codec.numberText(n)
    case JStr(s) => s
    case JObj(_) => "[object Object]"
    case JArr(items) =>
      JoinComma(seq(|items|, i requires 0 <= i < |items| => ElementText(items[i], codec)))
  }

  /** The text of one array element inside `String(array)`. */
  function ElementText(v: Json, codec: Codec): string
    decreases v, 1
  {
    if v.JNull? then "" else StringOf(v, codec)
  }

  /** `parts.join(',')`. */
  function JoinComma(parts: seq<string>): string {
    if |parts| == 0 then ""
    else if |parts| == 1 then parts[0]
    else parts[0] + "," + JoinComma(parts[1..])
  }

  /** The message V8 throws when a property of `null` is read. */
  function NullPropertyError(key: string): string {
    "Cannot read properties of null (reading '" + key + "')"
  }
}
