/**
 * JSON values as the browser's `JSON.parse` and the Lambdas' `json.dumps` see them,
 * the JavaScript coercions the pages apply to them, and the text codec, which is
 * left abstract: a pair of total functions together with the law that parsing
 * a serialised value gives the value back.
 */
module Json {
  import opened Types

  /** A JSON value. Numbers are integers in this model; objects are unordered. */
  datatype Json =
    | Null
    | Bool(b: bool)
    | Num(n: int)
    | Str(s: string)
    | Arr(items: seq<Json>)
    | Obj(fields: map<string, Json>)

  /** A flat record: an object every member of which is a string, which is
      what the listing handlers produce for one resource. */
  predicate StringRecord(v: Json) {
    v.Obj? && forall n :: n in v.fields ==> v.fields[n].Str?
  }

  /** JavaScript truthiness of a parsed value (`if (data)`, `!rdsByRegion`). */
  predicate Truthy(v: Json) {
    match v
    case Null => false
    case Bool(b) => b
    case Num(n) => n != 0
    case Str(s) => s != ""
    case _ => true
  }

  /** `Object.keys(v).length` for a value that is not null: own enumerable keys
      of an object, the indices of an array or a string, none for a primitive. */
  function KeyCount(v: Json): nat {
    match v
    case Obj(m) => |m|
    case Arr(items) => |items|
    case Str(s) => |s|
    case _ => 0
  }

  /** Property read `v.key` on a value that is not null; `None` is `undefined`. */
  function Field(v: Json, key: string): Option<Json> {
    if v.Obj? && key in v.fields then Some(v.fields[key]) else None
  }

  /** Decimal digits of a natural number, most significant first. */
  function NatDigits(n: nat): string
    decreases n
  {
    if n < 10 then ["0123456789"[n]] else NatDigits(n / 10) + ["0123456789"[n % 10]]
  }

  /** `String(n)` for an integer. */
  function DecimalString(n: int): string {
    if n < 0 then "-" + NatDigits(-n) else NatDigits(n)
  }

  /** The elements joined by `sep`, as `Array.prototype.join` does. */
  function JoinWith(parts: seq<string>, sep: string): string
    decreases |parts|
  {
    if |parts| == 0 then ""
    else if |parts| == 1 then parts[0]
    else parts[0] + sep + JoinWith(parts[1..], sep)
  }

  /** ECMAScript `ToString`, which `JSON.parse` applies to a non-string argument:
      an array joins its elements with commas (null elements become empty),
      every plain object reads "[object Object]". */
  function ToJsString(v: Json): string
    decreases v
  {
    match v
    case Null => "null"
    case Bool(b) => if b then "true" else "false"
    case Num(n) => DecimalString(n)
    case Str(s) => s
    case Obj(_) => "[object Object]"
    case Arr(items) =>
      JoinWith(seq(|items|, i requires 0 <= i < |items| =>
                     if items[i] == Null then "" else ToJsString(items[i])), ",")
  }

  /** The text codec: `parse` is `JSON.parse` (None when it throws a SyntaxError),
      `stringify` is `JSON.stringify` and `json.dumps` alike. */
  datatype Codec = Codec(parse: string -> Option<Json>, stringify: Json -> string)

  /** The codec law: serialised text is never empty and parses back to the value. */
  ghost predicate Lawful(c: Codec) {
    forall v: Json {:trigger c.stringify(v)} :: c.stringify(v) != "" && c.parse(c.stringify(v)) == Some(v)
  }
}
