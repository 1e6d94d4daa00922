/** Request bodies as JavaScript sees them after JSON parsing, with the
    coercions the handlers apply to them (truthiness, `String(v)`). */
module JsValues {
  import Strings

  /** A parsed JSON value, plus `undefined` for a field the body does not
      carry. Numbers are integers here. Objects keep their keys in order. */
  datatype Json =
    | Undefined
    | Null
    | Bool(b: bool)
    | Num(n: int)
    | Str(s: string)
    | Arr(items: seq<Json>)
    | Obj(fields: seq<(string, Json)>)

  /** JavaScript truthiness: `undefined`, `null`, `false`, `0` and `""` are falsy. */
  predicate Truthy(v: Json)
  {
    match v
    case Undefined => false
    case Null => false
    case Bool(b) => b
    case Num(n) => n != 0
    case Str(s) => s != ""
    case Arr(_) => true
    case Obj(_) => true
  }

  /** Property access `v.key`; `undefined` for a missing key or a value
      that is not an object. With repeated keys `JSON.parse` keeps the last. */
  function Get(v: Json, key: string): Json
  {
    if v.Obj? then FieldValue(v.fields, key) else Undefined
  }

  function FieldValue(fields: seq<(string, Json)>, key: string): Json
  {
    if |fields| == 0 then Undefined
    else if fields[|fields| - 1].0 == key then fields[|fields| - 1].1
    else FieldValue(fields[..|fields| - 1], key)
  }

  function DigitChar(d: nat): char
    requires d < 10
  {
    "0123456789"[d]
  }

  /** Decimal representation of a natural number. */
  function NatToString(n: nat): (r: string)
    ensures |r| >= 1
    ensures forall i :: 0 <= i < |r| ==> '0' <= r[i] <= '9'
  {
    if n < 10 then [DigitChar(n)] else NatToString(n / 10) + [DigitChar(n % 10)]
  }

  /** `String(v)`, as a template literal `${v}` formats a value. Inside an
      array, `null` and `undefined` become the empty string. */
  function ToJsString(v: Json): string
    decreases v
  {
    match v
    case Undefined => "undefined"
    case Null => "null"
    case Bool(b) => if b then "true" else "false"
    case Num(n) => if n < 0 then "-" + NatToString(-n) else NatToString(n)
    case Str(s) => s
    case Arr(items) =>
      Strings.Join(seq(|items|, i requires 0 <= i < |items| =>
                         if items[i].Undefined? || items[i].Null? then "" else ToJsString(items[i])), ",")
    case Obj(_) => "[object Object]"
  }
}
