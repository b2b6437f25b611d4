/** JavaScript values as the server and the browser code see them: decoded
    JSON payloads, JavaScript truthiness, the String() conversion, the ASCII
    part of toUpperCase/toLowerCase, and the characters that the regular
    expression class \s and String.prototype.trim treat as white space. */
module JsValues {

  datatype Option<+T> = None | Some(value: T)

  /** A decoded JSON value. `Null` also stands for `undefined` (both are
      falsy and both render as absent fields). Numbers are integers. */
  datatype Json =
    | Null
    | Bool(b: bool)
    | Num(n: int)
    | Str(s: string)
    | Arr(items: seq<Json>)
    | Obj(fields: map<string, Json>)

  /** A JavaScript number after Number(): a finite value or NaN. */
  datatype JsNumber = Finite(value: real) | NaN

  /** JavaScript truthiness: null, false, 0 and "" are falsy, every object
      and array is truthy. */
  predicate Truthy(v: Json) {
    match v
    case Null => false
    case Bool(b) => b
    case Num(n) => n != 0
    case Str(s) => s != ""
    case Arr(_) => true
    case Obj(_) => true
  }

  /** An optional value that is there and truthy (`if (x)` on a property read). */
  predicate Present(o: Option<Json>) {
    o.Some? && Truthy(o.value)
  }

  predicate NumberTruthy(x: JsNumber) {
    x.Finite? && x.value != 0.0
  }

  /** `v.key`: only objects carry named properties; a string, a number or an
      array yields undefined for the names used in this code. */
  function Field(v: Json, key: string): (r: Option<Json>)
    ensures r.Some? <==> v.Obj? && key in v.fields
  {
    if v.Obj? && key in v.fields then Some(v.fields[key]) else None
  }

  /** `o?.key`: optional chaining on a value that may be undefined. */
  function Member(o: Option<Json>, key: string): (r: Option<Json>)
    ensures r.Some? ==> o.Some? && o.value.Obj?
  {
    if o.None? then None else Field(o.value, key)
  }

  function Digit(d: nat): (c: char)
    requires d < 10
    ensures '0' <= c <= '9'
  {
    "0123456789"[d]
  }

  predicate IsDigit(c: char) {
    '0' <= c <= '9'
  }

  predicate AllDigits(s: string) {
    forall i :: 0 <= i < |s| ==> IsDigit(s[i])
  }

  /** The decimal numeral of a natural number. */
  function Natural(n: nat): (r: string)
    ensures |r| >= 1 && AllDigits(r)
    ensures (|r| == 1) == (n < 10)
    decreases n
  {
    if n < 10 then [Digit(n)] else Natural(n / 10) + [Digit(n % 10)]
  }

  function Decimal(n: int): (r: string)
    ensures r != []
    ensures n >= 0 ==> AllDigits(r)
    ensures n < 0 ==> r[0] == '-' && AllDigits(r[1..])
  {
    if n < 0 then "-" + Natural(-n) else Natural(n)
  }

  /** String(v). Arrays join their elements' strings with commas, with null
      elements written as nothing; every object is "[object Object]". */
  function ToJsString(v: Json): string
    decreases v, 1
  {
    match v
    case Null => "null"
    case Bool(b) => if b then "true" else "false"
    case Num(n) => Decimal(n)
    case Str(s) => s
    case Arr(items) => JoinFrom(v, 0)
    case Obj(_) => "[object Object]"
  }

  /** The comma-joined strings of `arr.items[from..]`. */
  function JoinFrom(arr: Json, from: nat): string
    requires arr.Arr? && from <= |arr.items|
    decreases arr, 0, |arr.items| - from
  {
    if from == |arr.items| then ""
    else
      var item := arr.items[from];
      var text := if item.Null? then "" else ToJsString(item);
      if from + 1 == |arr.items| then text else text + "," + JoinFrom(arr, from + 1)
  }

  function UpperChar(c: char): (u: char)
    ensures !('a' <= u <= 'z')
  {
    if 'a' <= c <= 'z' then (c as int - 32) as char else c
  }

  function LowerChar(c: char): (l: char)
    ensures !('A' <= l <= 'Z')
  {
    if 'A' <= c <= 'Z' then (c as int + 32) as char else c
  }

  /** toUpperCase on the ASCII letters. */
  function Upper(s: string): (r: string)
    ensures |r| == |s|
    ensures forall i :: 0 <= i < |s| ==> r[i] == UpperChar(s[i])
  {
    seq(|s|, i requires 0 <= i < |s| => UpperChar(s[i]))
  }

  /** toLowerCase on the ASCII letters. */
  function Lower(s: string): (r: string)
    ensures |r| == |s|
    ensures forall i :: 0 <= i < |s| ==> r[i] == LowerChar(s[i])
  {
    seq(|s|, i requires 0 <= i < |s| => LowerChar(s[i]))
  }

  /** The characters matched by \s and removed by trim(): the ECMAScript
      WhiteSpace and LineTerminator code points. */
  predicate IsJsWhitespace(c: char) {
    var u := c as int;
    u == 0x09 || u == 0x0A || u == 0x0B || u == 0x0C || u == 0x0D || u == 0x20
    || u == 0xA0 || u == 0x1680 || (0x2000 <= u <= 0x200A)
    || u == 0x2028 || u == 0x2029 || u == 0x202F || u == 0x205F
    || u == 0x3000 || u == 0xFEFF
  }

  function Max(a: int, b: int): int {
    if a < b then b else a
  }

  function Min(a: int, b: int): int {
    if a < b then a else b
  }
}
