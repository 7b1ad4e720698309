/**
 * JavaScript values as JSON.parse produces them, with `undefined` for a
 * property that is not there, and the conversions the core applies to them:
 * truthiness (`if (x)`, `||`), `??`, optional property access `v?.key`,
 * `Number(v)` and `String(v)`.
 */
module Js {
  import opened JsString

  datatype Value =
    | Undefined
    | Null
    | Bool(b: bool)
    | Num(n: int)
    | Str(s: string)
    | Arr(items: seq<Value>)
    | Obj(fields: map<string, Value>)

  /** ToBoolean: `false`, `0`, `""`, `null` and `undefined` are falsy; objects and arrays are truthy. */
  predicate Truthy(v: Value) {
    match v
    case Undefined => false
    case Null => false
    case Bool(b) => b
    case Num(n) => n != 0
    case Str(s) => s != ""
    case Arr(_) => true
    case Obj(_) => true
  }

  /** `a || b` */
  function Or(a: Value, b: Value): Value {
    if Truthy(a) then a else b
  }

  predicate IsNullish(v: Value) {
    v.Undefined? || v.Null?
  }

  /** `a ?? b` */
  function Coalesce(a: Value, b: Value): Value {
    if IsNullish(a) then b else a
  }

  /** `v?.[key]` for the named properties the core reads: only an object that
      has the key answers something other than `undefined`. */
  function Get(v: Value, key: string): Value {
    if v.Obj? && key in v.fields then v.fields[key] else Undefined
  }

  /** Values compared by value rather than by identity. */
  predicate IsPrimitive(v: Value) {
    !v.Arr? && !v.Obj?
  }

  /** The result of `Number(v)`: an integer or NaN. */
  datatype Numeric = Int(i: int) | NaN

  /** StringToNumber for decimal integers: surrounding white space is ignored,
      an empty string is 0, an optional sign may precede the digits. */
  function StringToNumber(s: string): (r: Numeric)
    ensures Trim(s) == "" ==> r == Int(0)
    ensures AllDigits(Trim(s)) ==> r == Int(DigitsValue(Trim(s)))
  {
    var t := Trim(s);
    if t == "" then Int(0)
    else if AllDigits(t) then Int(DigitsValue(t))
    else if |t| > 1 && (t[0] == '+' || t[0] == '-') && AllDigits(t[1..]) then
      var magnitude: int := DigitsValue(t[1..]);
      Int(if t[0] == '-' then -magnitude else magnitude)
    else NaN
  }

  /** `String(v)`; an array joins its elements with commas, `null` and `undefined` elements as "". */
  function ToStr(v: Value): (r: string)
    ensures v.Str? ==> r == v.s
    ensures v.Num? ==> StringToNumber(r) == Int(v.n)
    decreases v
  {
    match v
    case Undefined => "undefined"
    case Null => "null"
    case Bool(b) => if b then "true" else "false"
    case Num(n) => DecimalFormRoundTrip(n); IntToDecimal(n)
    case Str(s) => s
    case Arr(items) =>
      JoinWithCommas(seq(|items|, i requires 0 <= i < |items| =>
        if IsNullish(items[i]) then "" else ToStr(items[i])))
    case Obj(_) => "[object Object]"
  }

  function JoinWithCommas(parts: seq<string>): string {
    if |parts| == 0 then ""
    else if |parts| == 1 then parts[0]
    else JoinWithCommas(parts[..|parts| - 1]) + "," + parts[|parts| - 1]
  }

  /** `Number(v)`: null and false are 0, true is 1, strings and arrays go
      through their string form, undefined and objects are NaN. */
  function ToNumber(v: Value): (r: Numeric)
    ensures v.Num? ==> r == Int(v.n)
    ensures v.Undefined? || v.Obj? ==> r == NaN
  {
    match v
    case Undefined => NaN
    case Null => Int(0)
    case Bool(b) => Int(if b then 1 else 0)
    case Num(n) => Int(n)
    case Str(s) => StringToNumber(s)
    case Arr(_) => StringToNumber(ToStr(v))
    case Obj(_) => NaN
  }

  /** `Number(String(n))` is `n` again: the decimal form `String` writes is
      one `Number` reads. */
  lemma DecimalFormRoundTrip(n: int)
    ensures StringToNumber(IntToDecimal(n)) == Int(n)
  {
    var m: nat := if n < 0 then -n else n;
    DecimalRoundTrip(m);
    TrimDecimal(n);
    var t := IntToDecimal(n);
    if n < 0 {
      assert t[1..] == NatToDecimal(m);
      assert !IsDigit(t[0]);
    }
  }
}
