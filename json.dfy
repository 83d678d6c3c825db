/**
 * The JavaScript values that `JSON.parse` produces and the few operations
 * the admin page and the upload route apply to them: property reads,
 * truthiness and `String(...)`.
 */
module JsonValue {
  import opened Text

  /** A value produced by `JSON.parse`. Numbers are modelled as integers. */
  datatype Json =
    | JNull
    | JBool(b: bool)
    | JNum(n: int)
    | JStr(s: string)
    | JArr(elems: seq<Json>)
    | JObj(fields: map<string, Json>)

  /** The outcome of `JSON.parse(text)` or `await response.json()`. */
  datatype ParseOutcome = Parsed(value: Json) | ParseFailed(message: string)

  /** The outcome of a property read `v.key`. */
  datatype Read = Undefined | Value(value: Json) | Threw(message: string)

  /** The message of the `TypeError` thrown by a property read on `null`. */
  function NullReadMessage(key: string): string
  {
    "Cannot read properties of null (reading '" + key + "')"
  }

  /**
   * `v.key` for one of the keys the core reads (none of them is a built-in
   * property of arrays, strings or objects): a read on `null` throws, a
   * read on an object yields the member if there is one, and every other
   * read is `undefined`.
   */
  function Prop(v: Json, key: string): (r: Read)
    ensures r.Threw? <==> v.JNull?
    ensures r.Threw? ==> r.message == NullReadMessage(key)
    ensures r.Value? <==> v.JObj? && key in v.fields
    ensures r.Value? ==> r.value == v.fields[key]
  {
    match v
    case JNull => Threw(NullReadMessage(key))
    case JObj(fields) => if key in fields then Value(fields[key]) else Undefined
    case _ => Undefined
  }

  /** JavaScript truthiness of a JSON value: `null`, `false`, `0` and `""` are falsy. */
  predicate Truthy(v: Json)
  {
    match v
    case JNull => false
    case JBool(b) => b
    case JNum(n) => n != 0
    case JStr(s) => s != ""
    case JArr(_) => true
    case JObj(_) => true
  }

  /** Truthiness of a read that did not throw; `undefined` is falsy. */
  predicate ReadTruthy(r: Read)
  {
    r.Value? && Truthy(r.value)
  }

  /** `Array.isArray` of a read. */
  predicate ReadIsArray(r: Read)
  {
    r.Value? && r.value.JArr?
  }

  /** The character of one decimal digit. */
  function DigitChar(d: nat): char
    requires d < 10
  {
    "0123456789"[d]
  }

  /** The numeric value of a decimal digit character. */
  function DigitValue(c: char): nat
  {
    if '0' <= c <= '9' then (c - '0') as nat else 0
  }

  /** The decimal digits of a natural number, most significant first. */
  function NatDigits(n: nat): (r: string)
    ensures |r| >= 1
    ensures forall i :: 0 <= i < |r| ==> '0' <= r[i] <= '9'
    ensures n > 0 ==> r[0] != '0'
  {
    if n < 10 then [DigitChar(n)] else NatDigits(n / 10) + [DigitChar(n % 10)]
  }

  /** The number a string of decimal digits denotes. */
  function DigitsValue(s: string): nat
  {
    if s == [] then 0 else 10 * DigitsValue(s[..|s| - 1]) + DigitValue(s[|s| - 1])
  }

  /** Reading back the digits of `n` gives `n`. */
  lemma {:induction false} NatDigitsRoundTrip(n: nat)
    ensures DigitsValue(NatDigits(n)) == n
  {
    var d := n % 10;
    assert DigitValue(DigitChar(d)) == d by {
      assert DigitChar(d) as int - '0' as int == d;
    }
    if n >= 10 {
      var r := NatDigits(n);
      assert r == NatDigits(n / 10) + [DigitChar(d)];
      assert r[..|r| - 1] == NatDigits(n / 10) && r[|r| - 1] == DigitChar(d);
      NatDigitsRoundTrip(n / 10);
      assert n == 10 * (n / 10) + d;
    }
  }

  /** `String(n)` for an integer `n`. */
  function IntString(n: int): string
  {
    if n < 0 then "-" + NatDigits(-n) else NatDigits(n)
  }

  /**
   * `String(v)`: arrays join their elements with `,`, writing `null` as the
   * empty string; objects become `[object Object]`.
   */
  function JsString(v: Json): (r: string)
    ensures v.JStr? ==> r == v.s
    ensures v.JNum? && v.n >= 0 ==> DigitsValue(r) == v.n
    ensures v.JArr? && v.elems == [] ==> r == ""
  {
    match v
    case JNull => "null"
    case JBool(b) => if b then "true" else "false"
    case JNum(n) =>
      if n >= 0 then NatDigitsRoundTrip(n); IntString(n) else IntString(n)
    case JStr(s) => s
    case JArr(elems) =>
      Join(seq(|elems|, i requires 0 <= i < |elems| =>
             if elems[i].JNull? then "" else JsString(elems[i])), ",")
    case JObj(_) => "[object Object]"
  }
}
