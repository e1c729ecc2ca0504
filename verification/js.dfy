/** JavaScript values as they flow through the modelled code: request bodies,
    response data and React state. Only what the modelled code observes of them
    is defined here: truthiness, property reads and string conversion. */
module Js {

  /** Present or absent. */
  datatype Option<+T> = None | Some(value: T)

  /** A JSON-like JavaScript value. Numbers are integers in this model. */
  datatype JsValue =
    | JsUndefined
    | JsNull
    | JsBool(b: bool)
    | JsNumber(n: int)
    | JsString(s: string)
    | JsArray(items: seq<JsValue>)
    | JsObject(fields: map<string, JsValue>)

  /** JavaScript truthiness: `undefined`, `null`, `false`, `0` and `""` are
      falsy; every array and object, even an empty one, is truthy. */
  predicate Truthy(v: JsValue) {
    match v
    case JsUndefined => false
    case JsNull => false
    case JsBool(b) => b
    case JsNumber(n) => n != 0
    case JsString(s) => s != ""
    case JsArray(_) => true
    case JsObject(_) => true
  }

  /** True when reading a property of `v` throws a TypeError. */
  predicate IsNullish(v: JsValue) {
    v.JsUndefined? || v.JsNull?
  }

  /** The property read `v.key` for one of the data keys the modelled code uses:
      None when it throws (v is null or undefined), the own field of an object,
      and `undefined` for every other value. */
  function Get(v: JsValue, key: string): (r: Option<JsValue>)
    ensures r.None? <==> IsNullish(v)
    ensures v.JsObject? && key in v.fields ==> r == Some(v.fields[key])
    ensures v.JsObject? && key !in v.fields ==> r == Some(JsUndefined)
    ensures !v.JsObject? && !IsNullish(v) ==> r == Some(JsUndefined)
  {
    match v
    case JsUndefined => None
    case JsNull => None
    case JsObject(fields) => Some(if key in fields then fields[key] else JsUndefined)
    case _ => Some(JsUndefined)
  }

  /** The optional-chaining read `v?.key`: never throws. */
  function OptGet(v: JsValue, key: string): (r: JsValue)
    ensures IsNullish(v) ==> r == JsUndefined
    ensures !IsNullish(v) ==> Get(v, key) == Some(r)
  {
    if IsNullish(v) then JsUndefined else Get(v, key).value
  }

  /** A field of an object read by destructuring; absent fields read as `undefined`. */
  function Field(body: map<string, JsValue>, key: string): JsValue {
    if key in body then body[key] else JsUndefined
  }

  /** The object as the server receives it after `JSON.stringify`, which drops
      every field whose value is `undefined`. */
  function Serialized(fields: map<string, JsValue>): (r: map<string, JsValue>)
    ensures forall k :: k in r <==> k in fields && !fields[k].JsUndefined?
    ensures forall k :: Field(r, k) == Field(fields, k)
  {
    map k | k in fields && !fields[k].JsUndefined? :: fields[k]
  }

  predicate IsDigit(c: char) {
    '0' <= c <= '9'
  }

  predicate AllDigits(s: string) {
    forall i :: 0 <= i < |s| ==> IsDigit(s[i])
  }

  /** The character of a decimal digit. */
  function DigitChar(d: nat): (c: char)
    requires d < 10
    ensures IsDigit(c) && DigitValue(c) == d
  {
    '0' + d as char
  }

  /** The value of a decimal digit character. */
  function DigitValue(c: char): (d: nat)
    requires IsDigit(c)
    ensures d < 10
  {
    c as int - '0' as int
  }

  lemma DigitCharOfValue(c: char)
    requires IsDigit(c)
    ensures DigitChar(DigitValue(c)) == c
  {
  }

  /** The number a string of decimal digits denotes, most significant first. */
  function DecimalValue(s: string): nat
    requires AllDigits(s)
  {
    if s == [] then 0 else DecimalValue(s[..|s| - 1]) * 10 + DigitValue(s[|s| - 1])
  }

  /** Decimal digits of a natural number, most significant first, with no
      leading zero. */
  function NatToString(n: nat): (r: string)
    ensures |r| >= 1 && AllDigits(r)
    ensures DecimalValue(r) == n
    ensures r[0] == '0' <==> n == 0
  {
    var digit := [DigitChar(n % 10)];
    if n < 10 then digit
    else
      var prefix := NatToString(n / 10);
      assert (prefix + digit)[..|prefix|] == prefix;
      prefix + digit
  }

  /** Distinct numbers print differently. */
  lemma NatToStringInjective(a: nat, b: nat)
    ensures NatToString(a) == NatToString(b) <==> a == b
  {
  }

  /** Splitting off the last decimal digit. */
  lemma LastDigit(q: nat, d: nat)
    requires d < 10
    ensures (q * 10 + d) / 10 == q && (q * 10 + d) % 10 == d
  {
    var x := q * 10 + d;
    var k := x / 10 - q;
    assert x == 10 * (x / 10) + x % 10;
    assert k >= 1 ==> 10 * k >= 10;
    assert k <= -1 ==> 10 * k <= -10;
  }

  /** A digit string with no leading zero denotes a number at least as large
      as the value of its first digit, so it is positive unless it is "0". */
  lemma {:induction false} LeadingDigitPositive(s: string)
    requires |s| >= 1 && AllDigits(s) && s[0] != '0'
    ensures DecimalValue(s) >= 1
    decreases |s|
  {
    if |s| > 1 {
      var p := s[..|s| - 1];
      assert p[0] == s[0];
      LeadingDigitPositive(p);
    }
  }

  /** A single digit prints as its character. */
  lemma NatToStringDigit(d: nat)
    requires d < 10
    ensures NatToString(d) == [DigitChar(d)]
  {
    LastDigit(0, d);
  }

  /** Printing a number with one more digit appends that digit. */
  lemma NatToStringStep(q: nat, d: nat)
    requires q >= 1 && d < 10
    ensures NatToString(q * 10 + d) == NatToString(q) + [DigitChar(d)]
  {
    LastDigit(q, d);
  }

  /** Printing the value of a canonical digit string gives the string back. */
  lemma {:induction false} DecimalRoundTrip(s: string)
    requires |s| >= 1 && AllDigits(s)
    requires |s| > 1 ==> s[0] != '0'
    ensures NatToString(DecimalValue(s)) == s
    decreases |s|
  {
    var p, c := s[..|s| - 1], s[|s| - 1];
    if |s| == 1 {
      assert p == [] && s == [c];
      assert DecimalValue(s) == DigitValue(c);
      NatToStringDigit(DigitValue(c));
      DigitCharOfValue(c);
    } else {
      var q, d := DecimalValue(p), DigitValue(c);
      assert p[0] == s[0];
      LeadingDigitPositive(p);
      DecimalRoundTrip(p);
      NatToStringStep(q, d);
      DigitCharOfValue(c);
      assert DecimalValue(s) == q * 10 + d;
      assert s == p + [c];
    }
  }


  /** `String(n)` for an integer. */
  function IntToString(n: int): string {
    if n < 0 then "-" + NatToString(-n) else NatToString(n)
  }

  /** The strings of `parts` separated by `sep`, as `Array.prototype.join` does. */
  function Join(parts: seq<string>, sep: string): string {
    if |parts| == 0 then ""
    else if |parts| == 1 then parts[0]
    else parts[0] + sep + Join(parts[1..], sep)
  }

  /** `String(v)`, as a template literal or `localStorage.setItem` converts a value.
      Array elements that are null or undefined print as the empty string. */
  function ToString(v: JsValue): string {
    match v
    case JsUndefined => "undefined"
    case JsNull => "null"
    case JsBool(b) => if b then "true" else "false"
    case JsNumber(n) => IntToString(n)
    case JsString(s) => s
    case JsObject(_) => "[object Object]"
    case JsArray(items) =>
      Join(seq(|items|, i requires 0 <= i < |items| =>
             if IsNullish(items[i]) then "" else ToString(items[i])), ",")
  }
}
