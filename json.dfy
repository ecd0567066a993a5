/**
 * JSON-shaped values as the client receives them (response bodies, decoded token
 * payloads), with the JavaScript operations the client applies to them: truthiness,
 * optional property access (`v?.key`), `Object.values`, `String(v)`,
 * `Array.prototype.join` and `JSON.stringify`.
 *
 * Objects keep their properties in insertion order (integer-like keys are not moved
 * first, as JavaScript enumerates them); numbers are integers.
 */
module Json {
  import opened Wrappers
  import opened JsText

  datatype Json =
    | JNull
    | JBool(b: bool)
    | JNum(n: int)
    | JStr(s: string)
    | JArr(items: seq<Json>)
    | JObj(fields: seq<Field>)

  datatype Field = Field(key: string, value: Json)

  /** JavaScript truthiness: `null`, `false`, `0` and `''` are falsy; arrays and objects are truthy. */
  predicate Truthy(j: Json) {
    match j
    case JNull => false
    case JBool(b) => b
    case JNum(n) => n != 0
    case JStr(s) => s != ""
    case JArr(_) => true
    case JObj(_) => true
  }

  /** Truthiness of a value that may be `undefined` (`None`). */
  predicate TruthyOpt(v: Option<Json>) {
    v.Some? && Truthy(v.value)
  }

  /**
   * `e?.response?.data?.message || e?.message || fallback`: the message every page shows
   * for a failed request: the server's, else the error's own, else the page's fallback.
   */
  function ErrorMessage(responseMessage: Option<Json>, errorMessage: Option<Json>, fallback: string): (r: Json)
    ensures fallback != "" ==> Truthy(r)
    ensures TruthyOpt(responseMessage) ==> r == responseMessage.value
    ensures !TruthyOpt(responseMessage) && TruthyOpt(errorMessage) ==> r == errorMessage.value
    ensures !TruthyOpt(responseMessage) && !TruthyOpt(errorMessage) ==> r == JStr(fallback)
  {
    if TruthyOpt(responseMessage) then responseMessage.value
    else if TruthyOpt(errorMessage) then errorMessage.value
    else JStr(fallback)
  }

  function Lookup(fields: seq<Field>, key: string): Option<Json> {
    if fields == [] then None
    else if fields[0].key == key then Some(fields[0].value)
    else Lookup(fields[1..], key)
  }

  /** `j?.[key]`: the property of an object, `undefined` for anything else. */
  function Get(j: Json, key: string): Option<Json> {
    if j.JObj? then Lookup(j.fields, key) else None
  }

  /** `Object.values(o)`, in insertion order. */
  function Values(fields: seq<Field>): (r: seq<Json>)
    ensures |r| == |fields|
    ensures forall i :: 0 <= i < |fields| ==> r[i] == fields[i].value
  {
    seq(|fields|, i requires 0 <= i < |fields| => fields[i].value)
  }

  /** `parts.join(sep)` over strings. */
  function Join(parts: seq<string>, sep: string): string {
    if parts == [] then ""
    else if |parts| == 1 then parts[0]
    else parts[0] + sep + Join(parts[1..], sep)
  }

  /** `String(j)`. */
  function ToText(j: Json): string
    decreases j, 1
  {
    match j
    case JNull => "null"
    case JBool(b) => if b then "true" else "false"
    case JNum(n) => IntText(n)
    case JStr(s) => s
    case JArr(xs) => JoinArray(xs, ",")
    case JObj(_) => "[object Object]"
  }

  /** `xs.join(sep)`: `null` elements become the empty string, the others `String(x)`. */
  function JoinArray(xs: seq<Json>, sep: string): string
    decreases xs, 0
  {
    if xs == [] then ""
    else
      var head := if xs[0].JNull? then "" else ToText(xs[0]);
      if |xs| == 1 then head else head + sep + JoinArray(xs[1..], sep)
  }

  /**
   * `Number(s)` for the texts it reads as an integer: white space around the text is
   * ignored, the empty text is 0, and an optional sign followed by decimal digits is
   * that integer. `None` is `NaN`, which every comparison rejects.
   */
  function TextNumber(s: string): Option<int> {
    var t := Trim(s);
    if t == "" then Some(0)
    else if (t[0] == '-' || t[0] == '+') && |t| > 1 && AllDigits(t[1..]) then
      var magnitude: int := DigitsValue(t[1..]);
      Some(if t[0] == '-' then -magnitude else magnitude)
    else if AllDigits(t) then Some(DigitsValue(t))
    else None
  }

  /**
   * The number a value compares as against a number (`v <= x`): `null` is 0, booleans
   * 0 and 1, and strings, arrays and objects go through their text `String(v)`, so
   * `"1"` is 1, `[]` is 0, `[5]` is 5 and an object is `NaN`.
   */
  function ToNumber(v: Json): Option<int> {
    match v
    case JNull => Some(0)
    case JBool(b) => Some(if b then 1 else 0)
    case JNum(n) => Some(n)
    case _ => TextNumber(ToText(v))
  }

  /** `Number(String(n))` is `n` again: the text of an integer reads back as that integer. */
  lemma IntTextNumber(n: int)
    ensures TextNumber(IntText(n)) == Some(n)
  {
    var m: nat := if n < 0 then -n else n;
    DigitsValueOfNatText(m);
    if n < 0 {
      ReadsNegative(NatText(m), m);
    } else {
      ReadsDigits(NatText(m), m);
    }
  }

  /** Digits, with no sign and no white space around them, read as their value. */
  lemma ReadsDigits(digits: string, m: nat)
    requires digits != [] && AllDigits(digits) && DigitsValue(digits) == m
    ensures TextNumber(digits) == Some(m)
  {
    assert Trim(digits) == digits by {
      DigitIsNoSpace(digits[0]);
      DigitIsNoSpace(digits[|digits| - 1]);
      TrimKeeps(digits);
    }
    DigitIsNoSpace(digits[0]);
  }

  /** '-' and then digits reads as minus their value. */
  lemma ReadsNegative(digits: string, m: nat)
    requires digits != [] && AllDigits(digits) && DigitsValue(digits) == m
    ensures TextNumber("-" + digits) == Some(-(m as int))
  {
    var t := "-" + digits;
    assert Trim(t) == t by {
      assert t[|t| - 1] == digits[|digits| - 1];
      DigitIsNoSpace(digits[|digits| - 1]);
      TrimKeeps(t);
    }
    assert t[1..] == digits;
  }

  lemma DigitIsNoSpace(c: char)
    requires '0' <= c <= '9'
    ensures !IsWhiteSpace(c) && c != '-' && c != '+'
  {
  }

  /** A text that neither starts nor ends with white space is its own `trim()`. */
  lemma TrimKeeps(t: string)
    requires t != [] && !IsWhiteSpace(t[0]) && !IsWhiteSpace(t[|t| - 1])
    ensures Trim(t) == t
  {
    assert TrimStart(t) == t;
  }

  /** Texts compare as the integer they spell, the empty text as 0, other texts as `NaN`. */
  lemma TextCoercions(n: int)
    ensures ToNumber(JStr(IntText(n))) == Some(n)
    ensures ToNumber(JStr("")) == Some(0) && ToNumber(JStr(" 1 ")) == Some(1)
    ensures ToNumber(JStr("x")).None?
  {
    assert ToNumber(JStr(IntText(n))) == Some(n) by { IntTextNumber(n); }
    assert ToNumber(JStr(" 1 ")) == Some(1) by {
      assert TrimStart(" 1 ") == "1 ";
      assert TrimEnd("1 ") == "1";
      assert DigitsValue("1") == 1 by { assert "1"[..0] == ""; }
    }
    assert ToNumber(JStr("x")).None? by { TrimKeeps("x"); }
  }

  /** Arrays compare through their joined text: `[]` and `[null]` as 0, `[n]` as `n`. */
  lemma ArrayCoercions(n: int)
    ensures ToNumber(JArr([JNum(n)])) == Some(n)
    ensures ToNumber(JArr([])) == Some(0) && ToNumber(JArr([JNull])) == Some(0)
  {
    IntTextNumber(n);
    assert JoinArray([JNum(n)], ",") == IntText(n);
    assert JoinArray([JNull], ",") == "";
  }

  /** Every object compares as `NaN`: its text is `[object Object]`. */
  lemma ObjectIsNaN(fields: seq<Field>)
    ensures ToNumber(JObj(fields)).None?
  {
    var t := "[object Object]";
    assert !IsWhiteSpace(t[0]) && !IsWhiteSpace(t[|t| - 1]);
    assert TrimStart(t) == t;
    assert Trim(t) == t;
    assert !IsDigit(t[0]);
  }

  function HexDigit(d: nat): char
    requires d < 16
  {
    if d < 10 then ('0' as int + d) as char else ('a' as int + d - 10) as char
  }

  /** One character of a string inside `JSON.stringify`'s output. */
  function EscapeChar(c: char): string {
    if c == '"' then "\\\""
    else if c == '\\' then "\\\\"
    else if c == '\U{0008}' then "\\b"
    else if c == '\U{000C}' then "\\f"
    else if c == '\n' then "\\n"
    else if c == '\r' then "\\r"
    else if c == '\t' then "\\t"
    else if (c as int) < 0x20 then "\\u00" + [HexDigit(c as int / 16), HexDigit(c as int % 16)]
    else [c]
  }

  function Escape(s: string): string {
    if s == [] then "" else EscapeChar(s[0]) + Escape(s[1..])
  }

  function Quote(s: string): string {
    "\"" + Escape(s) + "\""
  }

  /** `JSON.stringify(j)`. */
  function Stringify(j: Json): string
    decreases j, 1
  {
    match j
    case JNull => "null"
    case JBool(b) => if b then "true" else "false"
    case JNum(n) => IntText(n)
    case JStr(s) => Quote(s)
    case JArr(xs) => "[" + StringifyItems(xs) + "]"
    case JObj(fs) => "{" + StringifyFields(fs) + "}"
  }

  function StringifyItems(xs: seq<Json>): string
    decreases xs, 0
  {
    if xs == [] then ""
    else if |xs| == 1 then Stringify(xs[0])
    else Stringify(xs[0]) + "," + StringifyItems(xs[1..])
  }

  function StringifyFields(fs: seq<Field>): string
    decreases fs, 0
  {
    if fs == [] then ""
    else
      var member := Quote(fs[0].key) + ":" + Stringify(fs[0].value);
      if |fs| == 1 then member else member + "," + StringifyFields(fs[1..])
  }

  /** Nothing `JSON.stringify` produces for a value is empty. */
  lemma StringifyNonEmpty(j: Json)
    ensures Stringify(j) != ""
  {
    match j
    case JNum(n) => {
      if n < 0 {} else { assert NatText(n) != []; }
    }
    case _ => {}
  }
}
