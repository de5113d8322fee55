/** USD values, and the JSON text that is written for them. A `char` stands for a byte. */
module UsdJsonText {

  // ---------------------------------------------------------------- UTF-8 (RFC 3629, section 4)

  predicate InRange(s: string, i: nat, low: int, high: int) {
    i < |s| && low <= s[i] as int <= high
  }

  predicate Tails(s: string, from: nat, to: nat) {
    to <= |s| && forall i :: from <= i < to ==> 0x80 <= s[i] as int <= 0xBF
  }

  /** The length of the well-formed byte sequence that `s` starts with, or 0 if there is none. */
  function UnitLength(s: string): (n: nat)
    ensures n <= |s|
  {
    if InRange(s, 0, 0x00, 0x7F) then 1
    else if InRange(s, 0, 0xC2, 0xDF) && Tails(s, 1, 2) then 2
    else if InRange(s, 0, 0xE0, 0xE0) && InRange(s, 1, 0xA0, 0xBF) && Tails(s, 2, 3) then 3
    else if InRange(s, 0, 0xED, 0xED) && InRange(s, 1, 0x80, 0x9F) && Tails(s, 2, 3) then 3
    else if InRange(s, 0, 0xE1, 0xEF) && !InRange(s, 0, 0xED, 0xED) && Tails(s, 1, 3) then 3
    else if InRange(s, 0, 0xF0, 0xF0) && InRange(s, 1, 0x90, 0xBF) && Tails(s, 2, 4) then 4
    else if InRange(s, 0, 0xF1, 0xF3) && Tails(s, 1, 4) then 4
    else if InRange(s, 0, 0xF4, 0xF4) && InRange(s, 1, 0x80, 0x8F) && Tails(s, 2, 4) then 4
    else 0
  }

  predicate ValidUtf8(s: string)
    decreases |s|
  {
    s == "" || (UnitLength(s) > 0 && ValidUtf8(s[UnitLength(s)..]))
  }

  /** Replaces the invalid bytes of a string with '?'. */
  function MakeValid(s: string): (valid: string)
    ensures |valid| == |s|
    decreases |s|
  {
    if s == "" then ""
    else if UnitLength(s) > 0 then s[..UnitLength(s)] + MakeValid(s[UnitLength(s)..])
    else "?" + MakeValid(s[1..])
  }

  // ---------------------------------------------------------------- numbers (RFC 8259, section 6)

  predicate IsDigit(c: char) {
    '0' <= c <= '9'
  }

  /** The number of digits that `s` starts with. */
  function Digits(s: string): (n: nat)
    ensures n <= |s|
  {
    if s != "" && IsDigit(s[0]) then 1 + Digits(s[1..]) else 0
  }

  predicate IsExponent(s: string) {
    s == "" ||
    ((s[0] == 'e' || s[0] == 'E') &&
     var digits := if |s| > 1 && (s[1] == '+' || s[1] == '-') then s[2..] else s[1..];
     Digits(digits) == |digits| > 0)
  }

  predicate IsFraction(s: string) {
    if s != "" && s[0] == '.' then
      var n := Digits(s[1..]);
      n > 0 && IsExponent(s[1 + n..])
    else IsExponent(s)
  }

  predicate IsNumber(s: string) {
    var digits := if s != "" && s[0] == '-' then s[1..] else s;
    var n := Digits(digits);
    n > 0 && (n == 1 || digits[0] != '0') && IsFraction(digits[n..])
  }

  // ---------------------------------------------------------------- values

  /** What a finite number prints as. How floating-point numbers print is not modelled: any number text will do. */
  type NumberText = s: string | IsNumber(s) witness "0"

  datatype Scalar = IntScalar(n: int) | NonFinite | Finite(text: NumberText)

  /** A VtValue. `Text` is a string, token, path or asset path, or what any other value is stringified to; `Sequence` an
      array or a list of values; the dictionary's entries are in its order. */
  datatype Value =
    | Empty
    | Boolean(b: bool)
    | Number(number: Scalar)
    | Text(bytes: string)
    | Vec(components: seq<Scalar>)
    | Matrix(rows: seq<seq<Scalar>>)
    | Quaternion(real_: Scalar, imaginary: seq<Scalar>)
    | NumberRange(min: Scalar, max: Scalar)
    | VecRange(vmin: seq<Scalar>, vmax: seq<Scalar>)
    | Sequence(values: seq<Value>)
    | Dictionary(entries: seq<(string, Value)>)

  // ---------------------------------------------------------------- text

  const HEX := "0123456789abcdef"

  function EscapeByte(c: char): string {
    if c == '"' then "\\\""
    else if c == '\\' then "\\\\"
    else if c == '\n' then "\\n"
    else if c == '\r' then "\\r"
    else if c == '\t' then "\\t"
    else if c as int < 0x20 then "\\u00" + [HEX[c as int / 16]] + [HEX[c as int % 16]]
    else [c]
  }

  function Escape(s: string): string {
    if s == "" then "" else EscapeByte(s[0]) + Escape(s[1..])
  }

  function StringText(s: string): string {
    "\"" + Escape(MakeValid(s)) + "\""
  }

  function NatText(n: nat): string {
    if n < 10 then [HEX[n]] else NatText(n / 10) + [HEX[n % 10]]
  }

  function IntText(n: int): string {
    if n < 0 then "-" + NatText(-n) else NatText(n)
  }

  function ScalarText(s: Scalar): string {
    match s
    case IntScalar(n) => IntText(n)
    case NonFinite => "null"
    case Finite(text) => text
  }

  /** The texts, with commas between them. */
  function Join(texts: seq<string>): string {
    if |texts| == 0 then ""
    else if |texts| == 1 then texts[0]
    else Join(texts[..|texts| - 1]) + "," + texts[|texts| - 1]
  }

  function ScalarTexts(s: seq<Scalar>): seq<string> {
    seq(|s|, i requires 0 <= i < |s| => ScalarText(s[i]))
  }

  function VecText(s: seq<Scalar>): string {
    "[" + Join(ScalarTexts(s)) + "]"
  }

  function VecTexts(rows: seq<seq<Scalar>>): seq<string> {
    seq(|rows|, i requires 0 <= i < |rows| => VecText(rows[i]))
  }

  function MemberText(key: string, text: string): string {
    StringText(key) + ":" + text
  }

  function FieldText(name: string, text: string): string {
    "\"" + name + "\":" + text
  }

  /** An object with two fields. */
  function FieldsText(a: string, x: string, b: string, y: string): string {
    "{" + (FieldText(a, x) + "," + FieldText(b, y)) + "}"
  }

  function TextOf(v: Value): string {
    match v
    case Empty => "null"
    case Boolean(b) => if b then "true" else "false"
    case Number(s) => ScalarText(s)
    case Text(bytes) => StringText(bytes)
    case Vec(components) => VecText(components)
    case Matrix(rows) => "[" + Join(VecTexts(rows)) + "]"
    case Quaternion(r, i) => FieldsText("real", ScalarText(r), "imaginary", VecText(i))
    case NumberRange(a, b) => FieldsText("min", ScalarText(a), "max", ScalarText(b))
    case VecRange(a, b) => FieldsText("min", VecText(a), "max", VecText(b))
    case Sequence(values) =>
      "[" + Join(seq(|values|, i requires 0 <= i < |values| => TextOf(values[i]))) + "]"
    case Dictionary(entries) =>
      "{" + Join(seq(|entries|, i requires 0 <= i < |entries| => MemberText(entries[i].0, TextOf(entries[i].1)))) + "}"
  }
}
