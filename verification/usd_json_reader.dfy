/** A reader for JSON text, as RFC 8259 defines it (sections 2 to 7). It is what the writer is measured against. */
module JsonReader {
  import opened Wrappers
  import opened UsdJsonText

  datatype Json =
    | JNull
    | JBool(b: bool)
    | JNumber(text: string)
    | JString(bytes: string)
    | JArray(elements: seq<Json>)
    | JObject(members: seq<(string, Json)>)

  predicate IsWhitespace(c: char) {
    c == ' ' || c == '\t' || c == '\n' || c == '\r'
  }

  function SkipWhitespace(s: string): (rest: string)
    ensures |rest| <= |s|
  {
    if s != "" && IsWhitespace(s[0]) then SkipWhitespace(s[1..]) else s
  }

  // ---------------------------------------------------------------- numbers

  /** The length of the longest number that `s` starts with, among those of up to `n` characters; 0 if there is none. */
  function LongestNumber(s: string, n: nat): (k: nat)
    requires n <= |s|
    ensures k <= n && (k > 0 ==> IsNumber(s[..k]))
    ensures forall m :: k < m <= n ==> !IsNumber(s[..m])
  {
    if n == 0 || IsNumber(s[..n]) then n else LongestNumber(s, n - 1)
  }

  function ReadNumber(s: string): Option<(Json, string)> {
    var n := LongestNumber(s, |s|);
    if n > 0 then Some((JNumber(s[..n]), s[n..])) else None
  }

  // ---------------------------------------------------------------- strings

  function HexValue(c: char): (n: int)
    ensures -1 <= n < 16
  {
    if '0' <= c <= '9' then c as int - '0' as int
    else if 'a' <= c <= 'f' then c as int - 'a' as int + 10
    else if 'A' <= c <= 'F' then c as int - 'A' as int + 10
    else -1
  }

  /** The code unit that four hexadecimal digits give, or -1. */
  function CodeUnit(s: string): (n: int)
    ensures -1 <= n < 0x1_0000
    ensures n >= 0 ==> |s| >= 4
  {
    if |s| < 4 || HexValue(s[0]) < 0 || HexValue(s[1]) < 0 || HexValue(s[2]) < 0 || HexValue(s[3]) < 0 then -1
    else ((HexValue(s[0]) * 16 + HexValue(s[1])) * 16 + HexValue(s[2])) * 16 + HexValue(s[3])
  }

  /** The UTF-8 encoding of a code point. */
  function EncodeUtf8(code: nat): string
    requires code < 0x11_0000
  {
    if code < 0x80 then [code as char]
    else if code < 0x800 then [(0xC0 + code / 64) as char, (0x80 + code % 64) as char]
    else if code < 0x1_0000 then
      [(0xE0 + code / 4096) as char, (0x80 + code / 64 % 64) as char, (0x80 + code % 64) as char]
    else
      [(0xF0 + code / 262144) as char, (0x80 + code / 4096 % 64) as char, (0x80 + code / 64 % 64) as char,
       (0x80 + code % 64) as char]
  }

  /** The bytes that "\u" with the digits in `s` stands for, and how many characters of `s` it takes. A code point
      beyond the basic plane is written as two surrogates; a lone surrogate is not a character. */
  function ReadUnicode(s: string): (r: Option<(string, nat)>)
    ensures r.Some? ==> r.value.1 <= |s|
  {
    var u := CodeUnit(s);
    if u < 0 then None
    else if 0xD800 <= u < 0xDC00 then
      var low := if |s| >= 6 && s[4] == '\\' && s[5] == 'u' then CodeUnit(s[6..]) else -1;
      if 0xDC00 <= low < 0xE000 then Some((EncodeUtf8(0x1_0000 + (u - 0xD800) * 0x400 + (low - 0xDC00)), 10)) else None
    else if 0xDC00 <= u < 0xE000 then None
    else Some((EncodeUtf8(u), 4))
  }

  /** The character that a backslash and `c` stand for, or "" if it is none of the short escapes. */
  function ShortEscape(c: char): string {
    if c == '"' || c == '\\' || c == '/' then [c]
    else if c == 'b' then [8 as char]
    else if c == 'f' then [12 as char]
    else if c == 'n' then "\n"
    else if c == 'r' then "\r"
    else if c == 't' then "\t"
    else ""
  }

  function Prepend(bytes: string, r: Option<(string, string)>): Option<(string, string)> {
    if r.None? then None else Some((bytes + r.value.0, r.value.1))
  }

  /** Reads a string up to and including its closing quote. */
  function ReadBody(s: string): (r: Option<(string, string)>)
    ensures r.Some? ==> |r.value.1| < |s|
    decreases |s|
  {
    if s == "" then None
    else if s[0] == '"' then Some(("", s[1..]))
    else if s[0] == '\\' then
      if |s| < 2 then None
      else if s[1] == 'u' then
        match ReadUnicode(s[2..])
        case None => None
        case Some((bytes, n)) => Prepend(bytes, ReadBody(s[2 + n..]))
      else if ShortEscape(s[1]) == "" then None
      else Prepend(ShortEscape(s[1]), ReadBody(s[2..]))
    else if s[0] as int < 0x20 then None
    else Prepend([s[0]], ReadBody(s[1..]))
  }

  // ---------------------------------------------------------------- values

  predicate StartsWith(s: string, prefix: string) {
    |s| >= |prefix| && s[..|prefix|] == prefix
  }

  function ReadValue(s: string): (r: Option<(Json, string)>)
    ensures r.Some? ==> |r.value.1| < |s|
    decreases |s|, 0
  {
    if s == "" then None
    else if s[0] == '"' then
      var r := ReadBody(s[1..]);
      if r.None? then None else Some((JString(r.value.0), r.value.1))
    else if s[0] == '[' then
      var rest := SkipWhitespace(s[1..]);
      if rest != "" && rest[0] == ']' then Some((JArray([]), rest[1..])) else
        var r := ReadElements(rest);
        if r.None? then None else Some((JArray(r.value.0), r.value.1))
    else if s[0] == '{' then
      var rest := SkipWhitespace(s[1..]);
      if rest != "" && rest[0] == '}' then Some((JObject([]), rest[1..])) else
        var r := ReadMembers(rest);
        if r.None? then None else Some((JObject(r.value.0), r.value.1))
    else if StartsWith(s, "null") then Some((JNull, s[4..]))
    else if StartsWith(s, "true") then Some((JBool(true), s[4..]))
    else if StartsWith(s, "false") then Some((JBool(false), s[5..]))
    else if s[0] == '-' || IsDigit(s[0]) then ReadNumber(s)
    else None
  }

  /** Reads the elements of an array that is not empty, up to and including its closing bracket. */
  function ReadElements(s: string): (r: Option<(seq<Json>, string)>)
    ensures r.Some? ==> |r.value.1| < |s|
    decreases |s|, 1
  {
    var first := ReadValue(s);
    if first.None? then None else
      var rest := SkipWhitespace(first.value.1);
      if rest == "" then None
      else if rest[0] == ']' then Some(([first.value.0], rest[1..]))
      else if rest[0] == ',' then
        var more := ReadElements(SkipWhitespace(rest[1..]));
        if more.None? then None else Some(([first.value.0] + more.value.0, more.value.1))
      else None
  }

  /** Reads the members of an object that is not empty, up to and including its closing brace. */
  function ReadMembers(s: string): (r: Option<(seq<(string, Json)>, string)>)
    ensures r.Some? ==> |r.value.1| < |s|
    decreases |s|, 1
  {
    if s == "" || s[0] != '"' then None else
      var key := ReadBody(s[1..]);
      if key.None? then None else
        var colon := SkipWhitespace(key.value.1);
        if colon == "" || colon[0] != ':' then None else
          var first := ReadValue(SkipWhitespace(colon[1..]));
          if first.None? then None else
            var rest := SkipWhitespace(first.value.1);
            if rest == "" then None
            else if rest[0] == '}' then Some(([(key.value.0, first.value.0)], rest[1..]))
            else if rest[0] == ',' then
              var more := ReadMembers(SkipWhitespace(rest[1..]));
              if more.None? then None else Some(([(key.value.0, first.value.0)] + more.value.0, more.value.1))
            else None
  }
}
