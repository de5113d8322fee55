/** The text written for a value reads back as the value. */
module UsdJsonProofs {
  import opened Wrappers
  import opened UsdJsonText
  import opened JsonReader

  // ---------------------------------------------------------------- strings

  lemma Concat(a: string, b: string, c: string)
    ensures a + (b + c) == a + b + c
  {
  }

  lemma {:induction false} EscapeAppend(a: string, b: string)
    ensures Escape(a + b) == Escape(a) + Escape(b)
  {
    hide EscapeByte;
    if a == "" {
      assert a + b == b;
    } else {
      EscapeAppend(a[1..], b);
      assert (a + b)[1..] == a[1..] + b;
      Concat(EscapeByte(a[0]), Escape(a[1..]), Escape(b));
    }
  }

  lemma ControlReads(c: char, rest: string)
    requires c as int < 0x20 && EscapeByte(c) == "\\u00" + [HEX[c as int / 16]] + [HEX[c as int % 16]]
    ensures ReadUnicode((EscapeByte(c) + rest)[2..]) == Some(([c], 4))
  {
    var s := (EscapeByte(c) + rest)[2..];
    assert s[0] == '0' && s[1] == '0' && s[2] == HEX[c as int / 16] && s[3] == HEX[c as int % 16];
    assert HexValue(s[2]) == c as int / 16;
    assert HexValue(s[3]) == c as int % 16;
    assert CodeUnit(s) == c as int;
  }

  /** Unescaping undoes escaping one byte, whatever follows. */
  lemma EscapedByteReads(c: char, rest: string)
    ensures ReadBody(EscapeByte(c) + rest) == Prepend([c], ReadBody(rest))
  {
    var s := EscapeByte(c) + rest;
    if EscapeByte(c) == [c] {
      assert s[1..] == rest;
    } else if |EscapeByte(c)| == 2 {
      assert s[2..] == rest;
    } else {
      ControlReads(c, rest);
      assert s[2 + 4..] == rest;
    }
  }

  lemma EmptyReads(rest: string)
    ensures ReadBody(Escape("") + "\"" + rest) == Some(("", rest))
  {
    assert Escape("") + "\"" + rest == "\"" + rest;
  }

  lemma EscapeFirst(s: string, rest: string)
    requires s != ""
    ensures Escape(s) + "\"" + rest == EscapeByte(s[0]) + (Escape(s[1..]) + "\"" + rest)
    ensures Prepend([s[0]], Some((s[1..], rest))) == Some((s, rest))
  {
    hide EscapeByte;
    assert [s[0]] + s[1..] == s;
  }

  /** Unescaping undoes escaping, and ends exactly at the closing quote. */
  lemma {:induction false} EscapedReads(s: string, rest: string)
    ensures ReadBody(Escape(s) + "\"" + rest) == Some((s, rest))
  {
    hide *;
    if s == "" {
      EmptyReads(rest);
    } else {
      EscapedReads(s[1..], rest);
      EscapedByteReads(s[0], Escape(s[1..]) + "\"" + rest);
      EscapeFirst(s, rest);
    }
  }

  predicate IsHex(c: char) {
    HexValue(c) >= 0
  }

  /** The length of the character (RFC 8259, section 7) that `s` starts with, or 0 if there is none: any byte from
      0x20 on but a quote or a backslash, or an escape. */
  function CharLength(s: string): (n: nat)
    ensures n <= |s|
  {
    if s == "" || s[0] as int < 0x20 || s[0] == '"' then 0
    else if s[0] != '\\' then 1
    else if |s| >= 2 && ShortEscape(s[1]) != "" then 2
    else if |s| >= 6 && s[1] == 'u' && IsHex(s[2]) && IsHex(s[3]) && IsHex(s[4]) && IsHex(s[5]) then 6
    else 0
  }

  /** The body of a string literal: such characters, one after the other. */
  predicate IsBody(s: string)
    decreases |s|
  {
    s == "" || (CharLength(s) > 0 && IsBody(s[CharLength(s)..]))
  }

  lemma HexDigits(k: nat)
    requires k < 16
    ensures IsHex(HEX[k])
  {
  }

  lemma EscapedIsChar(c: char, rest: string)
    ensures CharLength(EscapeByte(c) + rest) == |EscapeByte(c)| > 0
  {
    if c as int < 0x20 && c != '\n' && c != '\r' && c != '\t' {
      var x, y := HEX[c as int / 16], HEX[c as int % 16];
      HexDigits(c as int / 16);
      HexDigits(c as int % 16);
      assert EscapeByte(c) == ['\\', 'u', '0', '0', x, y];
      assert EscapeByte(c) + rest == ['\\', 'u', '0', '0', x, y] + rest;
    }
  }

  /** Escaped text is a body: it has no control characters, no quote and no backslash but in escapes, and all its
      escapes are complete. */
  lemma {:induction false} EscapedIsBody(s: string)
    ensures IsBody(Escape(s))
  {
    if s == "" {
    } else {
      var first, rest := EscapeByte(s[0]), Escape(s[1..]);
      EscapedIsBody(s[1..]);
      EscapedIsChar(s[0], rest);
      assert Escape(s) == first + rest && (first + rest)[|first|..] == rest;
      hide CharLength, EscapeByte, Escape;
    }
  }

  // ---------------------------------------------------------------- UTF-8

  /** A well-formed sequence at the start is not affected by what follows it. */
  lemma UnitPrefix(s: string, rest: string)
    requires UnitLength(s) > 0
    ensures UnitLength(s + rest) == UnitLength(s)
  {
  }

  lemma UnitAlone(s: string)
    requires UnitLength(s) > 0
    ensures UnitLength(s[..UnitLength(s)]) == UnitLength(s)
  {
  }

  lemma {:induction false} ValidAppend(a: string, b: string)
    requires ValidUtf8(a) && ValidUtf8(b)
    ensures ValidUtf8(a + b)
    decreases |a|
  {
    if a == "" {
      assert a + b == b;
    } else {
      var n := UnitLength(a);
      UnitPrefix(a, b);
      assert (a + b)[n..] == a[n..] + b;
      ValidAppend(a[n..], b);
    }
  }

  lemma {:induction false} AsciiValid(s: string)
    requires forall i :: 0 <= i < |s| ==> s[i] as int < 0x80
    ensures ValidUtf8(s)
  {
    if s == "" {
    } else {
      assert UnitLength(s) == 1;
      AsciiValid(s[1..]);
    }
  }

  /** A first well-formed sequence, before any text. */
  lemma FirstUnit(unit: string, rest: string)
    requires UnitLength(unit) == |unit| > 0
    ensures ValidUtf8(unit + rest) <==> ValidUtf8(rest)
    ensures MakeValid(unit + rest) == unit + MakeValid(rest)
  {
    UnitPrefix(unit, rest);
    assert (unit + rest)[..|unit|] == unit && (unit + rest)[|unit|..] == rest;
    hide UnitLength;
  }

  lemma SamePrefix(a: string, x: string, y: string)
    ensures a + x == a + y <==> x == y
  {
    assert (a + x)[|a|..] == x && (a + y)[|a|..] == y;
  }

  lemma QuestionMark(s: string)
    requires s != "" && UnitLength(s) == 0
    ensures UnitLength("?") == 1 && forall rest :: s != "?" + rest
  {
  }

  /** Replacing invalid bytes makes any string valid, and changes exactly those that were not. */
  lemma {:induction false} MakeValidHolds(s: string)
    ensures ValidUtf8(MakeValid(s))
    ensures MakeValid(s) == s <==> ValidUtf8(s)
    decreases |s|
  {
    if s == "" {
    } else {
      var n := UnitLength(s);
      if n > 0 {
        var unit, rest := s[..n], s[n..];
        assert s == unit + rest;
        UnitAlone(s);
        hide *;
        MakeValidHolds(rest);
        FirstUnit(unit, rest);
        FirstUnit(unit, MakeValid(rest));
        SamePrefix(unit, rest, MakeValid(rest));
      } else {
        var rest := s[1..];
        assert MakeValid(s) == "?" + MakeValid(rest) && !ValidUtf8(s);
        QuestionMark(s);
        hide *;
        MakeValidHolds(rest);
        FirstUnit("?", MakeValid(rest));
      }
    }
  }

  /** Byte `j` belongs to a well-formed byte sequence. */
  ghost predicate InUnit(s: string, j: nat) {
    exists i: nat :: i <= j < |s| && j < i + UnitLength(s[i..])
  }

  /** No well-formed byte sequence starts inside of another. */
  lemma NoUnitInside(s: string, k: nat)
    requires 0 < k < UnitLength(s)
    ensures UnitLength(s[k..]) == 0
  {
    assert 0x80 <= s[k] as int <= 0xBF;
    assert s[k..][0] == s[k];
  }

  lemma InUnitAfter(s: string, n: nat, j: nat)
    requires n <= j < |s| && n == if UnitLength(s) > 0 then UnitLength(s) else 1
    ensures InUnit(s, j) <==> InUnit(s[n..], j - n)
  {
    hide UnitLength;
    if i: nat :| i <= j && j < i + UnitLength(s[i..]) {
      if 0 < i < n {
        NoUnitInside(s, i);
      } else if n <= i {
        assert s[n..][i - n..] == s[i..];
      }
    }
    if i: nat :| i <= j - n && j - n < i + UnitLength(s[n..][i..]) {
      assert s[n..][i..] == s[n + i..];
    }
  }

  /** Byte by byte: those that belong to a well-formed byte sequence stay, each of the others becomes '?'. */
  lemma {:induction false} MakeValidAt(s: string, j: nat)
    requires j < |s|
    ensures MakeValid(s)[j] == if InUnit(s, j) then s[j] else '?'
    decreases |s|
  {
    var n := if UnitLength(s) > 0 then UnitLength(s) else 1;
    hide UnitLength;
    assert s[0..] == s;
    if j < n {
      if UnitLength(s) > 0 {
        assert j < 0 + UnitLength(s[0..]);
      }
    } else {
      InUnitAfter(s, n, j);
      MakeValidAt(s[n..], j - n);
    }
  }

  lemma EscapeUnit(s: string, n: nat)
    requires n <= |s| && forall i :: 0 <= i < n ==> s[i] as int >= 0x80
    ensures Escape(s[..n]) == s[..n]
    decreases n
  {
    if n > 0 {
      assert s[..n][1..] == s[1..][..n - 1];
      EscapeUnit(s[1..], n - 1);
    }
  }

  lemma UnitBytes(s: string)
    ensures UnitLength(s) == 1 ==> s[0] as int < 0x80
    ensures UnitLength(s) > 1 ==> forall i :: 0 <= i < UnitLength(s) ==> s[i] as int >= 0x80
  {
  }

  lemma EscapeUnitValid(s: string)
    requires UnitLength(s) > 0
    ensures ValidUtf8(Escape(s[..UnitLength(s)]))
  {
    var n := UnitLength(s);
    UnitBytes(s);
    if n == 1 {
      assert s[..1][1..] == "" && Escape(s[..1]) == EscapeByte(s[0]);
      AsciiValid(EscapeByte(s[0]));
    } else {
      hide EscapeByte;
      EscapeUnit(s, n);
      UnitAlone(s);
      hide UnitLength;
      assert s[..n][n..] == "";
    }
  }

  /** Escaping keeps strings valid UTF-8. */
  lemma {:induction false} EscapeValid(s: string)
    requires ValidUtf8(s)
    ensures ValidUtf8(Escape(s))
    decreases |s|
  {
    hide UnitLength, EscapeByte;
    if s == "" {
    } else {
      var n := UnitLength(s);
      EscapeValid(s[n..]);
      assert s == s[..n] + s[n..];
      EscapeAppend(s[..n], s[n..]);
      EscapeUnitValid(s);
      ValidAppend(Escape(s[..n]), Escape(s[n..]));
    }
  }

  lemma StringTextValid(s: string)
    ensures ValidUtf8(StringText(s))
  {
    MakeValidHolds(s);
    EscapeValid(MakeValid(s));
    AsciiValid("\"");
    ValidAppend("\"", Escape(MakeValid(s)));
    ValidAppend("\"" + Escape(MakeValid(s)), "\"");
  }

  // ---------------------------------------------------------------- numbers

  predicate IsNumberChar(c: char) {
    IsDigit(c) || c == '+' || c == '-' || c == '.' || c == 'e' || c == 'E'
  }

  predicate AllNumberChars(s: string) {
    forall i :: 0 <= i < |s| ==> IsNumberChar(s[i])
  }

  lemma {:induction false} DigitsAreNumberChars(s: string)
    ensures AllNumberChars(s[..Digits(s)])
    ensures forall i :: 0 <= i < Digits(s) ==> IsDigit(s[i])
  {
    if s != "" && IsDigit(s[0]) {
      DigitsAreNumberChars(s[1..]);
      assert s[..Digits(s)] == [s[0]] + s[1..][..Digits(s[1..])];
    }
  }

  lemma ExponentChars(s: string)
    requires IsExponent(s)
    ensures AllNumberChars(s)
  {
    if s != "" {
      var skip := if |s| > 1 && (s[1] == '+' || s[1] == '-') then 2 else 1;
      DigitsAreNumberChars(s[skip..]);
      assert s[skip..][..Digits(s[skip..])] == s[skip..];
      assert forall i :: skip <= i < |s| ==> s[i] == s[skip..][i - skip];
    }
  }

  lemma FractionChars(s: string)
    requires IsFraction(s)
    ensures AllNumberChars(s)
  {
    if s != "" && s[0] == '.' {
      var n := Digits(s[1..]);
      DigitsAreNumberChars(s[1..]);
      ExponentChars(s[1 + n..]);
      assert forall i :: 1 <= i < 1 + n ==> s[i] == s[1..][i - 1];
      assert forall i :: 1 + n <= i < |s| ==> s[i] == s[1 + n..][i - 1 - n];
    } else {
      ExponentChars(s);
    }
  }

  lemma NumberChars(s: string)
    requires IsNumber(s)
    ensures AllNumberChars(s) && s != "" && (s[0] == '-' || IsDigit(s[0]))
  {
    var skip := if s != "" && s[0] == '-' then 1 else 0;
    var digits := s[skip..];
    var n := Digits(digits);
    DigitsAreNumberChars(digits);
    FractionChars(digits[n..]);
    hide IsFraction;
    var parts := s[..skip] + digits[..n] + digits[n..];
    assert s == parts;
    forall i | 0 <= i < |parts| ensures IsNumberChar(parts[i]) {
      if i < skip {
        assert parts[i] == '-';
      } else if i < skip + n {
        assert parts[i] == digits[..n][i - skip];
      } else {
        assert parts[i] == digits[n..][i - skip - n];
      }
    }
  }

  /** Some of what follows a number makes a longer number of it. */
  ghost predicate Continues(number: string, rest: string) {
    exists n :: 0 < n <= |rest| && IsNumber(number + rest[..n])
  }

  predicate Delimits(rest: string) {
    rest != "" && (rest[0] == ',' || rest[0] == ']' || rest[0] == '}')
  }

  lemma ReadsAsNumber(s: string)
    requires s != "" && (s[0] == '-' || IsDigit(s[0]))
    ensures ReadValue(s) == ReadNumber(s)
  {
    hide ReadNumber, ReadElements, ReadMembers;
    assert !StartsWith(s, "null") && !StartsWith(s, "true") && !StartsWith(s, "false");
  }

  /** A number is read to its end, and no further, exactly if what follows does not continue it. */
  lemma NumberReads(s: string, rest: string)
    requires IsNumber(s)
    ensures ReadValue(s + rest) == Some((JNumber(s), rest)) <==> !Continues(s, rest)
  {
    NumberChars(s);
    ReadsAsNumber(s + rest);
    hide IsNumber, ReadValue, LongestNumber;
    var t := s + rest;
    assert t[..|s|] == s && t[|s|..] == rest;
    forall n | 0 < n <= |rest| ensures t[..|s| + n] == s + rest[..n] {}
    var k := LongestNumber(t, |t|);
    if k > |s| {
      assert IsNumber(s + rest[..k - |s|]);
    }
  }

  lemma NotNumber(s: string, i: nat)
    requires i < |s| && !IsNumberChar(s[i])
    ensures !IsNumber(s)
  {
    hide IsNumber;
    if IsNumber(s) { NumberChars(s); }
  }

  /** Neither the end of the text, nor a comma or a closing bracket, continues a number. */
  lemma DelimitersEnd(s: string, rest: string)
    requires rest == "" || Delimits(rest)
    ensures !Continues(s, rest)
  {
    hide IsNumber;
    forall n | 0 < n <= |rest| ensures !IsNumber(s + rest[..n]) {
      assert (s + rest[..n])[|s|] == rest[0];
      NotNumber(s + rest[..n], |s|);
    }
  }

  /** Digits continue a number, so two numbers in a row read as one; a minus does not. */
  lemma NumbersRunTogether()
    ensures ReadValue("1" + "0") == Some((JNumber("10"), "")) && Continues("1", "0")
    ensures ReadValue("1" + "-") == Some((JNumber("1"), "-")) && !Continues("1", "-")
  {
    assert IsNumber("10") by { assert "10"[1..] == "0" && "10"[2..] == ""; }
    assert "1" + "0" == "10" && "10"[..2] == "10" && "10"[2..] == "" && "1" + "0"[..1] == "10";
    ReadsAsNumber("10");
    assert IsNumber("1") && !IsNumber("1-") by { assert "1-"[1..] == "-"; }
    assert "1" + "-" == "1-" && "1-"[..1] == "1" && "1-"[1..] == "-" && "1-"[..2] == "1-" && "-"[..1] == "-";
    NumberReads("1", "-");
  }

  lemma {:induction false} DigitsAppend(s: string, rest: string)
    requires forall i :: 0 <= i < |s| ==> IsDigit(s[i])
    ensures Digits(s + rest) == |s| + Digits(rest)
  {
    if s == "" {
      assert s + rest == rest;
    } else {
      DigitsAppend(s[1..], rest);
      assert (s + rest)[1..] == s[1..] + rest;
    }
  }

  lemma {:induction false} NatTextDigits(n: nat)
    ensures var s := NatText(n);
            && |s| > 0 && (forall i :: 0 <= i < |s| ==> IsDigit(s[i]))
            && (n > 0 ==> s[0] != '0') && (n < 10 ==> |s| == 1)
  {
    if n >= 10 { NatTextDigits(n / 10); }
  }

  lemma IntTextIsNumber(n: int)
    ensures IsNumber(IntText(n))
  {
    var m := if n < 0 then -n else n;
    var s := NatText(m);
    NatTextDigits(m);
    DigitsAppend(s, "");
    assert s + "" == s;
    assert Digits(s) == |s|;
    if n < 0 { assert IntText(n)[1..] == s; }
  }

  /** The number that digits stand for. */
  function DigitsValue(s: string): nat {
    if s == "" || !IsDigit(s[|s| - 1]) then 0
    else 10 * DigitsValue(s[..|s| - 1]) + (s[|s| - 1] as int - '0' as int)
  }

  function IntegerValue(s: string): int {
    if s != "" && s[0] == '-' then 0 - DigitsValue(s[1..]) else DigitsValue(s)
  }

  lemma {:induction false} NatTextValue(n: nat)
    ensures DigitsValue(NatText(n)) == n
  {
    var s := NatText(n);
    if n >= 10 {
      NatTextValue(n / 10);
      assert s[..|s| - 1] == NatText(n / 10);
    }
  }

  /** The text of an integer is a JSON number, and it denotes that integer. */
  lemma IntTextDenotes(n: int)
    ensures IsNumber(IntText(n)) && IntegerValue(IntText(n)) == n
  {
    IntTextIsNumber(n);
    NatTextDigits(if n < 0 then -n else n);
    NatTextValue(if n < 0 then -n else n);
    if n < 0 { assert IntText(n)[1..] == NatText(-n); }
  }

  // ---------------------------------------------------------------- values

  function ScalarJson(s: Scalar): Json {
    match s
    case IntScalar(n) => JNumber(IntText(n))
    case NonFinite => JNull
    case Finite(text) => JNumber(text)
  }

  function VecJson(s: seq<Scalar>): Json {
    JArray(seq(|s|, i requires 0 <= i < |s| => ScalarJson(s[i])))
  }

  /** What a value becomes: numbers that are not finite are null, invalid bytes '?', vectors and matrices lists, and
      quaternions and ranges objects. */
  function Normalized(v: Value): Json {
    match v
    case Empty => JNull
    case Boolean(b) => JBool(b)
    case Number(s) => ScalarJson(s)
    case Text(bytes) => JString(MakeValid(bytes))
    case Vec(components) => VecJson(components)
    case Matrix(rows) => JArray(seq(|rows|, i requires 0 <= i < |rows| => VecJson(rows[i])))
    case Quaternion(r, i) => JObject([("real", ScalarJson(r)), ("imaginary", VecJson(i))])
    case NumberRange(a, b) => JObject([("min", ScalarJson(a)), ("max", ScalarJson(b))])
    case VecRange(a, b) => JObject([("min", VecJson(a)), ("max", VecJson(b))])
    case Sequence(values) => JArray(seq(|values|, i requires 0 <= i < |values| => Normalized(values[i])))
    case Dictionary(entries) =>
      JObject(seq(|entries|, i requires 0 <= i < |entries| => (MakeValid(entries[i].0), Normalized(entries[i].1))))
  }

  /** Followed by a comma or a closing bracket, the text reads as the value. */
  ghost predicate Reads(text: string, json: Json) {
    forall rest :: Delimits(rest) ==> ReadValue(text + rest) == Some((json, rest))
  }

  lemma ReadsStarts(text: string, json: Json)
    requires Reads(text, json)
    ensures text != "" && !IsWhitespace(text[0]) && text[0] != ']' && text[0] != '}'
  {
    assert ReadValue(text + ",") == Some((json, ","));
    assert "" + "," == ",";
  }

  lemma {:induction false} JoinCons(texts: seq<string>)
    requires |texts| > 1
    ensures Join(texts) == texts[0] + "," + Join(texts[1..])
  {
    if |texts| > 2 {
      JoinCons(texts[..|texts| - 1]);
      assert texts[..|texts| - 1][1..] == texts[1..][..|texts[1..]| - 1];
    }
  }

  /** One element, and what follows it. */
  lemma ElementReads(text: string, json: Json, after: string)
    requires Reads(text, json) && Delimits(after)
    ensures after[0] == ']' ==> ReadElements(text + after) == Some(([json], after[1..]))
    ensures after[0] == ',' ==>
              var more := ReadElements(SkipWhitespace(after[1..]));
              more.Some? ==> ReadElements(text + after) == Some(([json] + more.value.0, more.value.1))
  {
  }

  lemma JoinStarts(texts: seq<string>)
    requires |texts| > 0 && texts[0] != ""
    ensures Join(texts) != "" && Join(texts)[0] == texts[0][0]
  {
  }

  lemma {:induction false} ElementsRead(texts: seq<string>, jsons: seq<Json>, rest: string)
    requires |texts| == |jsons| > 0
    requires forall i :: 0 <= i < |texts| ==> Reads(texts[i], jsons[i])
    ensures ReadElements(Join(texts) + "]" + rest) == Some((jsons, rest))
  {
    hide ReadElements, Reads;
    var s := Join(texts) + "]" + rest;
    if |texts| == 1 {
      var after := "]" + rest;
      assert s == texts[0] + after;
      ElementReads(texts[0], jsons[0], after);
      assert after[1..] == rest && [jsons[0]] == jsons;
    } else {
      JoinCons(texts);
      var more := Join(texts[1..]) + "]" + rest;
      var after := "," + more;
      assert s == texts[0] + after;
      assert after[1..] == more;
      ReadsStarts(texts[1], jsons[1]);
      JoinStarts(texts[1..]);
      ElementsRead(texts[1..], jsons[1..], rest);
      ElementReads(texts[0], jsons[0], after);
      assert jsons == [jsons[0]] + jsons[1..];
    }
  }

  lemma ArrayReads(texts: seq<string>, jsons: seq<Json>, rest: string)
    requires |texts| == |jsons|
    requires forall i :: 0 <= i < |texts| ==> Reads(texts[i], jsons[i])
    ensures ReadValue("[" + Join(texts) + "]" + rest) == Some((JArray(jsons), rest))
  {
    var s := "[" + Join(texts) + "]" + rest;
    assert s[1..] == Join(texts) + "]" + rest;
    if |texts| == 0 {
      assert s[1..][1..] == rest;
    } else {
      hide ReadElements, Reads, Join;
      ReadsStarts(texts[0], jsons[0]);
      JoinStarts(texts);
      ElementsRead(texts, jsons, rest);
    }
  }

  // ---------------------------------------------------------------- objects

  function MemberTexts(keys: seq<string>, texts: seq<string>): seq<string>
    requires |keys| == |texts|
  {
    seq(|keys|, i requires 0 <= i < |keys| => MemberText(keys[i], texts[i]))
  }

  function Members(keys: seq<string>, jsons: seq<Json>): seq<(string, Json)>
    requires |keys| == |jsons|
  {
    seq(|keys|, i requires 0 <= i < |keys| => (MakeValid(keys[i]), jsons[i]))
  }

  /** One member, and what follows it. */
  lemma MemberReads(key: string, text: string, json: Json, after: string)
    requires Reads(text, json) && Delimits(after)
    ensures var s := MemberText(key, text) + after;
            var member := (MakeValid(key), json);
            && (after[0] == '}' ==> ReadMembers(s) == Some(([member], after[1..])))
            && (after[0] == ',' ==>
                  var more := ReadMembers(SkipWhitespace(after[1..]));
                  more.Some? ==> ReadMembers(s) == Some(([member] + more.value.0, more.value.1)))
  {
    hide ReadValue, ReadBody, Escape, MakeValid;
    var s := MemberText(key, text) + after;
    var colon := ":" + text + after;
    ReadsStarts(text, json);
    EscapedReads(MakeValid(key), colon);
    assert s[1..] == Escape(MakeValid(key)) + "\"" + colon;
    assert SkipWhitespace(colon) == colon;
    assert colon[1..] == text + after;
    assert SkipWhitespace(text + after) == text + after;
    assert ReadValue(text + after) == Some((json, after));
    assert SkipWhitespace(after) == after;
  }

  lemma MemberStarts(key: string, text: string)
    ensures MemberText(key, text) != "" && MemberText(key, text)[0] == '"'
  {
  }

  lemma {:induction false} MembersRead(keys: seq<string>, texts: seq<string>, jsons: seq<Json>, rest: string)
    requires |keys| == |texts| == |jsons| > 0
    requires forall i :: 0 <= i < |texts| ==> Reads(texts[i], jsons[i])
    ensures ReadMembers(Join(MemberTexts(keys, texts)) + "}" + rest) == Some((Members(keys, jsons), rest))
  {
    hide ReadMembers, Reads, MemberText, MakeValid;
    var all := MemberTexts(keys, texts);
    var s := Join(all) + "}" + rest;
    if |texts| == 1 {
      var after := "}" + rest;
      assert s == MemberText(keys[0], texts[0]) + after;
      MemberReads(keys[0], texts[0], jsons[0], after);
      assert after[1..] == rest;
      assert Members(keys, jsons) == [(MakeValid(keys[0]), jsons[0])];
    } else {
      JoinCons(all);
      assert all[1..] == MemberTexts(keys[1..], texts[1..]);
      var more := Join(all[1..]) + "}" + rest;
      var after := "," + more;
      assert s == MemberText(keys[0], texts[0]) + after;
      assert after[1..] == more;
      MemberStarts(keys[1], texts[1]);
      JoinStarts(all[1..]);
      assert SkipWhitespace(more) == more;
      MembersRead(keys[1..], texts[1..], jsons[1..], rest);
      MemberReads(keys[0], texts[0], jsons[0], after);
      assert Members(keys, jsons) == [(MakeValid(keys[0]), jsons[0])] + Members(keys[1..], jsons[1..]);
    }
  }

  lemma ObjectReads(keys: seq<string>, texts: seq<string>, jsons: seq<Json>, rest: string)
    requires |keys| == |texts| == |jsons|
    requires forall i :: 0 <= i < |texts| ==> Reads(texts[i], jsons[i])
    ensures ReadValue("{" + Join(MemberTexts(keys, texts)) + "}" + rest) == Some((JObject(Members(keys, jsons)), rest))
  {
    hide ReadMembers, Reads, MemberText, MakeValid;
    var all := MemberTexts(keys, texts);
    var s := "{" + Join(all) + "}" + rest;
    assert s[1..] == Join(all) + "}" + rest;
    if |texts| == 0 {
      assert s[1..] == "}" + rest && s[1..][1..] == rest;
      assert Members(keys, jsons) == [];
    } else {
      MemberStarts(keys[0], texts[0]);
      JoinStarts(all);
      MembersRead(keys, texts, jsons, rest);
      assert SkipWhitespace(s[1..]) == s[1..];
    }
  }

  // ---------------------------------------------------------------- round trip

  /** Whether a value is written as a number. */
  predicate IsNumeric(v: Value) {
    v.Number? && !v.number.NonFinite?
  }

  lemma ScalarReads(s: Scalar, rest: string)
    ensures ReadValue(ScalarText(s) + rest) == Some((ScalarJson(s), rest)) <==>
            s.NonFinite? || !Continues(ScalarText(s), rest)
  {
    match s
    case IntScalar(n) => IntTextIsNumber(n); NumberReads(IntText(n), rest);
    case NonFinite => assert ("null" + rest)[4..] == rest && ("null" + rest)[..4] == "null";
    case Finite(text) => NumberReads(text, rest);
  }

  lemma ScalarsRead(s: seq<Scalar>)
    ensures forall i :: 0 <= i < |s| ==> Reads(ScalarTexts(s)[i], ScalarJson(s[i]))
  {
    forall i, rest | 0 <= i < |s| && Delimits(rest)
      ensures ReadValue(ScalarTexts(s)[i] + rest) == Some((ScalarJson(s[i]), rest))
    {
      ScalarReads(s[i], rest);
      DelimitersEnd(ScalarText(s[i]), rest);
    }
  }

  lemma VecReads(s: seq<Scalar>, rest: string)
    ensures ReadValue(VecText(s) + rest) == Some((VecJson(s), rest))
  {
    ScalarsRead(s);
    ArrayReads(ScalarTexts(s), VecJson(s).elements, rest);
  }

  lemma MatrixReads(rows: seq<seq<Scalar>>, rest: string)
    ensures ReadValue(TextOf(Matrix(rows)) + rest) == Some((Normalized(Matrix(rows)), rest))
  {
    var jsons := seq(|rows|, i requires 0 <= i < |rows| => VecJson(rows[i]));
    forall i, after | 0 <= i < |rows| && Delimits(after)
      ensures ReadValue(VecTexts(rows)[i] + after) == Some((jsons[i], after))
    {
      VecReads(rows[i], after);
    }
    ArrayReads(VecTexts(rows), jsons, rest);
  }

  lemma FieldIsMember(a: string, x: string)
    requires MakeValid(a) == a && Escape(a) == a
    ensures MemberText(a, x) == FieldText(a, x)
  {
  }

  /** An object with two fields whose names need no escaping. */
  lemma FieldsRead(a: string, x: string, jx: Json, b: string, y: string, jy: Json, rest: string)
    requires MakeValid(a) == a && Escape(a) == a && MakeValid(b) == b && Escape(b) == b
    requires Reads(x, jx) && Reads(y, jy)
    ensures ReadValue(FieldsText(a, x, b, y) + rest) == Some((JObject([(a, jx), (b, jy)]), rest))
  {
    hide ReadValue, Reads, MemberText, FieldText, Escape, MakeValid;
    var keys, texts, jsons := [a, b], [x, y], [jx, jy];
    ObjectReads(keys, texts, jsons, rest);
    FieldIsMember(a, x);
    FieldIsMember(b, y);
    var all := MemberTexts(keys, texts);
    assert all == [FieldText(a, x), FieldText(b, y)];
    assert all[..1] == [FieldText(a, x)];
    assert Join(all) == FieldText(a, x) + "," + FieldText(b, y);
    assert Members(keys, jsons) == [(a, jx), (b, jy)];
  }

  lemma {:induction false} PlainText(s: string)
    requires forall i :: 0 <= i < |s| ==> 'a' <= s[i] <= 'z'
    ensures MakeValid(s) == s && Escape(s) == s
  {
    AsciiValid(s);
    MakeValidHolds(s);
    if s == "" {
    } else {
      PlainText(s[1..]);
    }
  }

  lemma ScalarTextReads(s: Scalar)
    ensures Reads(ScalarText(s), ScalarJson(s))
  {
    forall rest | Delimits(rest) ensures ReadValue(ScalarText(s) + rest) == Some((ScalarJson(s), rest)) {
      ScalarReads(s, rest);
      DelimitersEnd(ScalarText(s), rest);
    }
  }

  lemma VecTextReads(s: seq<Scalar>)
    ensures Reads(VecText(s), VecJson(s))
  {
    forall rest | Delimits(rest) ensures ReadValue(VecText(s) + rest) == Some((VecJson(s), rest)) {
      VecReads(s, rest);
    }
  }

  lemma WordsRead(rest: string)
    ensures ReadValue("null" + rest) == Some((JNull, rest))
    ensures ReadValue("true" + rest) == Some((JBool(true), rest))
    ensures ReadValue("false" + rest) == Some((JBool(false), rest))
  {
  }

  lemma StringReads(s: string, rest: string)
    ensures ReadValue(StringText(s) + rest) == Some((JString(MakeValid(s)), rest))
  {
    hide ReadBody, Escape, MakeValid;
    EscapedReads(MakeValid(s), rest);
    assert (StringText(s) + rest)[1..] == Escape(MakeValid(s)) + "\"" + rest;
  }

  /** A reader consumes exactly the text of a value, and gets the value, whatever follows the text; except that a number
      must not be followed by what makes a longer number of it. */
  lemma {:induction false} RoundTrip(v: Value, rest: string)
    ensures ReadValue(TextOf(v) + rest) == Some((Normalized(v), rest)) <==>
            !(IsNumeric(v) && Continues(TextOf(v), rest))
    decreases v, 2
  {
    hide ReadValue, ScalarText, VecText, StringText, FieldsText, Join, ScalarJson, VecJson, Continues, MakeValid,
         Escape,
         Reads;
    match v
    case Empty => WordsRead(rest);
    case Boolean(b) => WordsRead(rest);
    case Number(s) => ScalarReads(s, rest);
    case Text(bytes) => StringReads(bytes, rest);
    case Vec(components) => VecReads(components, rest);
    case Matrix(rows) => MatrixReads(rows, rest);
    case Quaternion(r, i) =>
      PlainText("real"); PlainText("imaginary"); ScalarTextReads(r); VecTextReads(i);
      FieldsRead("real", ScalarText(r), ScalarJson(r), "imaginary", VecText(i), VecJson(i), rest);
    case NumberRange(a, b) =>
      PlainText("min"); PlainText("max"); ScalarTextReads(a); ScalarTextReads(b);
      FieldsRead("min", ScalarText(a), ScalarJson(a), "max", ScalarText(b), ScalarJson(b), rest);
    case VecRange(a, b) =>
      PlainText("min"); PlainText("max"); VecTextReads(a); VecTextReads(b);
      FieldsRead("min", VecText(a), VecJson(a), "max", VecText(b), VecJson(b), rest);
    case Sequence(values) => SequenceReads(v, rest);
    case Dictionary(entries) => DictionaryReads(v, rest);
  }

  lemma {:induction false} ValueReads(v: Value)
    ensures Reads(TextOf(v), Normalized(v))
    decreases v, 3
  {
    forall rest | Delimits(rest) ensures ReadValue(TextOf(v) + rest) == Some((Normalized(v), rest)) {
      RoundTrip(v, rest);
      DelimitersEnd(TextOf(v), rest);
    }
  }

  /** Wherever a value is printed (as a whole text, or before a comma or the closing bracket of a value around it), it
      reads back: only there is it followed by anything. */
  lemma PrintedReads(v: Value, rest: string)
    requires rest == "" || Delimits(rest)
    ensures ReadValue(TextOf(v) + rest) == Some((Normalized(v), rest))
  {
    RoundTrip(v, rest);
    DelimitersEnd(TextOf(v), rest);
  }

  lemma {:induction false} SequenceReads(v: Value, rest: string)
    requires v.Sequence?
    ensures ReadValue(TextOf(v) + rest) == Some((Normalized(v), rest))
    decreases v, 1
  {
    hide ReadValue, Reads, Join;
    var values := v.values;
    var texts := seq(|values|, i requires 0 <= i < |values| => TextOf(values[i]));
    var jsons := seq(|values|, i requires 0 <= i < |values| => Normalized(values[i]));
    forall i | 0 <= i < |values| ensures Reads(texts[i], jsons[i]) {
      ValueReads(values[i]);
    }
    ArrayReads(texts, jsons, rest);
  }

  lemma {:induction false} DictionaryReads(v: Value, rest: string)
    requires v.Dictionary?
    ensures ReadValue(TextOf(v) + rest) == Some((Normalized(v), rest))
    decreases v, 1
  {
    hide ReadValue, Reads, Join, MemberText, MakeValid;
    var entries := v.entries;
    var keys := seq(|entries|, i requires 0 <= i < |entries| => entries[i].0);
    var texts := seq(|entries|, i requires 0 <= i < |entries| => TextOf(entries[i].1));
    var jsons := seq(|entries|, i requires 0 <= i < |entries| => Normalized(entries[i].1));
    forall i | 0 <= i < |entries| ensures Reads(texts[i], jsons[i]) {
      ValueReads(entries[i].1);
    }
    ObjectReads(keys, texts, jsons, rest);
    assert MemberTexts(keys, texts) ==
      seq(|entries|, i requires 0 <= i < |entries| => MemberText(entries[i].0, TextOf(entries[i].1)));
    assert Members(keys, jsons) ==
      seq(|entries|, i requires 0 <= i < |entries| => (MakeValid(entries[i].0), Normalized(entries[i].1)));
  }
}
