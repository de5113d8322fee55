/** The writer, which appends to a shared buffer, and the promise that what it writes is valid UTF-8. */
module UsdJson {
  import opened UsdJsonText
  import opened UsdJsonProofs

  // ---------------------------------------------------------------- valid UTF-8

  lemma {:induction false} JoinValid(texts: seq<string>)
    requires forall i :: 0 <= i < |texts| ==> ValidUtf8(texts[i])
    ensures ValidUtf8(Join(texts))
  {
    if |texts| > 1 {
      var front := texts[..|texts| - 1];
      JoinValid(front);
      AsciiValid(",");
      ValidAppend(Join(front), ",");
      ValidAppend(Join(front) + ",", texts[|texts| - 1]);
    }
  }

  lemma BracketsValid(open: string, text: string, close: string)
    requires |open| == |close| == 1 && open[0] as int < 0x80 && close[0] as int < 0x80 && ValidUtf8(text)
    ensures ValidUtf8(open + text + close)
  {
    AsciiValid(open);
    AsciiValid(close);
    ValidAppend(open, text);
    ValidAppend(open + text, close);
  }

  lemma ScalarValid(s: Scalar)
    ensures ValidUtf8(ScalarText(s))
  {
    if s.IntScalar? { IntTextIsNumber(s.n); }
    if !s.NonFinite? { NumberChars(ScalarText(s)); }
    AsciiValid(ScalarText(s));
  }

  lemma VecValid(s: seq<Scalar>)
    ensures ValidUtf8(VecText(s))
  {
    forall i | 0 <= i < |s| ensures ValidUtf8(ScalarTexts(s)[i]) { ScalarValid(s[i]); }
    JoinValid(ScalarTexts(s));
    BracketsValid("[", Join(ScalarTexts(s)), "]");
  }

  lemma MemberValid(key: string, text: string)
    requires ValidUtf8(text)
    ensures ValidUtf8(MemberText(key, text))
  {
    StringTextValid(key);
    AsciiValid(":");
    ValidAppend(StringText(key), ":");
    ValidAppend(StringText(key) + ":", text);
  }

  lemma FieldsValid(a: string, x: string, b: string, y: string)
    requires forall i :: 0 <= i < |a| ==> 'a' <= a[i] <= 'z'
    requires forall i :: 0 <= i < |b| ==> 'a' <= b[i] <= 'z'
    requires ValidUtf8(x) && ValidUtf8(y)
    ensures ValidUtf8(FieldsText(a, x, b, y))
  {
    PlainText(a);
    PlainText(b);
    FieldIsMember(a, x);
    FieldIsMember(b, y);
    MemberValid(a, x);
    MemberValid(b, y);
    AsciiValid(",");
    ValidAppend(FieldText(a, x), ",");
    ValidAppend(FieldText(a, x) + ",", FieldText(b, y));
    BracketsValid("{", FieldText(a, x) + "," + FieldText(b, y), "}");
  }

  /** Whatever bytes a value holds, its text is valid UTF-8. */
  lemma {:induction false} TextValid(v: Value)
    ensures ValidUtf8(TextOf(v))
    decreases v
  {
    hide ValidUtf8, VecText, ScalarText, Join, StringText, FieldsText;
    match v
    case Empty => AsciiValid("null");
    case Boolean(b) => AsciiValid(TextOf(v));
    case Number(s) => ScalarValid(s);
    case Text(bytes) => StringTextValid(bytes);
    case Vec(components) => VecValid(components);
    case Matrix(rows) =>
      forall i | 0 <= i < |rows| ensures ValidUtf8(VecTexts(rows)[i]) { VecValid(rows[i]); }
      JoinValid(VecTexts(rows));
      BracketsValid("[", Join(VecTexts(rows)), "]");
    case Quaternion(r, i) =>
      ScalarValid(r); VecValid(i);
      FieldsValid("real", ScalarText(r), "imaginary", VecText(i));
    case NumberRange(a, b) =>
      ScalarValid(a); ScalarValid(b);
      FieldsValid("min", ScalarText(a), "max", ScalarText(b));
    case VecRange(a, b) =>
      VecValid(a); VecValid(b);
      FieldsValid("min", VecText(a), "max", VecText(b));
    case Sequence(values) =>
      var texts := seq(|values|, i requires 0 <= i < |values| => TextOf(values[i]));
      forall i | 0 <= i < |texts| ensures ValidUtf8(texts[i]) { TextValid(values[i]); }
      JoinValid(texts);
      BracketsValid("[", Join(texts), "]");
    case Dictionary(entries) =>
      var texts := seq(|entries|, i requires 0 <= i < |entries| => MemberText(entries[i].0, TextOf(entries[i].1)));
      forall i | 0 <= i < |texts| ensures ValidUtf8(texts[i]) {
        TextValid(entries[i].1);
        MemberValid(entries[i].0, TextOf(entries[i].1));
      }
      JoinValid(texts);
      BracketsValid("{", Join(texts), "}");
  }

  // ---------------------------------------------------------------- the writer

  lemma JoinSnoc(texts: seq<string>, text: string)
    ensures Join(texts + [text]) == if texts == [] then text else Join(texts) + "," + text
  {
  }

  lemma EscapeSnoc(data: string, i: nat)
    requires i < |data|
    ensures Escape(data[..i + 1]) == Escape(data[..i]) + EscapeByte(data[i])
  {
    EscapeAppend(data[..i], [data[i]]);
    assert data[..i + 1] == data[..i] + [data[i]];
    assert Escape([data[i]]) == EscapeByte(data[i]) + Escape([data[i]][1..]);
  }

  lemma EscapeEnds(data: string)
    ensures Escape(data[..0]) == "" && data[..|data|] == data
  {
  }

  lemma TextsSnoc(texts: seq<string>, i: nat)
    requires i < |texts|
    ensures Join(texts[..i + 1]) == if i == 0 then texts[i] else Join(texts[..i]) + "," + texts[i]
  {
    JoinSnoc(texts[..i], texts[i]);
    assert texts[..i + 1] == texts[..i] + [texts[i]];
  }

  lemma AllTexts(texts: seq<string>)
    ensures Join(texts[..0]) == "" && texts[..|texts|] == texts
  {
  }

  lemma FieldsAssoc(before: string, a: string, x: string, b: string, y: string)
    ensures before + ("{\"" + a + "\":") + x + (",\"" + b + "\":") + y + "}" == before + FieldsText(a, x, b, y)
  {
  }

  class Writer {
    var out: string

    constructor ()
      ensures out == ""
    {
      out := "";
    }

    method AppendNumber(s: Scalar)
      modifies this
      ensures out == old(out) + ScalarText(s)
    {
      match s
      case NonFinite => out := out + "null";
      case IntScalar(n) => out := out + IntText(n);
      case Finite(text) => out := out + text;
    }

    /** Appends a string literal, a byte at a time. */
    method AppendString(value: string)
      modifies this
      ensures out == old(out) + StringText(value)
    {
      var data := value;
      if !ValidUtf8(value) {
        data := MakeValid(value);
      }
      MakeValidHolds(value);
      hide MakeValid, ValidUtf8, Escape;
      out := out + "\"";
      AppendEscaped(data);
      out := out + "\"";
    }

    method AppendEscaped(data: string)
      modifies this
      ensures out == old(out) + Escape(data)
    {
      hide *;
      EscapeEnds(data);
      ghost var before := out;
      for i := 0 to |data|
        invariant out == before + Escape(data[..i])
      {
        EscapeSnoc(data, i);
        Concat(before, Escape(data[..i]), EscapeByte(data[i]));
        AppendByte(data[i]);
      }
    }

    method AppendByte(c: char)
      modifies this
      ensures out == old(out) + EscapeByte(c)
    {
      match c
      case '"' => out := out + "\\\"";
      case '\\' => out := out + "\\\\";
      case '\n' => out := out + "\\n";
      case '\r' => out := out + "\\r";
      case '\t' => out := out + "\\t";
      case _ =>
        if c as int < 0x20 {
          out := out + "\\u00";
          out := out + [HEX[c as int / 16]];
          out := out + [HEX[c as int % 16]];
        } else {
          out := out + [c];
        }
    }

    method AppendVec(components: seq<Scalar>)
      modifies this
      ensures out == old(out) + VecText(components)
    {
      ghost var texts := ScalarTexts(components);
      AllTexts(texts);
      hide ScalarText, Join;
      out := out + "[";
      for i := 0 to |components|
        invariant out == old(out) + ("[" + Join(texts[..i]))
      {
        TextsSnoc(texts, i);
        if i > 0 {
          out := out + ",";
        }
        AppendNumber(components[i]);
      }
      out := out + "]";
    }

    method AppendMatrix(rows: seq<seq<Scalar>>)
      modifies this
      ensures out == old(out) + "[" + Join(VecTexts(rows)) + "]"
    {
      ghost var texts := VecTexts(rows);
      AllTexts(texts);
      hide VecText, Join;
      out := out + "[";
      for i := 0 to |rows|
        invariant out == old(out) + ("[" + Join(texts[..i]))
      {
        TextsSnoc(texts, i);
        if i > 0 {
          out := out + ",";
        }
        AppendVec(rows[i]);
      }
      out := out + "]";
    }

    /** UsdJson::Append */
    method Append(value: Value)
      modifies this
      ensures out == old(out) + TextOf(value)
      decreases value, 1
    {
      hide ScalarText, VecText, StringText, Join, FieldsText;
      match value
      case Empty => out := out + "null";
      case Boolean(b) => out := out + (if b then "true" else "false");
      case Number(s) => AppendNumber(s);
      case Text(bytes) => AppendString(bytes);
      case Vec(components) => AppendVec(components);
      case Matrix(rows) => AppendMatrix(rows);
      case Quaternion(r, i) =>
        AppendFirst("real");
        AppendNumber(r);
        AppendSecond("imaginary");
        AppendVec(i);
        out := out + "}";
        FieldsAssoc(old(out), "real", ScalarText(r), "imaginary", VecText(i));
      case NumberRange(a, b) =>
        AppendFirst("min");
        AppendNumber(a);
        AppendSecond("max");
        AppendNumber(b);
        out := out + "}";
        FieldsAssoc(old(out), "min", ScalarText(a), "max", ScalarText(b));
      case VecRange(a, b) =>
        AppendFirst("min");
        AppendVec(a);
        AppendSecond("max");
        AppendVec(b);
        out := out + "}";
        FieldsAssoc(old(out), "min", VecText(a), "max", VecText(b));
      case Sequence(values) => AppendSequence(value);
      case Dictionary(entries) => AppendDictionary(value);
    }

    method AppendFirst(name: string)
      modifies this
      ensures out == old(out) + ("{\"" + name + "\":")
    {
      out := out + ("{\"" + name + "\":");
    }

    method AppendSecond(name: string)
      modifies this
      ensures out == old(out) + (",\"" + name + "\":")
    {
      out := out + (",\"" + name + "\":");
    }

    method AppendSequence(value: Value)
      requires value.Sequence?
      modifies this
      ensures out == old(out) + TextOf(value)
      decreases value, 0
    {
      hide Join;
      var values := value.values;
      ghost var texts := seq(|values|, i requires 0 <= i < |values| => TextOf(values[i]));
      out := out + "[";
      AllTexts(texts);
      for i := 0 to |values|
        invariant out == old(out) + "[" + Join(texts[..i])
      {
        TextsSnoc(texts, i);
        if i > 0 {
          out := out + ",";
        }
        Append(values[i]);
      }
      out := out + "]";
    }

    method AppendMember(entry: (string, Value))
      modifies this
      ensures out == old(out) + MemberText(entry.0, TextOf(entry.1))
      decreases entry, 2
    {
      hide StringText, TextOf;
      AppendString(entry.0);
      out := out + ":";
      Append(entry.1);
    }

    method AppendDictionary(value: Value)
      requires value.Dictionary?
      modifies this
      ensures out == old(out) + TextOf(value)
      decreases value, 0
    {
      hide Join, StringText, Escape, MakeValid;
      var entries := value.entries;
      ghost var texts := seq(|entries|, i requires 0 <= i < |entries| =>
        MemberText(entries[i].0, TextOf(entries[i].1)));
      out := out + "{";
      AllTexts(texts);
      var first := true;
      for i := 0 to |entries|
        invariant first <==> i == 0
        invariant out == old(out) + "{" + Join(texts[..i])
      {
        TextsSnoc(texts, i);
        if !first {
          out := out + ",";
        }
        first := false;
        AppendMember(entries[i]);
      }
      out := out + "}";
    }
  }
}
