/** How a JSON text is read (sections 3 to 7 of RFC 8259), and that `JSON.stringify` writes texts that
    read as the value. */
module JsonReading {
  import opened JsonText

  // ----- reading

  function HexValue(c: char): int {
    if '0' <= c <= '9' then c as int - '0' as int
    else if 'a' <= c <= 'f' then c as int - 'a' as int + 10
    else if 'A' <= c <= 'F' then c as int - 'A' as int + 10
    else -1
  }

  /** The letter after a backslash stands for the character. */
  predicate Named(letter: char, c: char) {
    || (letter == '"' && c == '"') || (letter == '\\' && c == '\\') || (letter == '/' && c == '/')
    || (letter == 'b' && c as int == 8) || (letter == 't' && c as int == 9) || (letter == 'n' && c as int == 10)
    || (letter == 'f' && c as int == 12) || (letter == 'r' && c as int == 13)
  }

  /** Section 7: the piece stands for the character, by itself, by a letter or by four hexadecimal digits. */
  predicate ReadsChar(p: string, c: char) {
    || (p == [c] && c as int >= 32 && c != '"' && c != '\\')
    || (|p| == 2 && p[0] == '\\' && Named(p[1], c))
    || (|p| == 6 && p[0] == '\\' && p[1] == 'u'
        && (forall i :: 2 <= i < 6 ==> HexValue(p[i]) >= 0)
        && ((HexValue(p[2]) * 16 + HexValue(p[3])) * 16 + HexValue(p[4])) * 16 + HexValue(p[5]) == c as int)
  }

  ghost predicate ReadsChars(t: string, s: string) {
    if s == "" then t == ""
    else exists n: nat :: n <= |t| && ReadsChar(t[..n], s[0]) && ReadsChars(t[n..], s[1..])
  }

  ghost predicate ReadsString(t: string, s: string) {
    |t| >= 2 && t[0] == '"' && t[|t| - 1] == '"' && ReadsChars(t[1..|t| - 1], s)
  }

  /** Section 3: the text is one of the value. */
  ghost predicate Reads(t: string, v: Value)
    decreases v
  {
    match v
    case Null => t == "null"
    case Undefined => false
    case Bool(b) => t == if b then "true" else "false"
    case Num(numeral) => t == numeral
    case Str(s) => ReadsString(t, s)
    case Arr(items) => |t| >= 2 && t[0] == '[' && t[|t| - 1] == ']' && ReadsItems(t[1..|t| - 1], items)
    case Obj(fs) => |t| >= 2 && t[0] == '{' && t[|t| - 1] == '}' && ReadsFields(t[1..|t| - 1], fs)
  }

  /** Section 5: values with commas between them. */
  ghost predicate ReadsItems(t: string, items: seq<Value>)
    decreases items
  {
    if items == [] then t == ""
    else if |items| == 1 then Reads(t, items[0])
    else exists n: nat :: n < |t| && t[n] == ',' && Reads(t[..n], items[0]) && ReadsItems(t[n + 1..], items[1..])
  }

  /** Section 4: a name, a colon and a value. */
  ghost predicate ReadsField(t: string, f: Field)
    decreases f
  {
    exists n: nat :: n < |t| && t[n] == ':' && ReadsString(t[..n], f.key) && Reads(t[n + 1..], f.value)
  }

  ghost predicate ReadsFields(t: string, fs: seq<Field>)
    decreases fs
  {
    if fs == [] then t == ""
    else if |fs| == 1 then ReadsField(t, fs[0])
    else exists n: nat :: n < |t| && t[n] == ',' && ReadsField(t[..n], fs[0]) && ReadsFields(t[n + 1..], fs[1..])
  }

  // ----- what is written

  lemma {:induction false} HexDigitValue(n: nat)
    requires n < 16
    ensures HexValue(HexDigit(n)) == n
  {
  }

  lemma {:induction false} EscapeReads(c: char)
    ensures ReadsChar(Escape(c), c)
  {
    var n := c as int;
    if ShortEscape(c) == "" && n < 32 {
      HexDigitValue(n / 16);
      HexDigitValue(n % 16);
      var p := Escape(c);
      assert p[0] == '\\' && p[1] == 'u' && p[2] == '0' && p[3] == '0' && p[4] == HexDigit(n / 16) && p[5] == HexDigit(n % 16);
    }
  }

  lemma {:induction false} EscapeAllReads(s: string)
    ensures ReadsChars(EscapeAll(s), s)
  {
    hide Escape, ReadsChar;
    if s != "" {
      EscapeReads(s[0]);
      EscapeAllReads(s[1..]);
      var p, t := Escape(s[0]), EscapeAll(s);
      assert t[..|p|] == p && t[|p|..] == EscapeAll(s[1..]);
    }
  }

  lemma {:induction false} QuoteReads(s: string)
    ensures ReadsString(Quote(s), s)
  {
    EscapeAllReads(s);
    var t := Quote(s);
    assert t[1..|t| - 1] == EscapeAll(s);
  }

  /** The text written for a value reads as that value. */
  lemma {:induction false} StringifyReads(v: Value)
    requires Json(v)
    ensures Reads(Stringify(v), v)
    decreases v
  {
    match v
    case Str(s) => QuoteReads(s);
    case Arr(items) =>
      ItemsRead(items);
      var t := Stringify(v);
      assert t[1..|t| - 1] == ItemsText(items);
    case Obj(fs) =>
      FieldsRead(fs);
      var t := Stringify(v);
      assert t[1..|t| - 1] == FieldsText(fs);
    case _ =>
  }

  lemma {:induction false} ItemsRead(items: seq<Value>)
    requires forall i :: 0 <= i < |items| ==> Json(items[i])
    ensures ReadsItems(ItemsText(items), items)
    decreases items
  {
    if items != [] {
      StringifyReads(items[0]);
      ItemsRead(items[1..]);
      hide Stringify, Reads, Json;
      if |items| > 1 {
        var p, t := Stringify(items[0]), ItemsText(items);
        assert t == p + "," + ItemsText(items[1..]);
        assert t[|p|] == ',' && t[..|p|] == p && t[|p| + 1..] == ItemsText(items[1..]);
      }
    }
  }

  lemma {:induction false} FieldReads(f: Field)
    requires Json(f.value)
    ensures ReadsField(FieldText(f), f)
    decreases f
  {
    QuoteReads(f.key);
    StringifyReads(f.value);
    hide Stringify, Reads, Quote, ReadsString, Json;
    var p, t := Quote(f.key), FieldText(f);
    assert t == p + ":" + Stringify(f.value);
    assert t[|p|] == ':' && t[..|p|] == p && t[|p| + 1..] == Stringify(f.value);
  }

  lemma {:induction false} FieldsRead(fs: seq<Field>)
    requires forall i :: 0 <= i < |fs| ==> Json(fs[i].value)
    ensures ReadsFields(FieldsText(fs), fs)
    decreases fs
  {
    if fs != [] {
      FieldReads(fs[0]);
      FieldsRead(fs[1..]);
      FieldsJoined(fs);
      hide FieldText, FieldsText, ReadsField, Json;
      if |fs| > 1 {
        var p, t := FieldText(fs[0]), FieldsText(fs);
        assert t[|p|] == ',' && t[..|p|] == p && t[|p| + 1..] == FieldsText(fs[1..]);
      }
    }
  }

  lemma {:induction false} FieldsJoined(fs: seq<Field>)
    requires fs != [] && forall i :: 0 <= i < |fs| ==> Json(fs[i].value)
    ensures FieldsText(fs) == if |fs| == 1 then FieldText(fs[0]) else FieldText(fs[0]) + "," + FieldsText(fs[1..])
  {
    assert fs[0].value != Undefined;
    if |fs| > 1 {
      assert fs[1..][0] == fs[1] && fs[1].value != Undefined;
      hide Stringify;
    } else {
      assert fs[1..] == [];
    }
  }
}
