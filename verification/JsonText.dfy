/** JSON values and the text `JSON.stringify` gives them.
    The main results: the text determines the value, and a text never shows a bar or a
    backslash outside its string literals. */
module JsonText {

  /** A property whose value is `Undefined` is left out of the text. */
  datatype Value =
    | Null
    | Undefined
    | Bool(b: bool)
    | Num(numeral: string)
    | Str(s: string)
    | Arr(items: seq<Value>)
    | Obj(fields: seq<Field>)

  datatype Field = Field(key: string, value: Value)

  predicate IsNumeralChar(c: char) {
    '0' <= c <= '9' || c in "-+.e"
  }

  /** Numbers are represented by the numeral the language prints for them. */
  predicate IsNumeral(t: string) {
    && t != []
    && (t[0] == '-' || '0' <= t[0] <= '9')
    && forall i :: 0 <= i < |t| ==> IsNumeralChar(t[i])
  }

  predicate DistinctKeys(fs: seq<Field>) {
    forall i, j :: 0 <= i < j < |fs| ==> fs[i].key != fs[j].key
  }

  /** What an object literal can be: keys differ, and list entries are not undefined. */
  ghost predicate WellFormed(v: Value) {
    match v
    case Num(t) => IsNumeral(t)
    case Arr(items) => forall i :: 0 <= i < |items| ==> items[i] != Undefined && WellFormed(items[i])
    case Obj(fs) => DistinctKeys(fs) && forall i :: 0 <= i < |fs| ==> WellFormed(fs[i].value)
    case _ => true
  }

  /** A well-formed value without an undefined part: one that parsing can yield. */
  ghost predicate Json(v: Value) {
    match v
    case Undefined => false
    case Num(t) => IsNumeral(t)
    case Arr(items) => forall i :: 0 <= i < |items| ==> Json(items[i])
    case Obj(fs) => forall i :: 0 <= i < |fs| ==> Json(fs[i].value)
    case _ => true
  }

  function HexDigit(n: nat): char
    requires n < 16
  {
    "0123456789abcdef"[n]
  }

  /** The letter of a two-character escape, or nothing. */
  function ShortEscape(c: char): string {
    var n := c as int;
    if c == '"' then "\""
    else if c == '\\' then "\\"
    else if n == 8 then "b"
    else if n == 9 then "t"
    else if n == 10 then "n"
    else if n == 12 then "f"
    else if n == 13 then "r"
    else ""
  }

  function Escape(c: char): string {
    var n := c as int;
    if ShortEscape(c) != "" then "\\" + ShortEscape(c)
    else if n < 32 then "\\u00" + [HexDigit(n / 16), HexDigit(n % 16)]
    else [c]
  }

  function EscapeAll(s: string): string {
    if s == [] then [] else Escape(s[0]) + EscapeAll(s[1..])
  }

  function Quote(s: string): string {
    "\"" + EscapeAll(s) + "\""
  }

  function Stringify(v: Value): string
    decreases v
  {
    match v
    case Null => "null"
    case Undefined => "null"  // its text inside a list
    case Bool(b) => if b then "true" else "false"
    case Num(t) => t
    case Str(s) => Quote(s)
    case Arr(items) => "[" + ItemsText(items) + "]"
    case Obj(fs) => "{" + FieldsText(fs) + "}"
  }

  function ItemsText(items: seq<Value>): string
    decreases items
  {
    if items == [] then ""
    else if |items| == 1 then Stringify(items[0])
    else Stringify(items[0]) + "," + ItemsText(items[1..])
  }

  function FieldText(f: Field): string
    decreases f
  {
    Quote(f.key) + ":" + Stringify(f.value)
  }

  function FieldsText(fs: seq<Field>): string
    decreases fs
  {
    if fs == [] then ""
    else if fs[0].value == Undefined then FieldsText(fs[1..])
    else
      var rest := FieldsText(fs[1..]);
      FieldText(fs[0]) + (if rest == "" then "" else "," + rest)
  }

  // ----- the text determines the value

  /** What may follow a value inside a text. */
  predicate Stops(s: string) {
    s == "" || s[0] in ",]}"
  }

  lemma {:induction false} EscapeShape(c: char)
    ensures Escape(c) != "" && Escape(c)[0] != '"'
    ensures |Escape(c)| == if Escape(c)[0] != '\\' then 1 else if Escape(c)[1] == 'u' then 6 else 2
  {
  }

  lemma {:induction false} EscapeInjective(c: char, d: char)
    requires Escape(c) == Escape(d)
    ensures c == d
  {
    var e, m, n := Escape(c), c as int, d as int;
    EscapeShape(c);
    if |e| == 6 {
      assert e[4] == HexDigit(m / 16) && e[5] == HexDigit(m % 16);
      assert Escape(d)[4] == HexDigit(n / 16) && Escape(d)[5] == HexDigit(n % 16);
      assert m == n;
    } else if |e| == 2 {
      assert e[1] == ShortEscape(c)[0] && Escape(d)[1] == ShortEscape(d)[0];
    }
  }

  lemma {:induction false} EscapePrefix(c: char, d: char, s: string, t: string)
    requires Escape(c) + s == Escape(d) + t
    ensures c == d && s == t
  {
    var a := Escape(c) + s;
    EscapeShape(c);
    EscapeShape(d);
    assert a[0] == Escape(c)[0] && a[0] == Escape(d)[0];
    assert a[0] == '\\' ==> a[1] == Escape(c)[1] && a[1] == Escape(d)[1];
    assert Escape(c) == a[..|Escape(c)|] && Escape(d) == a[..|Escape(d)|];
    EscapeInjective(c, d);
    SplitCommon(Escape(c), s, t);
  }

  /** Only the closing quote of a literal reads as a quote. */
  lemma {:induction false} QuoteHead(a: string, s: string)
    ensures (EscapeAll(a) + "\"" + s)[0] == '"' <==> a == []
  {
    if a != [] {
      EscapeShape(a[0]);
    }
  }

  lemma {:induction false} QuoteUnfold(a: string, s: string)
    requires a != []
    ensures EscapeAll(a) + "\"" + s == Escape(a[0]) + (EscapeAll(a[1..]) + "\"" + s)
  {
  }

  lemma {:induction false} QuotePrefix(a: string, b: string, s: string, t: string)
    requires EscapeAll(a) + "\"" + s == EscapeAll(b) + "\"" + t
    ensures a == b && s == t
  {
    QuoteHead(a, s);
    QuoteHead(b, t);
    if a == [] {
      assert EscapeAll(a) + "\"" + s == "\"" + s && EscapeAll(b) + "\"" + t == "\"" + t;
      SplitCommon("\"", s, t);
    } else {
      var s', t' := EscapeAll(a[1..]) + "\"" + s, EscapeAll(b[1..]) + "\"" + t;
      QuoteUnfold(a, s);
      QuoteUnfold(b, t);
      EscapePrefix(a[0], b[0], s', t');
      QuotePrefix(a[1..], b[1..], s, t);
      assert a == [a[0]] + a[1..] && b == [b[0]] + b[1..];
    }
  }

  lemma {:induction false} SplitCommon(p: string, s: string, t: string)
    requires p + s == p + t
    ensures s == t
  {
    assert s == (p + s)[|p|..] && t == (p + t)[|p|..];
  }

  lemma {:induction false} NumeralEnd(a: string, s: string, n: nat)
    requires IsNumeral(a) && Stops(s) && n <= |a|
    requires n < |a + s| ==> !IsNumeralChar((a + s)[n])
    ensures n == |a|
  {
  }

  lemma {:induction false} NumeralPrefix(a: string, b: string, s: string, t: string)
    requires IsNumeral(a) && IsNumeral(b) && Stops(s) && Stops(t) && a + s == b + t
    ensures a == b && s == t
  {
    var x := a + s;
    assert |a| < |x| ==> x[|a|] == s[0];
    assert |b| < |x| ==> x[|b|] == t[0];
    if |a| <= |b| {
      NumeralEnd(b, t, |a|);
    } else {
      NumeralEnd(a, s, |b|);
    }
    assert a == x[..|a|] && b == x[..|b|];
    SplitCommon(a, s, t);
  }

  /** The first character of a text tells the kind of value. */
  lemma {:induction false} TextHead(v: Value)
    requires Json(v)
    ensures Stringify(v) != ""
    ensures var c := Stringify(v)[0];
            match v
            case Null => c == 'n'
            case Bool(b) => if b then c == 't' else c == 'f'
            case Num(_) => c == '-' || '0' <= c <= '9'
            case Str(_) => c == '"'
            case Arr(_) => c == '['
            case Obj(_) => c == '{'
  {
  }

  /** A text cannot be a proper beginning of another one: values can be read off. */
  lemma {:induction false} TextPrefix(v: Value, w: Value, s: string, t: string)
    requires Json(v) && Json(w) && Stops(s) && Stops(t)
    requires Stringify(v) + s == Stringify(w) + t
    ensures v == w && s == t
    decreases v, 1
  {
    TextHead(v);
    TextHead(w);
    assert (Stringify(v) + s)[0] == Stringify(v)[0];
    assert (Stringify(w) + t)[0] == Stringify(w)[0];
    match v
    case Null => SplitCommon("null", s, t);
    case Bool(b) => SplitCommon(Stringify(v), s, t);
    case Num(a) => NumeralPrefix(a, w.numeral, s, t);
    case Str(a) => StrPrefix(a, w.s, s, t);
    case Arr(xs) => ArrPrefix(v, w, s, t);
    case Obj(fs) => ObjPrefix(v, w, s, t);
  }

  lemma {:induction false} StrPrefix(a: string, b: string, s: string, t: string)
    requires Quote(a) + s == Quote(b) + t
    ensures a == b && s == t
  {
    assert Quote(a) + s == "\"" + (EscapeAll(a) + "\"" + s);
    assert Quote(b) + t == "\"" + (EscapeAll(b) + "\"" + t);
    SplitCommon("\"", EscapeAll(a) + "\"" + s, EscapeAll(b) + "\"" + t);
    QuotePrefix(a, b, s, t);
  }

  lemma {:induction false} ArrPrefix(v: Value, w: Value, s: string, t: string)
    requires v.Arr? && w.Arr? && Json(v) && Json(w) && Stringify(v) + s == Stringify(w) + t
    ensures v == w && s == t
    decreases v, 0
  {
    var x, y := ItemsText(v.items) + ("]" + s), ItemsText(w.items) + ("]" + t);
    assert Stringify(v) + s == "[" + x && Stringify(w) + t == "[" + y;
    SplitCommon("[", x, y);
    ItemsPrefix(v.items, w.items, s, t);
  }

  lemma {:induction false} ObjPrefix(v: Value, w: Value, s: string, t: string)
    requires v.Obj? && w.Obj? && Json(v) && Json(w) && Stringify(v) + s == Stringify(w) + t
    ensures v == w && s == t
    decreases v, 0
  {
    var x, y := FieldsText(v.fields) + ("}" + s), FieldsText(w.fields) + ("}" + t);
    assert Stringify(v) + s == "{" + x && Stringify(w) + t == "{" + y;
    SplitCommon("{", x, y);
    FieldsPrefix(v.fields, w.fields, s, t);
  }

  /** The rest of a list text after its first item. */
  function AfterItem(xs: seq<Value>, s: string): string
    requires xs != []
  {
    if |xs| == 1 then "]" + s else "," + (ItemsText(xs[1..]) + ("]" + s))
  }

  lemma {:induction false} ItemsUnfold(xs: seq<Value>, s: string)
    requires xs != []
    ensures ItemsText(xs) + ("]" + s) == Stringify(xs[0]) + AfterItem(xs, s)
  {
  }

  lemma {:induction false} ItemsHead(xs: seq<Value>, s: string)
    requires forall i :: 0 <= i < |xs| ==> Json(xs[i])
    ensures (ItemsText(xs) + ("]" + s))[0] == ']' <==> xs == []
  {
    if xs != [] {
      TextHead(xs[0]);
      ItemsUnfold(xs, s);
    }
  }

  lemma {:induction false} ItemsPrefix(xs: seq<Value>, ys: seq<Value>, s: string, t: string)
    requires forall i :: 0 <= i < |xs| ==> Json(xs[i])
    requires forall i :: 0 <= i < |ys| ==> Json(ys[i])
    requires ItemsText(xs) + ("]" + s) == ItemsText(ys) + ("]" + t)
    ensures xs == ys && s == t
    decreases xs, 0
  {
    ItemsHead(xs, s);
    ItemsHead(ys, t);
    if xs == [] {
      assert ItemsText(xs) + ("]" + s) == "]" + s && ItemsText(ys) + ("]" + t) == "]" + t;
      SplitCommon("]", s, t);
    } else {
      ItemsUnfold(xs, s);
      ItemsUnfold(ys, t);
      TextPrefix(xs[0], ys[0], AfterItem(xs, s), AfterItem(ys, t));
      assert AfterItem(xs, s)[0] == AfterItem(ys, t)[0];
      if |xs| == 1 {
        SplitCommon("]", s, t);
        assert xs == [xs[0]] && ys == [ys[0]];
      } else {
        SplitCommon(",", ItemsText(xs[1..]) + ("]" + s), ItemsText(ys[1..]) + ("]" + t));
        ItemsPrefix(xs[1..], ys[1..], s, t);
        assert xs == [xs[0]] + xs[1..] && ys == [ys[0]] + ys[1..];
      }
    }
  }

  /** The rest of an object text after the value of its first property. */
  function AfterField(fs: seq<Field>, s: string): string
    requires fs != []
  {
    if |fs| == 1 then "}" + s else "," + (FieldsText(fs[1..]) + ("}" + s))
  }

  lemma {:induction false} FieldsNonempty(fs: seq<Field>)
    requires fs != [] && forall i :: 0 <= i < |fs| ==> Json(fs[i].value)
    ensures FieldsText(fs) == FieldText(fs[0]) + (if |fs| == 1 then "" else "," + FieldsText(fs[1..]))
    ensures FieldsText(fs) != ""
  {
    assert Json(fs[0].value);
    if |fs| > 1 {
      FieldsNonempty(fs[1..]);
    }
  }

  lemma {:induction false} Regroup(a: string, b: string, c: string, d: string)
    ensures a + b + c + d == a + (b + (c + d)) == a + (b + c) + d
  {
  }

  lemma {:induction false} FieldsUnfold(fs: seq<Field>, s: string)
    requires fs != [] && forall i :: 0 <= i < |fs| ==> Json(fs[i].value)
    ensures FieldsText(fs) + ("}" + s) == Quote(fs[0].key) + (":" + (Stringify(fs[0].value) + AfterField(fs, s)))
  {
    FieldsNonempty(fs);
    var head, rest := FieldText(fs[0]), if |fs| == 1 then "" else FieldsText(fs[1..]);
    Regroup(Quote(fs[0].key), ":", Stringify(fs[0].value), AfterField(fs, s));
    if |fs| == 1 {
      assert head + "" == head;
    } else {
      Regroup(head, ",", rest, "}" + s);
    }
  }

  lemma {:induction false} FieldsHead(fs: seq<Field>, s: string)
    requires forall i :: 0 <= i < |fs| ==> Json(fs[i].value)
    ensures (FieldsText(fs) + ("}" + s))[0] == '}' <==> fs == []
  {
    if fs != [] {
      FieldsUnfold(fs, s);
    }
  }

  lemma {:induction false} FieldsPrefix(fs: seq<Field>, gs: seq<Field>, s: string, t: string)
    requires forall i :: 0 <= i < |fs| ==> Json(fs[i].value)
    requires forall i :: 0 <= i < |gs| ==> Json(gs[i].value)
    requires FieldsText(fs) + ("}" + s) == FieldsText(gs) + ("}" + t)
    ensures fs == gs && s == t
    decreases fs, 0
  {
    FieldsHead(fs, s);
    FieldsHead(gs, t);
    if fs == [] {
      assert FieldsText(fs) + ("}" + s) == "}" + s && FieldsText(gs) + ("}" + t) == "}" + t;
      SplitCommon("}", s, t);
    } else {
      FieldsUnfold(fs, s);
      FieldsUnfold(gs, t);
      var s1, t1 := Stringify(fs[0].value) + AfterField(fs, s), Stringify(gs[0].value) + AfterField(gs, t);
      StrPrefix(fs[0].key, gs[0].key, ":" + s1, ":" + t1);
      SplitCommon(":", s1, t1);
      TextPrefix(fs[0].value, gs[0].value, AfterField(fs, s), AfterField(gs, t));
      assert fs[0] == gs[0];
      assert AfterField(fs, s)[0] == AfterField(gs, t)[0];
      if |fs| == 1 {
        SplitCommon("}", s, t);
        assert fs == [fs[0]] && gs == [gs[0]];
      } else {
        SplitCommon(",", FieldsText(fs[1..]) + ("}" + s), FieldsText(gs[1..]) + ("}" + t));
        FieldsPrefix(fs[1..], gs[1..], s, t);
        assert fs == [fs[0]] + fs[1..] && gs == [gs[0]] + gs[1..];
      }
    }
  }

  /** Different values have different texts. */
  lemma {:induction false} StringifyInjective(v: Value, w: Value)
    requires Json(v) && Json(w) && Stringify(v) == Stringify(w)
    ensures v == w
  {
    assert Stringify(v) + "" == Stringify(w) + "";
    TextPrefix(v, w, "", "");
  }

  // ----- where the special characters of a text stand

  datatype Mode = Outside | Quoted | Escaped

  function ModeStep(m: Mode, c: char): Mode {
    match m
    case Outside => if c == '"' then Quoted else Outside
    case Quoted => if c == '"' then Outside else if c == '\\' then Escaped else Quoted
    case Escaped => Quoted
  }

  function ModeAfter(m: Mode, s: string): Mode
    decreases s
  {
    if s == [] then m else ModeAfter(ModeStep(m, s[0]), s[1..])
  }

  /** Bars occur inside string literals only, and never right after a backslash;
      backslashes occur inside string literals only. */
  predicate Legal(m: Mode, s: string)
    decreases s
  {
    s == [] ||
    (&& (s[0] == '|' ==> m == Quoted)
     && (s[0] == '\\' ==> m != Outside)
     && Legal(ModeStep(m, s[0]), s[1..]))
  }

  lemma {:induction false} ModeConcat(m: Mode, s: string, t: string)
    ensures ModeAfter(m, s + t) == ModeAfter(ModeAfter(m, s), t)
    ensures Legal(m, s + t) <==> Legal(m, s) && Legal(ModeAfter(m, s), t)
    decreases s
  {
    if s == [] {
      assert s + t == t;
    } else {
      assert (s + t)[1..] == s[1..] + t;
      ModeConcat(ModeStep(m, s[0]), s[1..], t);
    }
  }

  /** A piece of text that starts and ends outside every string literal. */
  predicate Balanced(s: string) {
    Legal(Outside, s) && ModeAfter(Outside, s) == Outside
  }

  lemma {:induction false} BalancedConcat(s: string, t: string)
    requires Balanced(s) && Balanced(t)
    ensures Balanced(s + t)
  {
    ModeConcat(Outside, s, t);
  }

  lemma {:induction false} EscapeLegal(c: char)
    ensures Legal(Quoted, Escape(c)) && ModeAfter(Quoted, Escape(c)) == Quoted
  {
    EscapeShape(c);
    var e := Escape(c);
    if |e| == 1 {
      assert e == [c] && e[1..] == [];
    } else {
      assert e[1] != '|';
      if |e| == 2 {
        assert e[1..] == [e[1]] && e[2..] == [];
      } else {
        var n := c as int;
        assert e[2] == '0' && e[3] == '0' && e[4] == HexDigit(n / 16) && e[5] == HexDigit(n % 16);
        PlainQuoted(e[2..]);
      }
      assert e[1..][1..] == e[2..];
      assert Legal(Escaped, e[1..]) && ModeAfter(Escaped, e[1..]) == ModeAfter(Quoted, e[2..]);
    }
  }

  lemma {:induction false} PlainQuoted(s: string)
    requires forall i :: 0 <= i < |s| ==> s[i] != '"' && s[i] != '\\' && s[i] != '|'
    ensures Legal(Quoted, s) && ModeAfter(Quoted, s) == Quoted
  {
    if s != [] {
      PlainQuoted(s[1..]);
    }
  }

  lemma {:induction false} EscapeAllLegal(s: string)
    ensures Legal(Quoted, EscapeAll(s)) && ModeAfter(Quoted, EscapeAll(s)) == Quoted
  {
    if s != [] {
      EscapeLegal(s[0]);
      EscapeAllLegal(s[1..]);
      ModeConcat(Quoted, Escape(s[0]), EscapeAll(s[1..]));
    }
  }

  lemma {:induction false} QuoteBalanced(s: string)
    ensures Balanced(Quote(s))
  {
    EscapeAllLegal(s);
    ModeConcat(Quoted, EscapeAll(s), "\"");
    assert Quote(s)[1..] == EscapeAll(s) + "\"";
  }

  lemma {:induction false} PlainBalanced(s: string)
    requires forall i :: 0 <= i < |s| ==> s[i] != '"' && s[i] != '\\' && s[i] != '|'
    ensures Balanced(s)
  {
    if s != [] {
      PlainBalanced(s[1..]);
    }
  }

  lemma {:induction false} TextBalanced(v: Value)
    requires Json(v)
    ensures Balanced(Stringify(v))
    decreases v
  {
    match v
    case Null => PlainBalanced("null");
    case Bool(b) => PlainBalanced(Stringify(v));
    case Num(t) => PlainBalanced(t);
    case Str(s) => QuoteBalanced(s);
    case Arr(items) =>
      PlainBalanced("[");
      PlainBalanced("]");
      ItemsBalanced(items);
      BalancedConcat("[", ItemsText(items));
      BalancedConcat("[" + ItemsText(items), "]");
    case Obj(fs) =>
      PlainBalanced("{");
      PlainBalanced("}");
      FieldsBalanced(fs);
      BalancedConcat("{", FieldsText(fs));
      BalancedConcat("{" + FieldsText(fs), "}");
  }

  lemma {:induction false} ItemsBalanced(items: seq<Value>)
    requires forall i :: 0 <= i < |items| ==> Json(items[i])
    ensures Balanced(ItemsText(items))
    decreases items
  {
    if items != [] {
      TextBalanced(items[0]);
      ItemsBalanced(items[1..]);
      PlainBalanced(",");
      BalancedConcat(Stringify(items[0]), ",");
      BalancedConcat(Stringify(items[0]) + ",", ItemsText(items[1..]));
    }
  }

  lemma {:induction false} FieldsBalanced(fs: seq<Field>)
    requires forall i :: 0 <= i < |fs| ==> Json(fs[i].value)
    ensures Balanced(FieldsText(fs))
    decreases fs
  {
    if fs != [] {
      QuoteBalanced(fs[0].key);
      TextBalanced(fs[0].value);
      PlainBalanced(":");
      PlainBalanced(",");
      PlainBalanced("");
      BalancedConcat(Quote(fs[0].key), ":");
      BalancedConcat(Quote(fs[0].key) + ":", Stringify(fs[0].value));
      FieldsBalanced(fs[1..]);
      var rest := FieldsText(fs[1..]);
      BalancedConcat(",", rest);
      BalancedConcat(FieldText(fs[0]), if rest == "" then "" else "," + rest);
    }
  }

  /** No text is legal both when read from outside and when read from inside a string
      literal and ends outside either way: the quotes do not come out even. */
  lemma {:induction false} ReadingsDisagree(m: Mode, n: Mode, s: string)
    requires (m == Outside && n == Quoted) || (m == Quoted && n == Outside)
    requires Legal(m, s) && Legal(n, s)
    ensures ModeAfter(m, s) != ModeAfter(n, s)
    decreases s
  {
    if s != [] {
      ReadingsDisagree(ModeStep(m, s[0]), ModeStep(n, s[0]), s[1..]);
    }
  }

  /** Cutting a text at a bar never leaves a text: the bar stood inside a string literal. */
  lemma {:induction false} NoTextAfterBar(v: Value, w: Value, head: string)
    requires Json(v) && Json(w)
    ensures Stringify(v) != head + "|" + Stringify(w)
  {
    var x := Stringify(w);
    TextBalanced(v);
    TextBalanced(w);
    assert head + "|" + x == head + ("|" + x);
    ModeConcat(Outside, head, "|" + x);
    assert ("|" + x)[1..] == x;
    if Legal(Quoted, x) {
      ReadingsDisagree(Outside, Quoted, x);
    }
  }
}
