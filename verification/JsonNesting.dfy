/** The byte loop that guards the quote route (apps/api/src/app.setup.ts): it refuses a
    body nested deeper than 16 before the JSON parser sees it. The loop keeps a depth and
    two flags; it is proved to measure the nesting of every text of the JSON grammar
    (sections 2 to 7 of RFC 8259). */
module JsonNesting {
  import opened Integers
  import opened Strings

  type Byte = b: int | 0 <= b < 256

  // ----- the grammar

  /** Section 2: space, tab, line feed, carriage return. */
  predicate IsWs(b: Byte) { b == 0x20 || b == 0x09 || b == 0x0A || b == 0x0D }

  predicate IsDigit(b: Byte) { 0x30 <= b <= 0x39 }

  predicate IsHex(b: Byte) { IsDigit(b) || 0x41 <= b <= 0x46 || 0x61 <= b <= 0x66 }

  /** White space before and after a structural character. */
  datatype Pad = Pad(before: seq<Byte>, after: seq<Byte>)

  /** Section 7. The letters after a backslash are those of the two-character escapes. */
  datatype StringChar =
    | Unescaped(scalar: nat)
    | Escaped(letter: Byte)
    | EscapedCode(hex: seq<Byte>)

  datatype Exponent = Exponent(upper: bool, sign: seq<Byte>, digits: seq<Byte>)

  /** Section 6: an optional minus, an integer, an optional fraction and exponent. */
  datatype Number = Number(minus: bool, whole: seq<Byte>, fraction: Option<seq<Byte>>, exponent: Option<Exponent>)

  datatype Value =
    | False
    | Null
    | True
    | Num(number: Number)
    | Str(chars: seq<StringChar>)
    | Array(begin: Pad, elements: Option<Elements>, end: Pad)
    | Object(begin: Pad, members: Option<Members>, end: Pad)

  datatype Elements = LastElement(value: Value) | MoreElements(value: Value, comma: Pad, rest: Elements)

  datatype Members =
    | LastMember(name: seq<StringChar>, colon: Pad, value: Value)
    | MoreMembers(name: seq<StringChar>, colon: Pad, value: Value, comma: Pad, rest: Members)

  /** Section 2: a text is a value with white space around it. */
  datatype Text = Text(lead: seq<Byte>, value: Value, trail: seq<Byte>)

  predicate Blank(s: seq<Byte>) { forall i :: 0 <= i < |s| ==> IsWs(s[i]) }

  predicate PadOk(p: Pad) { Blank(p.before) && Blank(p.after) }

  predicate Digits(s: seq<Byte>) { forall i :: 0 <= i < |s| ==> IsDigit(s[i]) }

  predicate NumberOk(n: Number) {
    && n.whole != [] && Digits(n.whole) && (n.whole[0] == 0x30 ==> |n.whole| == 1)
    && (n.fraction.Some? ==> n.fraction.value != [] && Digits(n.fraction.value))
    && (n.exponent.Some? ==>
          var e := n.exponent.value;
          e.digits != [] && Digits(e.digits) && (e.sign == [] || e.sign == [0x2B] || e.sign == [0x2D]))
  }

  predicate CharOk(c: StringChar) {
    match c
    case Unescaped(u) =>
      0x20 <= u <= 0x10FFFF && u != 0x22 && u != 0x5C && !(0xD800 <= u <= 0xDFFF)
    case Escaped(b) => b == 0x22 || b == 0x5C || b == 0x2F || b == 0x62 || b == 0x66 || b == 0x6E || b == 0x72 || b == 0x74
    case EscapedCode(hex) => |hex| == 4 && IsHex(hex[0]) && IsHex(hex[1]) && IsHex(hex[2]) && IsHex(hex[3])
  }

  predicate CharsOk(cs: seq<StringChar>) { forall i :: 0 <= i < |cs| ==> CharOk(cs[i]) }

  predicate ValueOk(v: Value) {
    match v
    case Num(n) => NumberOk(n)
    case Str(cs) => CharsOk(cs)
    case Array(b, es, e) => PadOk(b) && PadOk(e) && (es.Some? ==> ElementsOk(es.value))
    case Object(b, ms, e) => PadOk(b) && PadOk(e) && (ms.Some? ==> MembersOk(ms.value))
    case _ => true
  }

  predicate ElementsOk(es: Elements) {
    match es
    case LastElement(v) => ValueOk(v)
    case MoreElements(v, comma, rest) => ValueOk(v) && PadOk(comma) && ElementsOk(rest)
  }

  predicate MembersOk(ms: Members) {
    match ms
    case LastMember(name, colon, v) => CharsOk(name) && PadOk(colon) && ValueOk(v)
    case MoreMembers(name, colon, v, comma, rest) =>
      CharsOk(name) && PadOk(colon) && ValueOk(v) && PadOk(comma) && MembersOk(rest)
  }

  predicate TextOk(t: Text) { Blank(t.lead) && ValueOk(t.value) && Blank(t.trail) }

  // ----- the bytes of a text, in UTF-8

  function Utf8(u: nat): seq<Byte>
    requires u <= 0x10FFFF
  {
    if u < 0x80 then [u]
    else if u < 0x800 then [0xC0 + u / 0x40, 0x80 + u % 0x40]
    else if u < 0x10000 then [0xE0 + u / 0x1000, 0x80 + u / 0x40 % 0x40, 0x80 + u % 0x40]
    else [0xF0 + u / 0x40000, 0x80 + u / 0x1000 % 0x40, 0x80 + u / 0x40 % 0x40, 0x80 + u % 0x40]
  }

  function CharBytes(c: StringChar): seq<Byte>
    requires CharOk(c)
  {
    match c
    case Unescaped(u) => Utf8(u)
    case Escaped(b) => [0x5C, b]
    case EscapedCode(hex) => [0x5C, 0x75] + hex
  }

  function CharsBytes(cs: seq<StringChar>): seq<Byte>
    requires CharsOk(cs)
  {
    if cs == [] then [] else CharBytes(cs[0]) + CharsBytes(cs[1..])
  }

  function StringBytes(cs: seq<StringChar>): seq<Byte>
    requires CharsOk(cs)
  {
    [0x22] + CharsBytes(cs) + [0x22]
  }

  function NumberBytes(n: Number): seq<Byte>
    requires NumberOk(n)
  {
    (if n.minus then [0x2D] else []) + n.whole
    + (if n.fraction.Some? then [0x2E] + n.fraction.value else [])
    + (if n.exponent.Some? then
         [if n.exponent.value.upper then 0x45 else 0x65] + n.exponent.value.sign + n.exponent.value.digits
       else [])
  }

  function Structural(p: Pad, b: Byte): seq<Byte> {
    p.before + [b] + p.after
  }

  function ValueBytes(v: Value): seq<Byte>
    requires ValueOk(v)
  {
    match v
    case False => [0x66, 0x61, 0x6C, 0x73, 0x65]
    case Null => [0x6E, 0x75, 0x6C, 0x6C]
    case True => [0x74, 0x72, 0x75, 0x65]
    case Num(n) => NumberBytes(n)
    case Str(cs) => StringBytes(cs)
    case Array(b, es, e) =>
      Structural(b, 0x5B) + (if es.Some? then ElementsBytes(es.value) else []) + Structural(e, 0x5D)
    case Object(b, ms, e) =>
      Structural(b, 0x7B) + (if ms.Some? then MembersBytes(ms.value) else []) + Structural(e, 0x7D)
  }

  function ElementsBytes(es: Elements): seq<Byte>
    requires ElementsOk(es)
  {
    match es
    case LastElement(v) => ValueBytes(v)
    case MoreElements(v, comma, rest) => ValueBytes(v) + Structural(comma, 0x2C) + ElementsBytes(rest)
  }

  function MembersBytes(ms: Members): seq<Byte>
    requires MembersOk(ms)
  {
    match ms
    case LastMember(name, colon, v) => StringBytes(name) + Structural(colon, 0x3A) + ValueBytes(v)
    case MoreMembers(name, colon, v, comma, rest) =>
      StringBytes(name) + Structural(colon, 0x3A) + ValueBytes(v) + Structural(comma, 0x2C) + MembersBytes(rest)
  }

  function TextBytes(t: Text): seq<Byte>
    requires TextOk(t)
  {
    t.lead + ValueBytes(t.value) + t.trail
  }

  // ----- nesting

  /** How deep arrays and objects are nested in a value. */
  function Nesting(v: Value): nat {
    match v
    case Array(_, es, _) => 1 + if es.Some? then ElementsNesting(es.value) else 0
    case Object(_, ms, _) => 1 + if ms.Some? then MembersNesting(ms.value) else 0
    case _ => 0
  }

  function ElementsNesting(es: Elements): nat {
    match es
    case LastElement(v) => Nesting(v)
    case MoreElements(v, _, rest) => Max(Nesting(v), ElementsNesting(rest))
  }

  function MembersNesting(ms: Members): nat {
    match ms
    case LastMember(_, _, v) => Nesting(v)
    case MoreMembers(_, _, v, _, rest) => Max(Nesting(v), MembersNesting(rest))
  }

  // ----- the scanner

  const LIMIT := 16

  /** `Refused` stands for the thrown 413 error. */
  datatype Scan = Refused | At(depth: int, quoted: bool, escaped: bool)

  function ScanByte(s: Scan, b: Byte): Scan {
    if s.Refused? then Refused
    else if s.quoted then
      if s.escaped then s.(escaped := false)
      else if b == 92 then s.(escaped := true)
      else if b == 34 then s.(quoted := false)
      else s
    else if b == 34 then s.(quoted := true)
    else if b == 123 || b == 91 then
      if s.depth + 1 > LIMIT then Refused else s.(depth := s.depth + 1)
    else if b == 125 || b == 93 then s.(depth := s.depth - 1)
    else s
  }

  function ScanBytes(s: Scan, bytes: seq<Byte>): Scan
    decreases |bytes|
  {
    if bytes == [] then s else ScanBytes(ScanByte(s, bytes[0]), bytes[1..])
  }

  /** The loop of the `verify` hook over the request's buffer. */
  method Verify(buffer: array<Byte>) returns (result: Scan)
    ensures result == ScanBytes(At(0, false, false), buffer[..])
  {
    var depth, quoted, escaped := 0, false, false;
    var i := 0;
    while i < buffer.Length
      invariant i <= buffer.Length
      invariant ScanBytes(At(0, false, false), buffer[..]) == ScanBytes(At(depth, quoted, escaped), buffer[i..])
    {
      var b := buffer[i];
      assert buffer[i..][0] == b && buffer[i..][1..] == buffer[i + 1..];
      if quoted {
        if escaped {
          escaped := false;
        } else if b == 92 {
          escaped := true;
        } else if b == 34 {
          quoted := false;
        }
      } else if b == 34 {
        quoted := true;
      } else if b == 123 || b == 91 {
        depth := depth + 1;
        if depth > LIMIT {
          RefusedForGood(buffer[i + 1..]);
          return Refused;
        }
      } else if b == 125 || b == 93 {
        depth := depth - 1;
      }
      i := i + 1;
    }
    return At(depth, quoted, escaped);
  }

  lemma {:induction false} RefusedForGood(bytes: seq<Byte>)
    ensures ScanBytes(Refused, bytes) == Refused
    decreases |bytes|
  {
    if bytes != [] {
      RefusedForGood(bytes[1..]);
    }
  }

  // ----- the scanner measures the nesting

  lemma {:induction false} ScanConcat(s: Scan, a: seq<Byte>, b: seq<Byte>)
    ensures ScanBytes(s, a + b) == ScanBytes(ScanBytes(s, a), b)
    decreases |a|
  {
    if a == [] {
      assert a + b == b;
    } else {
      assert (a + b)[0] == a[0] && (a + b)[1..] == a[1..] + b;
      ScanConcat(ScanByte(s, a[0]), a[1..], b);
    }
  }

  function Outside(depth: int): Scan { At(depth, false, false) }

  function Inside(depth: int): Scan { At(depth, true, false) }

  /** Bytes without a meaning outside a string. */
  predicate Plain(b: Byte) {
    b != 34 && b != 123 && b != 91 && b != 125 && b != 93
  }

  lemma {:induction false} PlainBytes(s: Scan, bytes: seq<Byte>)
    requires s.At? && !s.quoted && forall i :: 0 <= i < |bytes| ==> Plain(bytes[i])
    ensures ScanBytes(s, bytes) == s
    decreases |bytes|
  {
    if bytes != [] {
      PlainBytes(s, bytes[1..]);
    }
  }

  lemma {:induction false} NumberPlain(n: Number)
    requires NumberOk(n)
    ensures forall i :: 0 <= i < |NumberBytes(n)| ==> Plain(NumberBytes(n)[i])
  {
    var a := (if n.minus then [0x2D] else []) + n.whole;
    var b := if n.fraction.Some? then [0x2E] + n.fraction.value else [];
    var c := if n.exponent.Some? then
               [if n.exponent.value.upper then 0x45 else 0x65] + n.exponent.value.sign + n.exponent.value.digits
             else [];
    assert forall i :: 0 <= i < |a| ==> Plain(a[i]);
    assert forall i :: 0 <= i < |b| ==> Plain(b[i]);
    assert forall i :: 0 <= i < |c| ==> Plain(c[i]);
    assert NumberBytes(n) == a + b + c;
  }

  /** Bytes without a meaning inside a string. */
  lemma {:induction false} QuietBytes(s: Scan, bytes: seq<Byte>)
    requires s.At? && s.quoted && !s.escaped && forall i :: 0 <= i < |bytes| ==> bytes[i] != 34 && bytes[i] != 92
    ensures ScanBytes(s, bytes) == s
    decreases |bytes|
  {
    if bytes != [] {
      QuietBytes(s, bytes[1..]);
    }
  }

  lemma {:induction false} Utf8Quiet(u: nat)
    requires CharOk(Unescaped(u))
    ensures forall i :: 0 <= i < |Utf8(u)| ==> Utf8(u)[i] != 34 && Utf8(u)[i] != 92
  {
  }

  lemma {:induction false} CharInside(depth: int, c: StringChar)
    requires CharOk(c)
    ensures ScanBytes(Inside(depth), CharBytes(c)) == Inside(depth)
  {
    match c
    case Unescaped(u) =>
      Utf8Quiet(u);
      QuietBytes(Inside(depth), Utf8(u));
    case Escaped(b) =>
      assert [0x5C, b][1..] == [b] && [b][1..] == [];
    case EscapedCode(hex) =>
      var bytes: seq<Byte> := [0x5C, 0x75] + hex;
      assert bytes[0] == 0x5C && bytes[1..][0] == 0x75 && bytes[1..][1..] == hex;
      QuietBytes(Inside(depth), hex);
  }

  lemma {:induction false} CharsInside(depth: int, cs: seq<StringChar>)
    requires CharsOk(cs)
    ensures ScanBytes(Inside(depth), CharsBytes(cs)) == Inside(depth)
  {
    if cs != [] {
      CharInside(depth, cs[0]);
      CharsInside(depth, cs[1..]);
      ScanConcat(Inside(depth), CharBytes(cs[0]), CharsBytes(cs[1..]));
    }
  }

  lemma {:induction false} StringPassed(depth: int, cs: seq<StringChar>)
    requires CharsOk(cs)
    ensures ScanBytes(Outside(depth), StringBytes(cs)) == Outside(depth)
  {
    CharsInside(depth, cs);
    ScanConcat(Outside(depth), [0x22] + CharsBytes(cs), [0x22]);
    ScanConcat(Outside(depth), [0x22], CharsBytes(cs));
    OneByte(Outside(depth), 0x22);
    OneByte(Inside(depth), 0x22);
  }

  lemma {:induction false} OneByte(s: Scan, b: Byte)
    ensures ScanBytes(s, [b]) == ScanByte(s, b)
  {
    assert [b][1..] == [];
  }

  lemma {:induction false} StructuralScan(s: Scan, p: Pad, b: Byte)
    requires PadOk(p) && s.At? && !s.quoted && b != 34
    ensures ScanBytes(s, Structural(p, b)) == ScanByte(s, b)
  {
    PlainBytes(s, p.before);
    ScanConcat(s, p.before + [b], p.after);
    ScanConcat(s, p.before, [b]);
    OneByte(s, b);
    if ScanByte(s, b).Refused? {
      RefusedForGood(p.after);
    } else {
      PlainBytes(ScanByte(s, b), p.after);
    }
  }

  /** What scanning something nested `n` deep leads to. */
  function Outcome(depth: int, n: nat): Scan {
    if depth + n > LIMIT then Refused else Outside(depth)
  }

  /** From any depth within the limit, a value is refused exactly when it nests too deep;
      otherwise the scanner ends where it started. */
  lemma {:induction false} ValueScan(depth: int, v: Value)
    requires ValueOk(v) && depth <= LIMIT
    ensures ScanBytes(Outside(depth), ValueBytes(v)) == Outcome(depth, Nesting(v))
    decreases v
  {
    match v
    case Num(n) =>
      NumberPlain(n);
      PlainBytes(Outside(depth), NumberBytes(n));
    case Str(cs) => StringPassed(depth, cs);
    case Array(b, es, e) =>
      var inner := if es.Some? then ElementsBytes(es.value) else [];
      if depth < LIMIT && es.Some? {
        ElementsScan(depth + 1, es.value);
      }
      Bracketed(depth, b, 0x5B, inner, e, 0x5D, Nesting(v) - 1);
    case Object(b, ms, e) =>
      var inner := if ms.Some? then MembersBytes(ms.value) else [];
      if depth < LIMIT && ms.Some? {
        MembersScan(depth + 1, ms.value);
      }
      Bracketed(depth, b, 0x7B, inner, e, 0x7D, Nesting(v) - 1);
    case _ => PlainBytes(Outside(depth), ValueBytes(v));
  }

  lemma {:induction false} Bracketed(depth: int, b: Pad, open: Byte, inner: seq<Byte>, e: Pad, close: Byte, n: nat)
    requires PadOk(b) && PadOk(e) && depth <= LIMIT
    requires (open == 0x5B && close == 0x5D) || (open == 0x7B && close == 0x7D)
    requires depth < LIMIT ==> ScanBytes(Outside(depth + 1), inner) == Outcome(depth + 1, n)
    ensures ScanBytes(Outside(depth), Structural(b, open) + inner + Structural(e, close)) == Outcome(depth, n + 1)
  {
    ScanConcat(Outside(depth), Structural(b, open) + inner, Structural(e, close));
    ScanConcat(Outside(depth), Structural(b, open), inner);
    StructuralScan(Outside(depth), b, open);
    RefusedForGood(inner);
    RefusedForGood(Structural(e, close));
    if depth + n + 1 <= LIMIT {
      StructuralScan(Outside(depth + 1), e, close);
    }
  }

  lemma {:induction false} ElementsScan(depth: int, es: Elements)
    requires ElementsOk(es) && depth <= LIMIT
    ensures ScanBytes(Outside(depth), ElementsBytes(es)) == Outcome(depth, ElementsNesting(es))
    decreases es
  {
    ValueScan(depth, es.value);
    if es.MoreElements? {
      ElementsScan(depth, es.rest);
      Separated(depth, ValueBytes(es.value), es.comma, ElementsBytes(es.rest), Nesting(es.value), ElementsNesting(es.rest));
    }
  }

  lemma {:induction false} Separated(depth: int, a: seq<Byte>, comma: Pad, b: seq<Byte>, m: nat, n: nat)
    requires PadOk(comma)
    requires ScanBytes(Outside(depth), a) == Outcome(depth, m) && ScanBytes(Outside(depth), b) == Outcome(depth, n)
    ensures ScanBytes(Outside(depth), a + Structural(comma, 0x2C) + b) == Outcome(depth, Max(m, n))
  {
    ScanConcat(Outside(depth), a + Structural(comma, 0x2C), b);
    ScanConcat(Outside(depth), a, Structural(comma, 0x2C));
    RefusedForGood(b);
    RefusedForGood(Structural(comma, 0x2C));
    StructuralScan(Outside(depth), comma, 0x2C);
  }

  lemma {:induction false} MembersScan(depth: int, ms: Members)
    requires MembersOk(ms) && depth <= LIMIT
    ensures ScanBytes(Outside(depth), MembersBytes(ms)) == Outcome(depth, MembersNesting(ms))
    decreases ms
  {
    ValueScan(depth, ms.value);
    StringPassed(depth, ms.name);
    StructuralScan(Outside(depth), ms.colon, 0x3A);
    var head := StringBytes(ms.name) + Structural(ms.colon, 0x3A);
    ScanConcat(Outside(depth), StringBytes(ms.name), Structural(ms.colon, 0x3A));
    ScanConcat(Outside(depth), head, ValueBytes(ms.value));
    if ms.MoreMembers? {
      MembersScan(depth, ms.rest);
      Separated(depth, head + ValueBytes(ms.value), ms.comma, MembersBytes(ms.rest), Nesting(ms.value), MembersNesting(ms.rest));
    }
  }

  /** For every text of the grammar: the scanner refuses it exactly when its arrays and
      objects nest more than 16 deep, and otherwise ends at depth 0 outside any string. */
  lemma {:induction false} TextScan(t: Text)
    requires TextOk(t)
    ensures ScanBytes(At(0, false, false), TextBytes(t))
            == if Nesting(t.value) > 16 then Refused else At(0, false, false)
  {
    var s := Outside(0);
    PlainBytes(s, t.lead);
    PlainBytes(s, t.trail);
    ValueScan(0, t.value);
    RefusedForGood(t.trail);
    ScanConcat(s, t.lead + ValueBytes(t.value), t.trail);
    ScanConcat(s, t.lead, ValueBytes(t.value));
  }
}
