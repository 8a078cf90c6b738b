/** String operations of the language's library that the model needs. */
module Strings {
  import opened Sorting

  datatype Option<+T> = None | Some(value: T)

  /** The white space and line ends that `String.prototype.trim` strips. */
  predicate IsSpace(c: char) {
    var n := c as int;
    || 9 <= n <= 13 || n == 32 || n == 0xA0 || n == 0x1680 || 0x2000 <= n <= 0x200A
    || n == 0x2028 || n == 0x2029 || n == 0x202F || n == 0x205F || n == 0x3000 || n == 0xFEFF
  }

  function TrimStart(s: string): string {
    if s != [] && IsSpace(s[0]) then TrimStart(s[1..]) else s
  }

  function TrimEnd(s: string): string {
    if s != [] && IsSpace(s[|s| - 1]) then TrimEnd(s[..|s| - 1]) else s
  }

  function Trim(s: string): string {
    TrimEnd(TrimStart(s))
  }

  predicate Trimmed(s: string) {
    s != [] ==> !IsSpace(s[0]) && !IsSpace(s[|s| - 1])
  }

  lemma {:induction false} TrimStartHead(s: string)
    ensures var t := TrimStart(s);
            |t| <= |s| && t == s[|s| - |t|..] && (t != [] ==> !IsSpace(t[0]))
  {
    if s != [] && IsSpace(s[0]) {
      TrimStartHead(s[1..]);
      assert s[1..][|s| - 1 - |TrimStart(s)|..] == s[|s| - |TrimStart(s)|..];
    }
  }

  lemma {:induction false} TrimEndLast(s: string)
    ensures var t := TrimEnd(s);
            |t| <= |s| && t == s[..|t|] && (t != [] ==> !IsSpace(t[|t| - 1]))
  {
    if s != [] && IsSpace(s[|s| - 1]) {
      TrimEndLast(s[..|s| - 1]);
    }
  }

  lemma {:induction false} TrimTrimmed(s: string)
    ensures Trimmed(Trim(s))
    ensures Trimmed(s) ==> Trim(s) == s
  {
    TrimStartHead(s);
    TrimEndLast(TrimStart(s));
  }

  /** Trimming takes out a piece of the text. */
  lemma {:induction false} TrimSlice(s: string) returns (i: nat, j: nat)
    ensures i <= j <= |s| && Trim(s) == s[i..j]
  {
    TrimStartHead(s);
    TrimEndLast(TrimStart(s));
    i := |s| - |TrimStart(s)|;
    j := i + |Trim(s)|;
  }

  predicate AllSpace(s: string) { forall i :: 0 <= i < |s| ==> IsSpace(s[i]) }

  lemma {:induction false} TrimStartConcat(s: string, t: string)
    ensures TrimStart(s + t) == if AllSpace(s) then TrimStart(t) else TrimStart(s) + t
  {
    if s == [] {
      assert s + t == t;
    } else {
      assert (s + t)[1..] == s[1..] + t;
      if IsSpace(s[0]) {
        TrimStartConcat(s[1..], t);
        assert AllSpace(s) <==> AllSpace(s[1..]) by {
          assert forall i :: 0 < i < |s| ==> s[i] == s[1..][i - 1];
        }
      }
    }
  }

  lemma {:induction false} TrimEndConcat(s: string, t: string)
    ensures TrimEnd(s + t) == if AllSpace(t) then TrimEnd(s) else s + TrimEnd(t)
  {
    if t == [] {
      assert s + t == s;
    } else {
      var n := |t| - 1;
      assert (s + t)[..|s + t| - 1] == s + t[..n] && (s + t)[|s + t| - 1] == t[n];
      if IsSpace(t[n]) {
        TrimEndConcat(s, t[..n]);
        assert AllSpace(t) <==> AllSpace(t[..n]);
      }
    }
  }

  lemma {:induction false} TrimStartEmpty(s: string)
    ensures TrimStart(s) == "" <==> AllSpace(s)
  {
    if s != [] && IsSpace(s[0]) {
      TrimStartEmpty(s[1..]);
      assert forall i :: 0 < i < |s| ==> s[i] == s[1..][i - 1];
    }
  }

  lemma {:induction false} TrimEmpty(s: string)
    ensures TrimStart(s) == "" <==> AllSpace(s)
    ensures Trim(s) == "" <==> AllSpace(s)
  {
    TrimStartEmpty(s);
    TrimStartHead(s);
    TrimEndLast(TrimStart(s));
    if TrimStart(s) != "" {
      var u := TrimStart(s);
      TrimEndConcat([u[0]], u[1..]);
      assert [u[0]] + u[1..] == u;
      assert TrimEnd([u[0]]) == [u[0]];
    }
  }

  /** White space around a piece does not change what it is trimmed to. */
  lemma {:induction false} TrimPadded(a: string, s: string, b: string)
    requires AllSpace(a) && AllSpace(b)
    ensures Trim(a + s + b) == Trim(s)
  {
    assert a + s + b == a + (s + b);
    TrimStartConcat(a, s + b);
    TrimStartConcat(s, b);
    TrimEmpty(s);
    TrimEmpty(b);
    if !AllSpace(s) {
      TrimEndConcat(TrimStart(s), b);
    }
  }

  /** Trimming takes off the white space around the text, and that only. */
  lemma {:induction false} TrimExact(a: string, s: string, b: string)
    requires AllSpace(a) && AllSpace(b) && Trimmed(s)
    ensures Trim(a + s + b) == s
  {
    TrimPadded(a, s, b);
    TrimTrimmed(s);
  }

  function Join(parts: seq<string>, sep: string): string {
    if parts == [] then ""
    else if |parts| == 1 then parts[0]
    else parts[0] + sep + Join(parts[1..], sep)
  }

  /** A further part is joined on behind the separator. */
  lemma {:induction false} JoinSnoc(parts: seq<string>, sep: string, last: string)
    ensures Join(parts + [last], sep) == if parts == [] then last else Join(parts, sep) + sep + last
  {
    if |parts| > 0 {
      assert (parts + [last])[1..] == parts[1..] + [last];
      JoinSnoc(parts[1..], sep, last);
      if |parts| == 1 {
        assert parts[1..] + [last] == [last];
      }
    }
  }

  predicate Lacks(s: string, c: char) {
    forall i :: 0 <= i < |s| ==> s[i] != c
  }

  /** The first separator marks where the first piece ends. */
  lemma {:induction false} FirstSeparator(a: string, b: string, c: char, s: string, t: string)
    requires Lacks(a, c) && Lacks(b, c)
    requires a + [c] + s == b + [c] + t
    ensures a == b && s == t
  {
    var x := a + [c] + s;
    NotBeforeFirst(a, c, s, |b|);
    NotBeforeFirst(b, c, t, |a|);
    assert a == x[..|a|] && b == x[..|b|];
    assert s == x[|a| + 1..] && t == x[|b| + 1..];
  }

  lemma {:induction false} NotBeforeFirst(a: string, c: char, s: string, n: nat)
    requires Lacks(a, c) && n < |a + [c] + s| && (a + [c] + s)[n] == c
    ensures |a| <= n
  {
  }

  lemma {:induction false} JoinLacks(parts: seq<string>, sep: string, c: char)
    requires Lacks(sep, c) && forall i :: 0 <= i < |parts| ==> Lacks(parts[i], c)
    ensures Lacks(Join(parts, sep), c)
  {
    if |parts| > 1 {
      JoinLacks(parts[1..], sep, c);
    }
  }

  /** Nonempty pieces without the separator can be read off the joined text. */
  lemma {:induction false} JoinInjective(xs: seq<string>, ys: seq<string>, c: char)
    requires forall i :: 0 <= i < |xs| ==> xs[i] != "" && Lacks(xs[i], c)
    requires forall i :: 0 <= i < |ys| ==> ys[i] != "" && Lacks(ys[i], c)
    requires Join(xs, [c]) == Join(ys, [c])
    ensures xs == ys
  {
    JoinHead(xs, c);
    JoinHead(ys, c);
    if xs != [] {
      var a, b := xs[0], ys[0];
      if |xs| > 1 && |ys| > 1 {
        FirstSeparator(a, b, c, Join(xs[1..], [c]), Join(ys[1..], [c]));
        JoinInjective(xs[1..], ys[1..], c);
        assert xs == [a] + xs[1..] && ys == [b] + ys[1..];
      } else {
        assert xs == [a] && ys == [b];
      }
    }
  }

  lemma {:induction false} JoinHead(xs: seq<string>, c: char)
    requires forall i :: 0 <= i < |xs| ==> xs[i] != "" && Lacks(xs[i], c)
    ensures Join(xs, [c]) == "" <==> xs == []
    ensures Lacks(Join(xs, [c]), c) <==> |xs| <= 1
  {
    if |xs| > 1 {
      assert Join(xs, [c])[|xs[0]|] == c;
    }
  }

  // ----- splitting

  /** `s.split(c)`. */
  function Split(s: string, c: char): (r: seq<string>)
    ensures r != []
  {
    if s == [] then [""]
    else
      var rest := Split(s[1..], c);
      if s[0] == c then [""] + rest else [[s[0]] + rest[0]] + rest[1..]
  }

  lemma {:induction false} SplitConcat(s: string, t: string, c: char)
    ensures Split(s + [c] + t, c) == Split(s, c) + Split(t, c)
  {
    if s == [] {
      assert s + [c] + t == [c] + t && ([c] + t)[1..] == t;
    } else {
      assert (s + [c] + t)[1..] == s[1..] + [c] + t;
      SplitConcat(s[1..], t, c);
    }
  }

  lemma {:induction false} SplitLacks(s: string, c: char)
    requires Lacks(s, c)
    ensures Split(s, c) == [s]
  {
    if s != [] {
      SplitLacks(s[1..], c);
      assert [s[0]] + s[1..] == s;
    }
  }

  lemma {:induction false} JoinSplit(s: string, c: char)
    ensures Join(Split(s, c), [c]) == s
  {
    if s != [] {
      JoinSplit(s[1..], c);
      var rest := Split(s[1..], c);
      var r := Split(s, c);
      assert s == [s[0]] + s[1..];
      assert s[0] == c ==> r[1..] == rest;
      assert s[0] != c ==> r[1..] == rest[1..];
    }
  }

  /** What joining with separators and splitting again yields. */
  function Pieces(parts: seq<string>, c: char): seq<string> {
    if parts == [] then [""]
    else if |parts| == 1 then Split(parts[0], c)
    else Split(parts[0], c) + Pieces(parts[1..], c)
  }

  lemma {:induction false} SplitJoin(parts: seq<string>, c: char)
    ensures Split(Join(parts, [c]), c) == Pieces(parts, c)
  {
    if |parts| > 1 {
      SplitJoin(parts[1..], c);
      SplitConcat(parts[0], Join(parts[1..], [c]), c);
    }
  }

  /** Joined texts agree exactly when their pieces do. */
  lemma {:induction false} JoinPieces(xs: seq<string>, ys: seq<string>, c: char)
    ensures Join(xs, [c]) == Join(ys, [c]) <==> Pieces(xs, c) == Pieces(ys, c)
  {
    SplitJoin(xs, c);
    SplitJoin(ys, c);
    JoinSplit(Join(xs, [c]), c);
    JoinSplit(Join(ys, [c]), c);
  }

  // ----- the default order of `sort`

  predicate LexLe(a: string, b: string) {
    a == [] || (b != [] && (a[0] < b[0] || (a[0] == b[0] && LexLe(a[1..], b[1..]))))
  }

  lemma {:induction false} LexTotal(a: string, b: string)
    ensures LexLe(a, b) || LexLe(b, a)
    ensures LexLe(a, b) && LexLe(b, a) ==> a == b
  {
    if a != [] && b != [] && a[0] == b[0] {
      LexTotal(a[1..], b[1..]);
      assert a == [a[0]] + a[1..] && b == [b[0]] + b[1..];
    }
  }

  lemma {:induction false} LexTransitive(a: string, b: string, c: string)
    requires LexLe(a, b) && LexLe(b, c)
    ensures LexLe(a, c)
  {
    if a != [] && b != [] && c != [] && a[0] == b[0] == c[0] {
      LexTransitive(a[1..], b[1..], c[1..]);
    }
  }

  /** The default order is total and tells all strings apart. */
  lemma {:induction false} LexOrder()
    ensures TotalPreorder(LexLe) && Antisymmetric(LexLe)
  {
    forall a, b ensures LexLe(a, b) || LexLe(b, a) { LexTotal(a, b); }
    forall a, b | LexLe(a, b) && LexLe(b, a) ensures a == b { LexTotal(a, b); }
    forall a, b, c | LexLe(a, b) && LexLe(b, c) ensures LexLe(a, c) { LexTransitive(a, b, c); }
  }

  /** Sorted lists of strings agree exactly when the lists hold the same strings. */
  lemma {:induction false} LexSortDecides(xs: seq<string>, ys: seq<string>)
    ensures SortBy(xs, LexLe) == SortBy(ys, LexLe) <==> multiset(xs) == multiset(ys)
  {
    LexOrder();
    if multiset(xs) == multiset(ys) {
      SortOfPermutation(xs, ys, LexLe);
    }
  }
}
