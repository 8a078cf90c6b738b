/** What the normal form of a menu name and a size scope are, read off the text
    (packages/customization/src/index.ts). */
module MenuWords {
  import opened Strings
  import opened Sorting
  import opened MenuText

  // ----- letters

  lemma {:induction false} LowerExact(s: string)
    ensures |Lower(s)| == |s|
    ensures forall i :: 0 <= i < |s| ==>
              Lower(s)[i] as int == if 'A' <= s[i] <= 'Z' then s[i] as int + 32 else s[i] as int
  {
    if s != "" {
      LowerExact(s[1..]);
    }
  }

  lemma {:induction false} LowerConcat(a: string, b: string)
    ensures Lower(a + b) == Lower(a) + Lower(b)
  {
    if a == "" {
      assert a + b == b;
    } else {
      assert (a + b)[1..] == a[1..] + b;
      LowerConcat(a[1..], b);
    }
  }

  lemma {:induction false} AmpersandsConcat(a: string, b: string, replacement: string)
    ensures ReplaceAmpersands(a + b, replacement) == ReplaceAmpersands(a, replacement) + ReplaceAmpersands(b, replacement)
  {
    if a == "" {
      assert a + b == b;
    } else {
      assert (a + b)[1..] == a[1..] + b;
      AmpersandsConcat(a[1..], b, replacement);
    }
  }

  /** Every ampersand is replaced, and nothing else. */
  lemma {:induction false} AmpersandsExact(a: string, b: string, replacement: string)
    requires Lacks(a, '&')
    ensures ReplaceAmpersands(a, replacement) == a
    ensures ReplaceAmpersands(a + "&" + b, replacement) == a + replacement + ReplaceAmpersands(b, replacement)
  {
    if a == "" {
      assert a + "&" + b == "&" + b && ("&" + b)[1..] == b;
    } else {
      assert (a + "&" + b)[1..] == a[1..] + "&" + b;
      AmpersandsExact(a[1..], b, replacement);
      assert [a[0]] + a[1..] == a;
    }
  }

  // ----- words

  lemma {:induction false} SqueezeConcat(x: string, y: string, run: bool)
    ensures Squeeze(x + y, run) == Squeeze(x, run) + Squeeze(y, if x == "" then run else !IsAlnum(x[|x| - 1]))
    decreases x
  {
    if x == "" {
      assert x + y == y;
    } else {
      assert (x + y)[1..] == x[1..] + y;
      SqueezeConcat(x[1..], y, !IsAlnum(x[0]));
    }
  }

  function Words(x: string): string { Trim(Squeeze(x, false)) }

  /** Two texts as words of one, with a space between. */
  function Joined(a: string, b: string): string {
    if a == "" then b else if b == "" then a else a + " " + b
  }

  lemma {:induction false} EndsApart(p: string)
    requires p != "" && !IsSpace(p[|p| - 1])
    ensures !AllSpace(p) && TrimStart(p) != "" && TrimEnd(TrimStart(p)) == TrimStart(p)
  {
    TrimStartEmpty(p);
    TrimStartHead(p);
    hide TrimStart;
    var u := TrimStart(p);
    assert u[|u| - 1] == p[|p| - 1];
  }

  lemma {:induction false} TrimBoth(p: string, q: string)
    requires p != "" && !IsSpace(p[|p| - 1]) && q != "" && !IsSpace(q[0])
    ensures Trim(p + " " + q) == TrimStart(p) + " " + TrimEnd(q)
  {
    EndsApart(p);
    assert !AllSpace(q);
    TrimStartConcat(p, " " + q);
    TrimEndConcat(TrimStart(p) + " ", q);
    hide TrimStart, TrimEnd, AllSpace;
    assert p + " " + q == p + (" " + q);
    assert TrimStart(p) + (" " + q) == TrimStart(p) + " " + q;
  }

  lemma {:induction false} TrimJoined(p: string, q: string)
    requires p != "" ==> !IsSpace(p[|p| - 1])
    requires q != "" ==> !IsSpace(q[0])
    ensures Trim(p + " " + q) == Joined(Trim(p), Trim(q))
  {
    TrimEmpty(p);
    TrimEmpty(q);
    if p == "" {
      TrimPadded(" ", q, "");
      assert p + " " + q == " " + q + "";
    } else if q == "" {
      TrimPadded("", p, " ");
      assert p + " " + q == "" + p + " ";
    } else {
      EndsApart(p);
      TrimBoth(p, q);
      assert TrimStart(q) == q && !AllSpace(q);
      hide TrimStart, TrimEnd, AllSpace;
    }
  }

  /** What remains of the text after a separator. */
  lemma {:induction false} AfterSeparator(y: string)
    ensures Trim(Squeeze(y, true)) == Words(y)
    ensures Squeeze(y, true) != "" ==> !IsSpace(Squeeze(y, true)[0])
  {
    SqueezeShape(y, true);
    var b := Squeeze(y, true);
    if y != "" && !IsAlnum(y[0]) {
      assert Squeeze(y, false) == " " + b;
      TrimPadded(" ", b, "");
      assert " " + b + "" == " " + b;
    }
  }

  /** What the text before a separator becomes, without the space it may end in. */
  lemma {:induction false} BeforeSeparator(x: string) returns (p: string)
    ensures Trim(p) == Words(x) && (p != "" ==> !IsSpace(p[|p| - 1]))
    ensures Squeeze(x, false) + (if x != "" && !IsAlnum(x[|x| - 1]) then "" else " ") == p + " "
  {
    hide Trim;
    var a := Squeeze(x, false);
    if x == "" {
      p := "";
    } else if IsAlnum(x[|x| - 1]) {
      SqueezeEnds(x);
      p := a;
    } else {
      SqueezeEnds(x);
      SqueezeShape(x, false);
      p := a[..|a| - 1];
      assert a == p + " " == "" + p + " ";
      TrimPadded("", p, " ");
    }
  }

  /** Squeezed text ends as the text does. */
  lemma {:induction false} SqueezeEnds(x: string)
    requires x != ""
    ensures var a := Squeeze(x, false); a != "" && a[|a| - 1] == if IsAlnum(x[|x| - 1]) then x[|x| - 1] else ' '
  {
    var m, c := x[..|x| - 1], x[|x| - 1];
    assert x == m + [c] && [c][1..] == "";
    SqueezeConcat(m, [c], false);
    if m != "" {
      SqueezeEnds(m);
    }
  }

  lemma {:induction false} SqueezedCut(x: string, c: char, y: string)
    requires !IsAlnum(c)
    ensures Squeeze(x + [c] + y, false)
         == Squeeze(x, false) + (if x != "" && !IsAlnum(x[|x| - 1]) then "" else " ") + Squeeze(y, true)
  {
    SqueezeConcat(x, [c] + y, false);
    assert x + [c] + y == x + ([c] + y) && ([c] + y)[1..] == y;
  }

  lemma {:induction false} WordsCut(x: string, c: char, y: string)
    requires !IsAlnum(c)
    ensures Words(x + [c] + y) == Joined(Words(x), Words(y))
  {
    hide Trim, Joined;
    var p := BeforeSeparator(x);
    AfterSeparator(y);
    SqueezedCut(x, c, y);
    hide Squeeze;
    var b := Squeeze(y, true);
    assert Squeeze(x + [c] + y, false) == p + " " + b;
    TrimJoined(p, b);
  }

  lemma {:induction false} WordsPlain(s: string)
    requires forall i :: 0 <= i < |s| ==> IsAlnum(s[i])
    ensures Words(s) == s
  {
    SqueezeSpaced(s, false);
    TrimTrimmed(s);
  }

  /** A text of ASCII letters and digits is its own normal form, but for the case. */
  lemma {:induction false} NormalizeWord(s: string)
    requires forall i :: 0 <= i < |s| ==> 'a' <= s[i] <= 'z' || 'A' <= s[i] <= 'Z' || '0' <= s[i] <= '9'
    ensures Normalize(s) == Lower(s)
  {
    LowerExact(s);
    AmpersandsExact(Lower(s), "", " and ");
    WordsPlain(Lower(s));
  }

  /** Any other character but an ampersand parts the text into words. */
  lemma {:induction false} NormalizeCut(a: string, c: char, b: string)
    requires !('a' <= c <= 'z' || 'A' <= c <= 'Z' || '0' <= c <= '9') && c != '&'
    ensures Normalize(a + [c] + b) == Joined(Normalize(a), Normalize(b))
  {
    var x, y := ReplaceAmpersands(Lower(a), " and "), ReplaceAmpersands(Lower(b), " and ");
    Spells(a, c, b);
    assert Lower([c]) == [c];
    assert ReplaceAmpersands([c], " and ") == [c];
    WordsCut(x, c, y);
  }

  lemma {:induction false} Spells(a: string, c: char, b: string)
    ensures ReplaceAmpersands(Lower(a + [c] + b), " and ")
         == ReplaceAmpersands(Lower(a), " and ") + ReplaceAmpersands(Lower([c]), " and ") + ReplaceAmpersands(Lower(b), " and ")
  {
    LowerConcat(a + [c], b);
    LowerConcat(a, [c]);
    AmpersandsConcat(Lower(a) + Lower([c]), Lower(b), " and ");
    AmpersandsConcat(Lower(a), Lower([c]), " and ");
  }

  lemma {:induction false} WordsAnd(x: string, y: string)
    ensures Words(x + " and " + y) == Joined(Joined(Words(x), "and"), Words(y))
  {
    hide Words, Joined;
    assert x + " and " + y == (x + [' '] + "and") + [' '] + y;
    WordsCut(x + [' '] + "and", ' ', y);
    WordsCut(x, ' ', "and");
    WordsPlain("and");
  }

  /** An ampersand is the word "and". */
  lemma {:induction false} NormalizeAmpersand(a: string, b: string)
    ensures Normalize(a + "&" + b) == Joined(Joined(Normalize(a), "and"), Normalize(b))
  {
    var x, y := ReplaceAmpersands(Lower(a), " and "), ReplaceAmpersands(Lower(b), " and ");
    Spells(a, '&', b);
    assert Lower("&") == "&";
    assert ReplaceAmpersands("&", " and ") == " and ";
    hide Trim, Squeeze, Lower, ReplaceAmpersands, Joined;
    WordsAnd(x, y);
  }

  // ----- occurrences

  predicate OccursAt(part: string, s: string, n: nat) {
    n + |part| <= |s| && s[n..n + |part|] == part
  }

  /** The part stands somewhere in the text. */
  ghost predicate Occurs(part: string, s: string) {
    exists n: nat :: OccursAt(part, s, n)
  }

  lemma {:induction false} SliceOfTail(s: string, n: nat, m: nat)
    requires n <= m < |s|
    ensures s[1..][n..m] == s[n + 1..m + 1]
  {
  }

  lemma {:induction false} OccursInTail(part: string, s: string, n: nat)
    requires s != ""
    ensures OccursAt(part, s[1..], n) <==> OccursAt(part, s, n + 1)
  {
    if n + |part| < |s| {
      SliceOfTail(s, n, n + |part|);
    }
  }

  lemma {:induction false} ContainsExact(s: string, part: string)
    ensures Contains(s, part) <==> Occurs(part, s)
  {
    assert StartsWith(s, part) <==> OccursAt(part, s, 0) by { assert |part| <= |s| ==> s[0..0 + |part|] == s[..|part|]; }
    if s != "" {
      hide OccursAt, StartsWith;
      ContainsExact(s[1..], part);
      if n: nat :| OccursAt(part, s[1..], n) {
        OccursInTail(part, s, n);
      }
      if n: nat :| OccursAt(part, s, n) {
        if n > 0 {
          OccursInTail(part, s, n - 1);
        }
      }
    }
  }

  // ----- the scope among the size names

  /** The words of the name include the size. */
  ghost predicate Names(name: string, size: string) {
    Occurs(" " + size + " ", " " + Normalize(name) + " ")
  }

  /** Size k of the list is named, is as long as any other named one, and longer than those before it. */
  ghost predicate IsScopeAt(name: string, sizes: seq<string>, k: nat) {
    && k < |sizes| && Names(name, sizes[k])
    && forall j :: 0 <= j < |sizes| && Names(name, sizes[j]) ==> |sizes[j]| <= |sizes[k]| && (j < k ==> |sizes[j]| < |sizes[k]|)
  }

  lemma {:induction false} FirstMentionedInsert(name: string, x: string, ys: seq<string>)
    requires Sorted(ys, LongerFirst)
    ensures var f := FirstMentioned(name, ys);
            FirstMentioned(name, Insert(x, ys, LongerFirst))
            == if Mentions(name, x) && (f.None? || |x| >= |f.value|) then Some(x) else f
  {
    hide Mentions;
    if ys != [] && !LongerFirst(x, ys[0]) {
      FirstMentionedInsert(name, x, ys[1..]);
      assert ([ys[0]] + Insert(x, ys[1..], LongerFirst))[1..] == Insert(x, ys[1..], LongerFirst);
    } else {
      assert ([x] + ys)[1..] == ys;
      if FirstMentioned(name, ys).Some? {
        assert FirstMentioned(name, ys).value in ys;
      }
    }
  }

  lemma {:induction false} ScopeOfCons(name: string, sizes: seq<string>)
    requires sizes != []
    ensures var rest := InferOptionSizeScope(name, sizes[1..]);
            InferOptionSizeScope(name, sizes)
            == if Mentions(name, sizes[0]) && (rest.None? || |sizes[0]| >= |rest.value|) then Some(sizes[0]) else rest
  {
    hide Mentions;
    SortBySorted(sizes[1..], LongerFirst);
    FirstMentionedInsert(name, sizes[0], SortBy(sizes[1..], LongerFirst));
  }

  lemma {:induction false} MentionsExact(name: string, size: string)
    ensures Mentions(name, size) <==> Names(name, size)
  {
    ContainsExact(" " + Normalize(name) + " ", " " + size + " ");
  }

  lemma {:induction false} OneScope(name: string, sizes: seq<string>, j: nat, k: nat)
    requires IsScopeAt(name, sizes, j) && IsScopeAt(name, sizes, k)
    ensures j == k
  {
    hide Names;
  }

  lemma {:induction false} ScopeFound(name: string, sizes: seq<string>) returns (k: nat)
    requires InferOptionSizeScope(name, sizes).Some?
    ensures IsScopeAt(name, sizes, k) && sizes[k] == InferOptionSizeScope(name, sizes).value
  {
    hide Names, Mentions, InferOptionSizeScope;
    ScopeLongest(name, sizes);
    var rest := sizes[1..];
    ScopeOfCons(name, sizes);
    ScopeLongest(name, rest);
    assert forall i :: 0 < i < |sizes| ==> sizes[i] == rest[i - 1];
    forall i | 0 <= i < |sizes| ensures Mentions(name, sizes[i]) <==> Names(name, sizes[i]) { MentionsExact(name, sizes[i]); }
    var tail := InferOptionSizeScope(name, rest);
    if Mentions(name, sizes[0]) && (tail.None? || |sizes[0]| >= |tail.value|) {
      k := 0;
    } else {
      k := ScopeFound(name, rest);
      k := k + 1;
    }
  }

  /** The scope of an option name is the first of the longest sizes it names, and there is none exactly
      when it names none. */
  lemma {:induction false} ScopeExact(name: string, sizes: seq<string>)
    ensures InferOptionSizeScope(name, sizes).None? <==> forall k :: 0 <= k < |sizes| ==> !Names(name, sizes[k])
    ensures forall k: nat :: IsScopeAt(name, sizes, k) ==> InferOptionSizeScope(name, sizes) == Some(sizes[k])
    ensures InferOptionSizeScope(name, sizes).Some? ==> exists k: nat :: IsScopeAt(name, sizes, k)
  {
    hide Names, Mentions, InferOptionSizeScope;
    ScopeLongest(name, sizes);
    forall i | 0 <= i < |sizes| ensures Mentions(name, sizes[i]) <==> Names(name, sizes[i]) { MentionsExact(name, sizes[i]); }
    if InferOptionSizeScope(name, sizes).Some? {
      var k := ScopeFound(name, sizes);
      forall j: nat | IsScopeAt(name, sizes, j) ensures j == k { OneScope(name, sizes, j, k); }
    }
  }
}
