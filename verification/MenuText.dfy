/** The text rules of the menu (packages/customization/src/index.ts): one normal form for
    ingredient and size names, saved ingredient mappings, and size scopes in option names. */
module MenuText {
  import opened Strings
  import opened Sorting

  predicate IsAlnum(c: char) {
    'a' <= c <= 'z' || '0' <= c <= '9'
  }

  function Lower(s: string): string {
    if s == [] then []
    else [if 'A' <= s[0] <= 'Z' then (s[0] as int + 32) as char else s[0]] + Lower(s[1..])
  }

  /** `s.replace(/&/g, replacement)`. */
  function ReplaceAmpersands(s: string, replacement: string): string {
    if s == [] then []
    else (if s[0] == '&' then replacement else [s[0]]) + ReplaceAmpersands(s[1..], replacement)
  }

  /** `s.replace(/[^a-z0-9]+/g, ' ')`; `run` tells that the last character was already replaced. */
  function Squeeze(s: string, run: bool): string
    decreases s
  {
    if s == [] then []
    else if IsAlnum(s[0]) then [s[0]] + Squeeze(s[1..], false)
    else (if run then [] else " ") + Squeeze(s[1..], true)
  }

  function Normalize(s: string): string {
    Trim(Squeeze(ReplaceAmpersands(Lower(s), " and "), false))
  }

  // ----- normal forms

  /** Letters, digits and single spaces. */
  predicate Spaced(s: string) {
    && (forall i :: 0 <= i < |s| ==> IsAlnum(s[i]) || s[i] == ' ')
    && (forall i :: 0 < i < |s| ==> IsAlnum(s[i - 1]) || IsAlnum(s[i]))
  }

  /** Words of letters and digits with one space between them. */
  predicate Normal(s: string) {
    Trimmed(s) && Spaced(s)
  }

  lemma {:induction false} SpacedCons(c: char, s: string)
    requires Spaced(s) && (IsAlnum(c) || (c == ' ' && (s == [] || IsAlnum(s[0]))))
    ensures Spaced([c] + s)
  {
  }

  lemma {:induction false} SqueezeShape(s: string, run: bool)
    ensures var r := Squeeze(s, run);
            Spaced(r) && (run && r != [] ==> IsAlnum(r[0]))
    decreases s
  {
    if s != [] {
      SqueezeShape(s[1..], !IsAlnum(s[0]));
      SpacedCons(if IsAlnum(s[0]) then s[0] else ' ', Squeeze(s[1..], !IsAlnum(s[0])));
    }
  }

  lemma {:induction false} SqueezeSpaced(s: string, run: bool)
    requires Spaced(s) && (run && s != [] ==> IsAlnum(s[0]))
    ensures Squeeze(s, run) == s
    decreases s
  {
    if s != [] {
      assert |s| > 1 ==> s[1..][0] == s[1];
      SqueezeSpaced(s[1..], !IsAlnum(s[0]));
    }
  }

  lemma {:induction false} PlainUnchanged(s: string)
    requires Spaced(s)
    ensures Lower(s) == s && ReplaceAmpersands(s, " and ") == s
  {
    if s != [] {
      PlainUnchanged(s[1..]);
    }
  }

  lemma {:induction false} NormalizeNormal(s: string)
    ensures Normal(Normalize(s))
  {
    var e := ReplaceAmpersands(Lower(s), " and ");
    var r := Squeeze(e, false);
    SqueezeShape(e, false);
    TrimTrimmed(r);
    var i, j := TrimSlice(r);
  }

  lemma {:induction false} NormalUnchanged(t: string)
    requires Normal(t)
    ensures Normalize(t) == t
  {
    PlainUnchanged(t);
    SqueezeSpaced(t, false);
    TrimTrimmed(t);
  }

  /** Normalising a second time changes nothing. */
  lemma {:induction false} NormalizeIdempotent(s: string)
    ensures Normalize(Normalize(s)) == Normalize(s)
  {
    NormalizeNormal(s);
    NormalUnchanged(Normalize(s));
  }

  // ----- saved ingredient mappings

  predicate StartsWith(s: string, prefix: string) {
    |prefix| <= |s| && s[..|prefix|] == prefix
  }

  /** The ingredient may be meant by the saved mapping, in today's or the old spelling. */
  predicate Means(name: string, match_: string) {
    || Normalize(name) == Normalize(match_)
    || ('&' in name && Normalize(ReplaceAmpersands(name, " ")) == match_)
  }

  /** The distinct identities the mapping may mean, in menu order. */
  function Candidates(match_: string, names: seq<string>): seq<string> {
    if names == [] then []
    else
      var rest := Candidates(match_, names[..|names| - 1]);
      var last := names[|names| - 1];
      if Means(last, match_) && Normalize(last) !in rest then rest + [Normalize(last)] else rest
  }

  function ResolveIngredientMapping(match_: Option<string>, names: seq<string>): Option<string> {
    if match_.None? || match_.value == "" || StartsWith(match_.value, "__") then None
    else if Normalize(match_.value) == "" then None
    else
      var candidates := Candidates(match_.value, names);
      if |candidates| == 1 then Some(candidates[0]) else None
  }

  /** Some ingredient the mapping may mean has the identity `c`. */
  ghost predicate Identity(match_: string, names: seq<string>, c: string) {
    exists i :: 0 <= i < |names| && Means(names[i], match_) && Normalize(names[i]) == c
  }

  lemma {:induction false} IdentityExtend(match_: string, names: seq<string>, c: string)
    requires names != []
    ensures var last := names[|names| - 1];
            Identity(match_, names, c) <==>
              Identity(match_, names[..|names| - 1], c) || (Means(last, match_) && Normalize(last) == c)
  {
    hide Means, Normalize;
    var most := names[..|names| - 1];
    if i :| 0 <= i < |names| && Means(names[i], match_) && Normalize(names[i]) == c {
      assert i < |most| ==> most[i] == names[i];
    }
    if i :| 0 <= i < |most| && Means(most[i], match_) && Normalize(most[i]) == c {
      assert most[i] == names[i];
    }
  }

  lemma {:induction false} CandidatesExact(match_: string, names: seq<string>)
    ensures forall c :: c in Candidates(match_, names) <==> Identity(match_, names, c)
    ensures forall i, j :: 0 <= i < j < |Candidates(match_, names)| ==> Candidates(match_, names)[i] != Candidates(match_, names)[j]
  {
    hide Means, Normalize, Identity;
    if names == [] {
      forall c ensures !Identity(match_, names, c) { NoIdentity(match_, c); }
    } else {
      CandidatesExact(match_, names[..|names| - 1]);
      forall c ensures c in Candidates(match_, names) <==> Identity(match_, names, c) {
        IdentityExtend(match_, names, c);
      }
    }
  }

  lemma {:induction false} NoIdentity(match_: string, c: string)
    ensures !Identity(match_, [], c)
  {
  }

  /** A mapping resolves exactly when every ingredient it may mean is the same one;
      two possible identities, or none, leave it unresolved. */
  lemma {:induction false} ResolveExact(match_: string, names: seq<string>, c: string)
    ensures ResolveIngredientMapping(Some(match_), names) == Some(c) <==>
              && match_ != "" && !StartsWith(match_, "__") && Normalize(match_) != ""
              && Identity(match_, names, c) && (forall d :: Identity(match_, names, d) ==> d == c)
  {
    hide Means, Normalize, Identity;
    CandidatesExact(match_, names);
    var cs := Candidates(match_, names);
    if |cs| == 1 {
      assert cs[0] in cs;
    } else if |cs| > 1 {
      assert cs[0] in cs && cs[1] in cs;
    }
  }

  // ----- size scopes

  predicate Contains(s: string, part: string) {
    StartsWith(s, part) || (s != [] && Contains(s[1..], part))
  }

  predicate LongerFirst(a: string, b: string) {
    |a| >= |b|
  }

  predicate Mentions(name: string, size: string) {
    Contains(" " + Normalize(name) + " ", " " + size + " ")
  }

  function FirstMentioned(name: string, sizes: seq<string>): (r: Option<string>)
    ensures r.Some? ==> r.value in sizes && Mentions(name, r.value)
    ensures r.None? ==> forall s :: s in sizes ==> !Mentions(name, s)
  {
    if sizes == [] then None
    else if Mentions(name, sizes[0]) then Some(sizes[0])
    else FirstMentioned(name, sizes[1..])
  }

  function InferOptionSizeScope(name: string, sizeNames: seq<string>): Option<string> {
    FirstMentioned(name, SortBy(sizeNames, LongerFirst))
  }

  lemma {:induction false} FirstMentionedLongest(name: string, sizes: seq<string>)
    requires Sorted(sizes, LongerFirst) && FirstMentioned(name, sizes).Some?
    ensures forall s :: s in sizes && Mentions(name, s) ==> |s| <= |FirstMentioned(name, sizes).value|
  {
    if !Mentions(name, sizes[0]) {
      FirstMentionedLongest(name, sizes[1..]);
    }
  }

  /** The scope is a longest size the name mentions, and there is one as soon as the name
      mentions any. */
  lemma {:induction false} ScopeLongest(name: string, sizeNames: seq<string>)
    ensures var scope := InferOptionSizeScope(name, sizeNames);
            && (scope.None? <==> forall s :: s in sizeNames ==> !Mentions(name, s))
            && (scope.Some? ==>
                  && scope.value in sizeNames && Mentions(name, scope.value)
                  && forall s :: s in sizeNames && Mentions(name, s) ==> |s| <= |scope.value|)
  {
    var sorted := SortBy(sizeNames, LongerFirst);
    SortBySorted(sizeNames, LongerFirst);
    SameMembers(sizeNames, sorted);
    if FirstMentioned(name, sorted).Some? {
      FirstMentionedLongest(name, sorted);
    }
  }

  /** No two different sizes of the same length are both mentioned. */
  ghost predicate Unambiguous(name: string, sizeNames: seq<string>) {
    forall s, t :: s in sizeNames && t in sizeNames && |s| == |t| && Mentions(name, s) && Mentions(name, t) ==> s == t
  }

  /** For an unambiguous name the scope does not depend on the order of the sizes. */
  lemma {:induction false} ScopeOfPermutation(name: string, a: seq<string>, b: seq<string>)
    requires Unambiguous(name, a) && forall s :: s in a <==> s in b
    ensures InferOptionSizeScope(name, a) == InferOptionSizeScope(name, b)
  {
    ScopeLongest(name, a);
    ScopeLongest(name, b);
  }
}
