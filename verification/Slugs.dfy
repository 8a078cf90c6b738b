/** Item slugs of the menu import: `slugify`, `uniqueSlug` and `mkItem`
    (packages/database/prisma/extract-menu-docx.ts). */
module Slugs {
  import opened Decimals
  import opened Strings
  import opened MenuText

  // ----- slugify, on text whose letters are ASCII

  function Spelled(s: string): string {
    ReplaceAmpersands(Lower(s), " and ")
  }

  function DropOther(s: string): (r: string)
    ensures |r| <= |s|
  {
    if s != "" && !IsAlnum(s[0]) then DropOther(s[1..]) else s
  }

  /** `replace(/[^a-z0-9]+/g, "-")`. */
  function Dashed(s: string): string
    decreases |s|
  {
    if s == "" then ""
    else if IsAlnum(s[0]) then [s[0]] + Dashed(s[1..])
    else "-" + Dashed(DropOther(s[1..]))
  }

  function DropDashes(s: string): (r: string)
    ensures |r| <= |s|
  {
    if s != "" && s[0] == '-' then DropDashes(s[1..]) else s
  }

  function DropLastDashes(s: string): string {
    if s != "" && s[|s| - 1] == '-' then DropLastDashes(s[..|s| - 1]) else s
  }

  /** `replace(/-{2,}/g, "-")`. */
  function Collapsed(s: string): string
    decreases |s|
  {
    if s == "" then ""
    else if s[0] == '-' then "-" + Collapsed(DropDashes(s[1..]))
    else [s[0]] + Collapsed(s[1..])
  }

  function Slugify(input: string): string {
    var s := Collapsed(DropLastDashes(DropDashes(Dashed(Spelled(input)))));
    if s != "" then s else "item"
  }

  /** Lower-case words of letters and digits, joined by single dashes. */
  predicate WellFormed(s: string) {
    && s != ""
    && s[0] != '-'
    && s[|s| - 1] != '-'
    && Single(s)
  }

  predicate Single(s: string) {
    && (forall i :: 0 <= i < |s| ==> IsAlnum(s[i]) || s[i] == '-')
    && (forall i :: 0 < i < |s| ==> s[i - 1] != '-' || s[i] != '-')
  }

  lemma {:induction false} OtherDropped(s: string)
    ensures var d := DropOther(s); d != "" ==> IsAlnum(d[0])
  {
    if s != "" && !IsAlnum(s[0]) {
      OtherDropped(s[1..]);
    }
  }

  lemma {:induction false} SingleCons(c: char, s: string)
    requires Single(s) && (IsAlnum(c) || c == '-') && (c == '-' && s != "" ==> s[0] != '-')
    ensures Single([c] + s)
  {
    var t := [c] + s;
    assert forall i :: 0 < i < |t| ==> t[i] == s[i - 1];
  }

  lemma {:induction false} DashedSingle(s: string)
    ensures Single(Dashed(s))
    ensures s != "" ==> Dashed(s) != "" && Dashed(s)[0] == if IsAlnum(s[0]) then s[0] else '-'
    decreases |s|
  {
    if s == "" {
    } else if IsAlnum(s[0]) {
      DashedSingle(s[1..]);
      SingleCons(s[0], Dashed(s[1..]));
    } else {
      var d := DropOther(s[1..]);
      OtherDropped(s[1..]);
      DashedSingle(d);
      SingleCons('-', Dashed(d));
    }
  }

  lemma {:induction false} DropDashesKeeps(s: string)
    requires Single(s)
    ensures Single(DropDashes(s)) && (DropDashes(s) != "" ==> DropDashes(s)[0] != '-')
  {
    if s != "" && s[0] == '-' {
      assert forall i :: 0 <= i < |s[1..]| ==> s[1..][i] == s[i + 1];
      DropDashesKeeps(s[1..]);
    }
  }

  lemma {:induction false} DropLastKeeps(s: string)
    requires Single(s) && (s != "" ==> s[0] != '-')
    ensures var r := DropLastDashes(s);
            Single(r) && (r != "" ==> r[0] != '-' && r[|r| - 1] != '-')
  {
    if s != "" && s[|s| - 1] == '-' {
      DropLastKeeps(s[..|s| - 1]);
    }
  }

  /** The last replacement finds nothing left to do. */
  lemma {:induction false} CollapsedSingle(s: string)
    requires Single(s)
    ensures Collapsed(s) == s
  {
    if s != "" {
      assert forall i :: 0 <= i < |s[1..]| ==> s[1..][i] == s[i + 1];
      CollapsedSingle(s[1..]);
      assert s[0] == '-' && |s| > 1 ==> s[1] != '-';
      assert [s[0]] + s[1..] == s;
    }
  }

  /** Every name, even an empty one, gives a well-formed slug. */
  lemma {:induction false} SlugifyWellFormed(input: string)
    ensures WellFormed(Slugify(input))
  {
    var a := Dashed(Spelled(input));
    DashedSingle(Spelled(input));
    DropDashesKeeps(a);
    DropLastKeeps(DropDashes(a));
    CollapsedSingle(DropLastDashes(DropDashes(a)));
  }

  lemma {:induction false} WellFormedSpelled(s: string)
    requires forall i :: 0 <= i < |s| ==> IsAlnum(s[i]) || s[i] == '-'
    ensures Lower(s) == s && ReplaceAmpersands(s, " and ") == s
  {
    if s != "" {
      WellFormedSpelled(s[1..]);
      assert [s[0]] + s[1..] == s;
    }
  }

  lemma {:induction false} WellFormedDashed(s: string)
    requires Single(s)
    ensures Dashed(s) == s
  {
    if s != "" {
      var t := s[1..];
      assert forall i :: 0 <= i < |t| ==> t[i] == s[i + 1];
      WellFormedDashed(t);
      if !IsAlnum(s[0]) {
        assert t != "" ==> IsAlnum(t[0]);
        assert DropOther(t) == t;
      }
      assert [s[0]] + t == s;
    }
  }

  /** A slug is its own slug. */
  lemma {:induction false} SlugifyFixed(s: string)
    requires WellFormed(s)
    ensures Slugify(s) == s
  {
    WellFormedSpelled(s);
    WellFormedDashed(s);
    assert DropDashes(s) == s && DropLastDashes(s) == s;
    CollapsedSingle(s);
  }

  // ----- a slug and the normal form of the name

  /** The text with a dash for every space. */
  function Hyphened(s: string): (r: string)
    ensures |r| == |s| && forall i :: 0 <= i < |s| ==> r[i] == if s[i] == ' ' then '-' else s[i]
  {
    seq(|s|, i requires 0 <= i < |s| => if s[i] == ' ' then '-' else s[i])
  }

  lemma {:induction false} SqueezeDropped(s: string)
    ensures Squeeze(s, true) == Squeeze(DropOther(s), false)
  {
    if s != "" && !IsAlnum(s[0]) {
      SqueezeDropped(s[1..]);
    }
  }

  lemma {:induction false} DashedIsSqueezed(s: string)
    ensures Dashed(s) == Hyphened(Squeeze(s, false))
    decreases |s|
  {
    if s == "" {
    } else if IsAlnum(s[0]) {
      DashedIsSqueezed(s[1..]);
      assert Hyphened([s[0]] + Squeeze(s[1..], false)) == [s[0]] + Hyphened(Squeeze(s[1..], false));
    } else {
      SqueezeDropped(s[1..]);
      var d := DropOther(s[1..]);
      DashedIsSqueezed(d);
      assert Hyphened(" " + Squeeze(d, false)) == "-" + Hyphened(Squeeze(d, false));
    }
  }

  lemma {:induction false} DropDashesIsTrim(s: string)
    requires Spaced(s)
    ensures DropDashes(Hyphened(s)) == Hyphened(TrimStart(s))
  {
    if s != "" && s[0] == ' ' {
      assert Spaced(s[1..]);
      assert Hyphened(s)[1..] == Hyphened(s[1..]);
      DropDashesIsTrim(s[1..]);
    }
  }

  lemma {:induction false} DropLastIsTrim(s: string)
    requires Spaced(s)
    ensures DropLastDashes(Hyphened(s)) == Hyphened(TrimEnd(s))
  {
    if s != "" && s[|s| - 1] == ' ' {
      var m := s[..|s| - 1];
      assert Spaced(m);
      assert Hyphened(s)[..|s| - 1] == Hyphened(m);
      DropLastIsTrim(m);
    }
  }

  lemma {:induction false} NormalUnfolds(input: string)
    ensures Normalize(input) == TrimEnd(TrimStart(Squeeze(Spelled(input), false)))
    ensures Slugify(input) == var s := Collapsed(DropLastDashes(DropDashes(Dashed(Spelled(input))))); if s != "" then s else "item"
  {
  }

  lemma {:induction false} TrimmedSqueezed(e: string)
    ensures DropLastDashes(DropDashes(Dashed(e))) == Hyphened(TrimEnd(TrimStart(Squeeze(e, false))))
  {
    hide TrimStart, TrimEnd, Dashed, Squeeze, DropDashes, DropLastDashes;
    var q := Squeeze(e, false);
    DashedIsSqueezed(e);
    SqueezeShape(e, false);
    DropDashesIsTrim(q);
    TrimStartHead(q);
    assert Spaced(TrimStart(q));
    DropLastIsTrim(TrimStart(q));
  }

  /** The slug of a name is its menu normal form with dashes for spaces, and "item" if that is empty. */
  lemma {:induction false} SlugOfNormal(input: string)
    ensures Slugify(input) == if Normalize(input) == "" then "item" else Hyphened(Normalize(input))
  {
    hide Trim, TrimStart, TrimEnd, Dashed, Squeeze, DropDashes, DropLastDashes, Collapsed, Spelled, Normalize, Slugify;
    NormalUnfolds(input);
    TrimmedSqueezed(Spelled(input));
    NormalizeNormal(input);
    CollapsedSingle(Hyphened(Normalize(input)));
  }

  // ----- candidates

  /** The slugs tried for a base, in order: base, base-2, base-3, … */
  function Candidate(base: string, k: nat): string {
    if k == 0 then base else base + "-" + Decimal(k + 1)
  }

  lemma {:induction false} CandidateInjective(base: string, j: nat, k: nat)
    requires Candidate(base, j) == Candidate(base, k)
    ensures j == k
  {
    if j > 0 && k > 0 {
      var n := |base| + 1;
      assert Candidate(base, j)[n..] == Decimal(j + 1) && Candidate(base, k)[n..] == Decimal(k + 1);
      DecimalInjective(j + 1, k + 1);
    }
  }

  lemma {:induction false} CandidateWellFormed(base: string, k: nat)
    requires WellFormed(base)
    ensures WellFormed(Candidate(base, k))
  {
    if k > 0 {
      var d := Decimal(k + 1);
      var s := Candidate(base, k);
      assert forall i :: 0 <= i < |base| ==> s[i] == base[i];
      assert s[|base|] == '-';
      assert forall i :: |base| < i < |s| ==> s[i] == d[i - |base| - 1];
    }
  }

  // ----- the first free candidate

  predicate AllTaken(base: string, used: set<string>, k: nat) {
    forall j: nat :: j < k ==> Candidate(base, j) in used
  }

  /** Pigeons and holes: k different candidates cannot all sit in a smaller set. */
  lemma {:induction false} Pigeonhole(base: string, used: set<string>, k: nat)
    requires AllTaken(base, used, k)
    ensures k <= |used|
  {
    if k > 0 {
      var last := Candidate(base, k - 1);
      forall j: nat | j < k - 1 ensures Candidate(base, j) in used - {last} {
        if Candidate(base, j) == last { CandidateInjective(base, j, k - 1); }
      }
      Pigeonhole(base, used - {last}, k - 1);
    }
  }

  function FirstFree(base: string, used: set<string>, k: nat): (n: nat)
    requires AllTaken(base, used, k)
    ensures k <= n <= |used| && Candidate(base, n) !in used && AllTaken(base, used, n)
    decreases |used| + 1 - k
  {
    Pigeonhole(base, used, k);
    if Candidate(base, k) !in used then k else FirstFree(base, used, k + 1)
  }

  /** The slug `uniqueSlug` gives a base. */
  function Issue(base: string, used: set<string>): string {
    Candidate(base, FirstFree(base, used, 0))
  }

  lemma {:induction false} FirstFreeIs(base: string, used: set<string>, n: nat)
    requires AllTaken(base, used, n) && Candidate(base, n) !in used
    ensures FirstFree(base, used, 0) == n
  {
    var m := FirstFree(base, used, 0);
    assert Candidate(base, m) !in used && Candidate(base, n) !in used;
  }

  class ItemSlugs {
    var used: set<string>

    constructor ()
      ensures used == {}
    {
      used := {};
    }

    /** The loop tries at most one candidate more than there are used slugs. */
    method UniqueSlug(base: string) returns (slug: string, ghost tried: nat)
      modifies this
      ensures slug == Issue(base, old(used)) && slug !in old(used)
      ensures used == old(used) + {slug}
      ensures tried <= |old(used)| + 1
    {
      slug := base;
      var i := 2;
      while slug in used
        invariant i >= 2 && slug == Candidate(base, i - 2)
        invariant AllTaken(base, used, i - 2)
        invariant used == old(used)
        decreases |used| + 2 - i
      {
        assert AllTaken(base, used, i - 1);
        Pigeonhole(base, used, i - 1);
        slug := base + "-" + Decimal(i);
        i := i + 1;
      }
      Pigeonhole(base, used, i - 2);
      FirstFreeIs(base, used, i - 2);
      tried := i - 1;
      used := used + {slug};
    }

    /** The slug `mkItem` gives an item. */
    method MkItem(name: string) returns (slug: string)
      modifies this
      ensures slug == Issue(Slugify(name), old(used)) && used == old(used) + {slug}
      ensures WellFormed(slug) && slug !in old(used)
    {
      ghost var tried;
      slug, tried := UniqueSlug(Slugify(name));
      SlugifyWellFormed(name);
      CandidateWellFormed(Slugify(name), FirstFree(Slugify(name), old(used), 0));
    }
  }

  // ----- whole imports

  /** The slugs given to the items of one import, in order. */
  function Issued(names: seq<string>): (r: seq<string>)
    ensures |r| == |names|
  {
    if names == [] then []
    else
      var n := |names| - 1;
      var r := Issued(names[..n]);
      r + [Issue(Slugify(names[n]), Elements(r))]
  }

  function Elements(s: seq<string>): set<string> { set x | x in s }

  predicate Distinct(s: seq<string>) { forall i, j :: 0 <= i < j < |s| ==> s[i] != s[j] }

  /** No two items of an import share a slug, and every slug is well formed. */
  lemma {:induction false} IssuedDistinct(names: seq<string>)
    ensures Distinct(Issued(names))
    ensures forall i :: 0 <= i < |names| ==> WellFormed(Issued(names)[i])
  {
    hide Slugify, WellFormed, Candidate;
    if names != [] {
      var n := |names| - 1;
      IssuedDistinct(names[..n]);
      var r := Issued(names[..n]);
      var base := Slugify(names[n]);
      SlugifyWellFormed(names[n]);
      var slug := Candidate(base, FirstFree(base, Elements(r), 0));
      CandidateWellFormed(base, FirstFree(base, Elements(r), 0));
      assert forall i :: 0 <= i < n ==> r[i] in Elements(r);
      assert slug !in Elements(r) && Issued(names) == r + [slug];
      assert forall i :: 0 <= i < n ==> Issued(names)[i] == r[i];
      assert Issued(names)[n] == slug && |Issued(names)| == n + 1;
    }
  }

  /** Later items never change the slugs of earlier ones. */
  lemma {:induction false} IssuedPrefix(names: seq<string>, k: nat)
    requires k <= |names|
    ensures Issued(names[..k]) == Issued(names)[..k]
  {
    hide Slugify, Issue;
    if k == |names| {
      assert names[..k] == names;
    } else {
      var n := |names| - 1;
      IssuedPrefix(names[..n], k);
      assert names[..n][..k] == names[..k];
    }
  }

  /** A name whose slug nobody took keeps it unnumbered. */
  lemma {:induction false} PlainSlugKept(names: seq<string>, k: nat)
    requires k < |names| && Slugify(names[k]) !in Issued(names)[..k]
    ensures Issued(names)[k] == Slugify(names[k])
  {
    hide Slugify;
    IssuedPrefix(names, k + 1);
    IssuedPrefix(names, k);
    assert names[..k + 1][..k] == names[..k];
    assert Issued(names)[k] == Issued(names[..k + 1])[k] == Issue(Slugify(names[k]), Elements(Issued(names[..k])));
    FirstFreeIs(Slugify(names[k]), Elements(Issued(names[..k])), 0);
  }

  lemma {:induction false} SameNameCandidates(names: seq<string>, base: string)
    requires forall i :: 0 <= i < |names| ==> Slugify(names[i]) == base
    ensures forall i :: 0 <= i < |names| ==> Issued(names)[i] == Candidate(base, i)
  {
    hide Slugify, Candidate;
    if names != [] {
      var n := |names| - 1;
      SameNameCandidates(names[..n], base);
      var r := Issued(names[..n]);
      assert forall j: nat :: j < n ==> r[j] in Elements(r);
      forall i | 0 <= i < n ensures r[i] != Candidate(base, n) {
        if Candidate(base, i) == Candidate(base, n) { CandidateInjective(base, i, n); }
      }
      FirstFreeIs(base, Elements(r), n);
    }
  }

  /** Items of one name are numbered in the order they come: the second gets -2, the third -3. */
  lemma {:induction false} SameNameNumbered(names: seq<string>, base: string)
    requires forall i :: 0 <= i < |names| ==> Slugify(names[i]) == base
    ensures forall i :: 0 <= i < |names| ==> Issued(names)[i] == if i == 0 then base else base + "-" + Decimal(i + 1)
  {
    SameNameCandidates(names, base);
  }
}
