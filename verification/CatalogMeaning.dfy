/** What `customizationCatalog` offers and reports, said of the menu itself
    (packages/customization/src/index.ts). */
module CatalogMeaning {
  import opened Strings
  import opened Sorting
  import opened MenuText
  import opened MenuWords
  import opened Catalog
  import opened CatalogTheorems
  import opened CatalogRerun

  // ----- add-ons the product permits

  /** The character is this letter, in upper or lower case. */
  predicate Reads(c: char, letter: char) {
    c == letter || ('A' <= c <= 'Z' && c as int + 32 == letter as int)
  }

  /** The name ends in " additional ingredients", in any case. */
  predicate EndsAdditional(name: string) {
    |name| >= 23 && forall i :: 0 <= i < 23 ==> Reads(name[|name| - 23 + i], " additional ingredients"[i])
  }

  /** An add-on group made for this product alone, by its scope and its name. */
  predicate OwnExtras(item: Product, g: GroupInfo) {
    g.contextKey == Some("addon") && g.addonScope == Some(item.id) && EndsAdditional(g.name)
  }

  /** The ingredient may be meant by the saved text, as it is or by the old spelling without ampersands. */
  predicate Fits(name: string, saved: string) {
    || Normalize(name) == Normalize(saved)
    || ('&' in name && Normalize(ReplaceAmpersands(name, " ")) == saved)
  }

  /** The saved text means the ingredient of this normal form and no other. */
  ghost predicate MeansOnly(saved: Option<string>, ingredients: seq<string>, c: string) {
    && saved.Some? && !("__" <= saved.value) && Normalize(saved.value) != ""
    && (exists i :: 0 <= i < |ingredients| && Fits(ingredients[i], saved.value) && Normalize(ingredients[i]) == c)
    && (forall i :: 0 <= i < |ingredients| && Fits(ingredients[i], saved.value) ==> Normalize(ingredients[i]) == c)
  }

  /** The product permits the add-on: one that is always allowed only in a group scoped to the product,
      any other only if it means one ingredient of the product. A product with an add-on group of its
      own takes add-ons from such groups only. */
  ghost predicate Permitted(item: Product, g: GroupInfo, o: MenuOption) {
    && (o.addonMatch == Some("__always__") ==> g.addonScope == Some(item.id))
    && (o.addonMatch != Some("__always__") ==> exists c :: MeansOnly(o.addonMatch, item.ingredients, c))
    && ((exists i :: 0 <= i < |item.groups| && OwnExtras(item, item.groups[i].info)) ==> OwnExtras(item, g))
  }

  // ----- sizes

  /** Option j of group i is the size s. */
  predicate SizeAt(groups: seq<Group>, i: nat, j: nat, s: string) {
    && i < |groups| && groups[i].info.contextKey == Some("size") && j < |groups[i].options|
    && Normalize(groups[i].options[j].name) == s
  }

  /** Place (i, j) is (k, l) or comes before it. */
  predicate UpTo(i: nat, j: nat, k: nat, l: nat) {
    i < k || (i == k && j <= l)
  }

  /** The option name is meant for size s: the longest size it names, the first of them in the menu. */
  ghost predicate MeantFor(groups: seq<Group>, name: string, s: string) {
    && Names(name, s)
    && exists i: nat, j: nat :: SizeAt(groups, i, j, s) && LeadsAt(groups, name, i, j, s)
  }

  ghost predicate LeadsAt(groups: seq<Group>, name: string, i: nat, j: nat, s: string) {
    forall k: nat, l: nat, t :: SizeAt(groups, k, l, t) && Names(name, t) ==> |t| < |s| || (|t| == |s| && UpTo(i, j, k, l))
  }

  /** Some option that is size s is selected. */
  ghost predicate Chosen(groups: seq<Group>, selections: Selections, s: string) {
    exists i: nat, j: nat :: SizeAt(groups, i, j, s)
      && groups[i].info.id in selections && groups[i].options[j].id in selections[groups[i].info.id]
  }

  /** The size the option name is meant for, if there is one, is selected. */
  ghost predicate ForChosenSize(groups: seq<Group>, selections: Selections, name: string) {
    forall s :: MeantFor(groups, name, s) ==> s == "" || Chosen(groups, selections, s)
  }

  /** The customer may be offered the option: any that is no add-on, and add-ons that the product
      permits and that are meant for a selected size. */
  ghost predicate Wanted(item: Product, selections: Selections, g: GroupInfo, o: MenuOption) {
    g.contextKey == Some("addon") ==> Permitted(item, g, o) && ForChosenSize(item.groups, selections, o.name)
  }

  // ----- what the code decides

  lemma {:induction false} NamedAdditionalExact(name: string)
    ensures NamedAdditional(name) <==> EndsAdditional(name)
  {
    if |name| >= 23 {
      var tail := name[|name| - 23..];
      LowerExact(tail);
      assert forall i :: 0 <= i < 23 ==> tail[i] == name[|name| - 23 + i];
      if EndsAdditional(name) {
        forall i | 0 <= i < 23 ensures Lower(tail)[i] == ADDITIONAL[i] {
          assert Reads(name[|name| - 23 + i], " additional ingredients"[i]);
          AdditionalIsLower(i);
        }
        assert Lower(tail) == ADDITIONAL;
      }
    }
  }

  lemma {:induction false} AdditionalIsLower(i: nat)
    requires i < 23
    ensures !('A' <= ADDITIONAL[i] <= 'Z')
  {
  }

  lemma {:induction false} DedicatedExact(item: Product, g: GroupInfo)
    ensures IsAddon(g) && IsDedicated(item, g) <==> OwnExtras(item, g)
    ensures HasDedicated(item) <==> exists i :: 0 <= i < |item.groups| && OwnExtras(item, item.groups[i].info)
  {
    hide NamedAdditional, EndsAdditional;
    NamedAdditionalExact(g.name);
    forall i | 0 <= i < |item.groups|
      ensures IsAddon(item.groups[i].info) && IsDedicated(item, item.groups[i].info) <==> OwnExtras(item, item.groups[i].info)
    {
      NamedAdditionalExact(item.groups[i].info.name);
    }
  }

  /** A saved mapping resolves to an ingredient exactly when it means that one only. */
  lemma {:induction false} ResolvesExact(saved: Option<string>, ingredients: seq<string>, c: string)
    ensures ResolveIngredientMapping(saved, ingredients) == Some(c) <==> MeansOnly(saved, ingredients, c)
  {
    if saved.Some? {
      var m := saved.value;
      ResolveExact(m, ingredients, c);
      EmptyNormal();
      assert StartsWith(m, "__") <==> "__" <= m;
      FitsMeans(m, ingredients);
      hide Normalize, Means, Fits, ResolveIngredientMapping;
      if MeansOnly(saved, ingredients, c) {
        assert Identity(m, ingredients, c);
      }
      if Identity(m, ingredients, c) && (forall d :: Identity(m, ingredients, d) ==> d == c) {
        forall i | 0 <= i < |ingredients| && Fits(ingredients[i], m) ensures Normalize(ingredients[i]) == c {
          assert Identity(m, ingredients, Normalize(ingredients[i]));
        }
      }
    }
  }

  lemma {:induction false} EmptyNormal()
    ensures Normalize("") == ""
  {
    NormalUnchanged("");
  }

  lemma {:induction false} FitsMeans(m: string, ingredients: seq<string>)
    ensures forall i :: 0 <= i < |ingredients| ==> (Fits(ingredients[i], m) <==> Means(ingredients[i], m))
  {
    hide Normalize, ReplaceAmpersands;
  }

  lemma {:induction false} AuthorizedExact(item: Product, g: GroupInfo, o: MenuOption)
    requires g.contextKey == Some("addon")
    ensures Authorized(item, g, o) <==> Permitted(item, g, o)
  {
    hide IsDedicated, OwnExtras, HasDedicated, MeansOnly, ResolveIngredientMapping;
    DedicatedExact(item, g);
    var r := ResolveIngredientMapping(o.addonMatch, item.ingredients);
    forall c ensures r == Some(c) <==> MeansOnly(o.addonMatch, item.ingredients, c) {
      ResolvesExact(o.addonMatch, item.ingredients, c);
    }
    assert r.Some? ==> MeansOnly(o.addonMatch, item.ingredients, r.value);
  }

  // ----- the list of sizes

  /** The place of option j of group i among all size names. */
  function SizeIndex(groups: seq<Group>, i: nat, j: nat): nat
    requires i < |groups|
  {
    if i == 0 then j
    else (if groups[0].info.contextKey == Some("size") then |groups[0].options| else 0) + SizeIndex(groups[1..], i - 1, j)
  }

  lemma {:induction false} OptionNamesAt(options: seq<MenuOption>)
    ensures |OptionNames(options)| == |options|
    ensures forall j :: 0 <= j < |options| ==> OptionNames(options)[j] == Normalize(options[j].name)
  {
    hide Normalize;
    if options != [] {
      OptionNamesAt(options[1..]);
    }
  }

  lemma {:induction false} SizeNameAt(groups: seq<Group>, i: nat, j: nat, s: string)
    requires SizeAt(groups, i, j, s)
    ensures SizeIndex(groups, i, j) < |SizeNames(groups)| && SizeNames(groups)[SizeIndex(groups, i, j)] == s
  {
    hide Normalize;
    OptionNamesAt(groups[0].options);
    if i > 0 {
      SizeNameAt(groups[1..], i - 1, j, s);
    }
  }

  lemma {:induction false} SizePlace(groups: seq<Group>, n: nat) returns (i: nat, j: nat)
    requires n < |SizeNames(groups)|
    ensures SizeAt(groups, i, j, SizeNames(groups)[n]) && SizeIndex(groups, i, j) == n
  {
    hide Normalize;
    OptionNamesAt(groups[0].options);
    var first := if groups[0].info.contextKey == Some("size") then |groups[0].options| else 0;
    if n < first {
      i, j := 0, n;
    } else {
      i, j := SizePlace(groups[1..], n - first);
      i := i + 1;
    }
  }

  lemma {:induction false} SizesInOrder(groups: seq<Group>, i: nat, j: nat, k: nat, l: nat, s: string, t: string)
    requires SizeAt(groups, i, j, s) && SizeAt(groups, k, l, t)
    ensures UpTo(i, j, k, l) <==> SizeIndex(groups, i, j) <= SizeIndex(groups, k, l)
  {
    hide Normalize;
    if i > 0 && k > 0 {
      SizesInOrder(groups[1..], i - 1, j, k - 1, l, s, t);
    }
  }

  /** The scope the code infers is the size the name is meant for. */
  lemma {:induction false} MeantExact(groups: seq<Group>, name: string, s: string)
    ensures MeantFor(groups, name, s) <==> InferOptionSizeScope(name, SizeNames(groups)) == Some(s)
  {
    hide Normalize, Names, InferOptionSizeScope, SizeNames;
    var sizes := SizeNames(groups);
    ScopeExact(name, sizes);
    if MeantFor(groups, name, s) {
      var i: nat, j: nat :| SizeAt(groups, i, j, s) && LeadsAt(groups, name, i, j, s);
      LeaderIsScope(groups, name, i, j, s);
    }
    if InferOptionSizeScope(name, sizes) == Some(s) {
      var n: nat :| IsScopeAt(name, sizes, n);
      ScopeIsLeader(groups, name, n);
    }
  }

  lemma {:induction false} LeaderIsScope(groups: seq<Group>, name: string, i: nat, j: nat, s: string)
    requires SizeAt(groups, i, j, s) && LeadsAt(groups, name, i, j, s) && Names(name, s)
    ensures IsScopeAt(name, SizeNames(groups), SizeIndex(groups, i, j))
    ensures SizeNames(groups)[SizeIndex(groups, i, j)] == s
  {
    hide Normalize, Names, SizeNames;
    var sizes, n := SizeNames(groups), SizeIndex(groups, i, j);
    SizeNameAt(groups, i, j, s);
    forall m | 0 <= m < |sizes| && Names(name, sizes[m]) ensures |sizes[m]| <= |s| && (m < n ==> |sizes[m]| < |s|) {
      var k, l := SizePlace(groups, m);
      SizesInOrder(groups, i, j, k, l, s, sizes[m]);
    }
  }

  lemma {:induction false} ScopeIsLeader(groups: seq<Group>, name: string, n: nat)
    requires IsScopeAt(name, SizeNames(groups), n)
    ensures MeantFor(groups, name, SizeNames(groups)[n])
  {
    hide Normalize, Names, SizeNames;
    var sizes := SizeNames(groups);
    var s := sizes[n];
    var i, j := SizePlace(groups, n);
    forall k: nat, l: nat, t | SizeAt(groups, k, l, t) && Names(name, t)
      ensures |t| < |s| || (|t| == |s| && UpTo(i, j, k, l))
    {
      SizeNameAt(groups, k, l, t);
      SizesInOrder(groups, i, j, k, l, s, t);
    }
    assert LeadsAt(groups, name, i, j, s);
  }

  lemma {:induction false} ChosenExact(groups: seq<Group>, selections: Selections, s: string)
    ensures Chosen(groups, selections, s) <==> s in SelectedSizes(groups, selections)
  {
    SelectedSizesMember(groups, selections, s);
    hide Normalize, SelectedSizes;
    if i: nat, j: nat :| SizeAt(groups, i, j, s)
                         && groups[i].info.id in selections && groups[i].options[j].id in selections[groups[i].info.id] {
      assert groups[i].options[j] in groups[i].options;
    }
    if SizeChosen(groups, selections, s) {
      var i: nat, o :| i < |groups| && IsSize(groups[i].info) && o in groups[i].options
                       && Selected(selections, groups[i].info.id, o.id) && Normalize(o.name) == s;
      var j: nat :| j < |groups[i].options| && groups[i].options[j] == o;
      assert SizeAt(groups, i, j, s);
    }
  }

  lemma {:induction false} InScopeExact(groups: seq<Group>, selections: Selections, name: string)
    ensures InScope(name, SizeNames(groups), SelectedSizes(groups, selections)) <==> ForChosenSize(groups, selections, name)
  {
    hide Normalize, MeantFor, Chosen, InferOptionSizeScope, SizeNames, SelectedSizes;
    var scope := InferOptionSizeScope(name, SizeNames(groups));
    forall s ensures MeantFor(groups, name, s) <==> scope == Some(s) {
      MeantExact(groups, name, s);
    }
    if scope.Some? {
      ChosenExact(groups, selections, scope.value);
      assert MeantFor(groups, name, scope.value);
    }
  }

  /** What the code considers is what the customer may be offered. */
  lemma {:induction false} EligibleExact(item: Product, selections: Selections, g: GroupInfo, o: MenuOption)
    ensures Eligible(item, selections, g, o) <==> Wanted(item, selections, g, o)
  {
    hide Authorized, Permitted, InScope, ForChosenSize, SizeNames, SelectedSizes;
    if g.contextKey == Some("addon") {
      AuthorizedExact(item, g, o);
      InScopeExact(item.groups, selections, o.name);
    }
  }

  // ----- considered options

  lemma {:induction false} EligibleCount(item: Product, selections: Selections, g: GroupInfo, options: seq<MenuOption>, o: MenuOption)
    ensures multiset(EligibleOptions(item, selections, g, options))[o] == if Eligible(item, selections, g, o) then multiset(options)[o] else 0
  {
    hide Eligible;
    if options != [] {
      EligibleCount(item, selections, g, options[1..], o);
      assert options == [options[0]] + options[1..];
    }
  }

  /** The menu's groups are considered in menu order, each with exactly its wanted options, as often as
      it has them. */
  lemma {:induction false} ConsideredOptions(item: Product, selections: Selections, lc: Collation, k: nat, o: MenuOption)
    requires k < |item.groups|
    ensures multiset(MenuOrder(item, lc)) == multiset(item.groups)
    ensures |MenuOrder(item, lc)| == |EligibleGroups(item, selections, lc)| == |item.groups|
    ensures EligibleGroups(item, selections, lc)[k].info == MenuOrder(item, lc)[k].info
    ensures multiset(EligibleGroups(item, selections, lc)[k].options)[o]
         == if Wanted(item, selections, MenuOrder(item, lc)[k].info, o) then multiset(MenuOrder(item, lc)[k].options)[o] else 0
  {
    hide Eligible, Wanted;
    var g := MenuOrder(item, lc)[k];
    EligibleCount(item, selections, g.info, g.options, o);
    EligibleExact(item, selections, g.info, o);
  }

  lemma {:induction false} OfferedOnMenu(item: Product, selections: Selections, lc: Collation, k: nat, o: MenuOption)
    requires k < |item.groups| && |CatalogGroups(item, selections, lc)| == |item.groups|
    requires o in CatalogGroups(item, selections, lc)[k].options
    ensures exists i :: 0 <= i < |item.groups|
              && item.groups[i].info == CatalogGroups(item, selections, lc)[k].info && o in item.groups[i].options
  {
    hide *;
    OfferedIsEligible(item, selections, lc, k, o);
    CatalogGroupAt(item, selections, lc, k);
    MenuOrderMembers(item, lc, MenuOrder(item, lc)[k]);
  }

  lemma {:induction false} MenuOrderMembers(item: Product, lc: Collation, g: Group)
    requires g in MenuOrder(item, lc)
    ensures exists i :: 0 <= i < |item.groups| && item.groups[i] == g
  {
    hide GroupOrder;
    SameMembers(item.groups, MenuOrder(item, lc));
  }

  /** Every option offered stands in its group on the menu and is wanted. */
  lemma {:induction false} OfferedAreWanted(item: Product, selections: Selections, lc: Collation, k: nat, o: MenuOption)
    requires k < |CatalogGroups(item, selections, lc)| && o in CatalogGroups(item, selections, lc)[k].options
    ensures var info := CatalogGroups(item, selections, lc)[k].info;
            && (exists i :: 0 <= i < |item.groups| && item.groups[i].info == info && o in item.groups[i].options)
            && Wanted(item, selections, info, o)
  {
    hide *;
    CatalogLength(item, selections, lc);
    OfferedIsEligible(item, selections, lc, k, o);
    OfferedOnMenu(item, selections, lc, k, o);
    EligibleExact(item, selections, CatalogGroups(item, selections, lc)[k].info, o);
  }

  // ----- places and rows

  predicate At(groups: seq<Group>, k: nat, j: nat) {
    k < |groups| && j < |groups[k].options|
  }

  function RowIndex(groups: seq<Group>, k: nat, j: nat): nat
    requires At(groups, k, j)
  {
    |Rows(groups[..k])| + j
  }

  lemma {:induction false} RowsPrefix(groups: seq<Group>, k: nat, n: nat)
    requires k <= n <= |groups|
    ensures |Rows(groups[..k])| <= |Rows(groups[..n])| && Rows(groups[..n])[..|Rows(groups[..k])|] == Rows(groups[..k])
  {
    if k < n {
      RowsPrefix(groups, k, n - 1);
      RowsExtend(groups, n - 1);
    }
  }

  lemma {:induction false} RowAt(groups: seq<Group>, k: nat, j: nat)
    requires At(groups, k, j)
    ensures RowIndex(groups, k, j) < |Rows(groups)|
    ensures Rows(groups)[RowIndex(groups, k, j)] == Row(groups[k].info, groups[k].options[j])
  {
    RowsExtend(groups, k);
    RowsPrefix(groups, k + 1, |groups|);
    assert groups[..|groups|] == groups;
    var short, all := Rows(groups[..k + 1]), Rows(groups);
    assert all[RowIndex(groups, k, j)] == all[..|short|][RowIndex(groups, k, j)];
  }

  lemma {:induction false} RowPlace(groups: seq<Group>, n: nat, m: nat) returns (k: nat, j: nat)
    requires m <= |groups| && n < |Rows(groups[..m])|
    ensures k < m && At(groups, k, j) && RowIndex(groups, k, j) == n
  {
    assert m > 0;
    RowsExtend(groups, m - 1);
    if n < |Rows(groups[..m - 1])| {
      k, j := RowPlace(groups, n, m - 1);
    } else {
      k, j := m - 1, n - |Rows(groups[..m - 1])|;
    }
  }

  lemma {:induction false} RowsInOrder(groups: seq<Group>, k: nat, j: nat, i: nat, l: nat)
    requires At(groups, k, j) && At(groups, i, l)
    ensures UpTo(k, j, i, l) <==> RowIndex(groups, k, j) <= RowIndex(groups, i, l)
  {
    hide Rows;
    if k < i {
      RowsExtend(groups, k);
      RowsPrefix(groups, k + 1, i);
    } else if i < k {
      RowsExtend(groups, i);
      RowsPrefix(groups, i + 1, k);
    }
  }

  // ----- which options survive

  /** An add-on group from which the customer may take any number and need take none. */
  predicate FreeExtras(g: GroupInfo) {
    g.contextKey == Some("addon") && g.selectionMode == "MULTI" && g.minSelect <= 0 && !g.isRequired
  }

  /** The name without its first word, if that is "add" or "extra", is t. */
  predicate Core(name: string, t: string) {
    var s := Normalize(name);
    if "add " <= s then s == "add " + t else if "extra " <= s then s == "extra " + t else s == t
  }

  /** Two add-ons are the same extra: of one name, one ingredient or both always allowed, one flavour. */
  ghost predicate SameExtra(ingredients: seq<string>, a: MenuOption, b: MenuOption) {
    && (exists t :: Core(a.name, t) && Core(b.name, t))
    && (|| (a.addonMatch == Some("__always__") && b.addonMatch == Some("__always__"))
        || exists c :: MeansOnly(a.addonMatch, ingredients, c) && MeansOnly(b.addonMatch, ingredients, c))
    && (a.linkedFlavourId == b.linkedFlavourId
        || ((a.linkedFlavourId.None? || a.linkedFlavourId.value == "") && (b.linkedFlavourId.None? || b.linkedFlavourId.value == "")))
  }

  lemma {:induction false} FreeExtrasExact(g: GroupInfo)
    ensures IsExtra(g) <==> FreeExtras(g)
  {
  }

  lemma {:induction false} CoreExact(a: string, b: string)
    ensures StripPrefix(Normalize(a)) == StripPrefix(Normalize(b)) <==> exists t :: Core(a, t) && Core(b, t)
  {
    CoreIs(a, StripPrefix(Normalize(a)));
    CoreIs(b, StripPrefix(Normalize(b)));
    hide Normalize, StripPrefix, Core;
    if t :| Core(a, t) && Core(b, t) {
      CoreIs(a, t);
      CoreIs(b, t);
    }
  }

  lemma {:induction false} CoreIs(name: string, t: string)
    ensures Core(name, t) <==> t == StripPrefix(Normalize(name))
  {
    hide Normalize;
    var s := Normalize(name);
    if "add " <= s {
      assert s == "add " + s[4..];
    } else if "extra " <= s {
      assert s == "extra " + s[6..];
    }
  }

  lemma {:induction false} ResolvedIsNormal(saved: Option<string>, ingredients: seq<string>, c: string)
    requires MeansOnly(saved, ingredients, c)
    ensures c != "__always__" && saved != Some("__always__")
  {
    hide Normalize, Fits;
    var i :| 0 <= i < |ingredients| && Fits(ingredients[i], saved.value) && Normalize(ingredients[i]) == c;
    NormalizeNormal(ingredients[i]);
    AlwaysNotNormal();
  }

  lemma {:induction false} AlwaysNotNormal()
    ensures !Normal("__always__")
  {
    var s := "__always__";
    assert !IsAlnum(s[0]) && s[0] != ' ';
  }

  lemma {:induction false} MappingExact(item: Product, g: GroupInfo, a: MenuOption, h: GroupInfo, b: MenuOption)
    requires Permitted(item, g, a) && Permitted(item, h, b)
    ensures MappingPart(a, item.ingredients) == MappingPart(b, item.ingredients) <==>
              || (a.addonMatch == Some("__always__") && b.addonMatch == Some("__always__"))
              || exists c :: MeansOnly(a.addonMatch, item.ingredients, c) && MeansOnly(b.addonMatch, item.ingredients, c)
  {
    MappingIs(item, g, a);
    MappingIs(item, h, b);
    hide Permitted, MappingPart, MeansOnly;
    var p, q := MappingPart(a, item.ingredients), MappingPart(b, item.ingredients);
    if c :| MeansOnly(a.addonMatch, item.ingredients, c) && MeansOnly(b.addonMatch, item.ingredients, c) {
      OneMeaning(a.addonMatch, item.ingredients, p, c);
      OneMeaning(b.addonMatch, item.ingredients, q, c);
    }
  }

  lemma {:induction false} OneMeaning(saved: Option<string>, ingredients: seq<string>, p: string, c: string)
    requires MeansOnly(saved, ingredients, c)
    ensures MeansOnly(saved, ingredients, p) ==> p == c
    ensures saved != Some("__always__")
  {
    ResolvedIsNormal(saved, ingredients, c);
    hide Fits, Normalize;
  }

  lemma {:induction false} MappingIs(item: Product, g: GroupInfo, a: MenuOption)
    requires Permitted(item, g, a)
    ensures var p := MappingPart(a, item.ingredients);
            if a.addonMatch == Some("__always__") then p == "__always__"
            else p != "__always__" && MeansOnly(a.addonMatch, item.ingredients, p)
  {
    hide OwnExtras, MeansOnly, ResolveIngredientMapping;
    if a.addonMatch == Some("__always__") {
      assert ResolveIngredientMapping(a.addonMatch, item.ingredients).None? by { AlwaysUnresolved(item.ingredients); }
    } else {
      var c :| MeansOnly(a.addonMatch, item.ingredients, c);
      ResolvesExact(a.addonMatch, item.ingredients, c);
      ResolvedIsNormal(a.addonMatch, item.ingredients, c);
    }
  }

  lemma {:induction false} AlwaysUnresolved(ingredients: seq<string>)
    ensures ResolveIngredientMapping(Some("__always__"), ingredients).None?
  {
    assert StartsWith("__always__", "__");
  }

  /** The code's class keys agree exactly for the same extra. */
  lemma {:induction false} SameExtraExact(item: Product, g: GroupInfo, a: MenuOption, h: GroupInfo, b: MenuOption)
    requires g.contextKey == Some("addon") && h.contextKey == Some("addon")
    requires Permitted(item, g, a) && Permitted(item, h, b)
    ensures ClassKey(a, item.ingredients) == ClassKey(b, item.ingredients) <==> SameExtra(item.ingredients, a, b)
  {
    hide Authorized, Permitted, ClassKey, Core, Normalize, StripPrefix, MappingPart, MeansOnly;
    AuthorizedExact(item, g, a);
    AuthorizedExact(item, h, b);
    ClassKeyExact(item, g, a, h, b);
    CoreExact(a.name, b.name);
    MappingExact(item, g, a, h, b);
  }

  /** Of the considered groups, option j of group k is kept: no other place has its id, and a free extra
      comes first among the places of the same extra, which all have its price. */
  ghost predicate Kept(ingredients: seq<string>, groups: seq<Group>, k: nat, j: nat)
    requires At(groups, k, j)
  {
    var o := groups[k].options[j];
    && (forall i: nat, l: nat :: At(groups, i, l) && (i, l) != (k, j) ==> groups[i].options[l].id != o.id)
    && (FreeExtras(groups[k].info) ==>
          forall i: nat, l: nat :: At(groups, i, l) && FreeExtras(groups[i].info) && SameExtra(ingredients, groups[i].options[l], o) ==>
            UpTo(k, j, i, l) && groups[i].options[l].priceDeltaCents == o.priceDeltaCents)
  }

  lemma {:induction false} NotRepeatedExact(groups: seq<Group>, k: nat, j: nat)
    requires At(groups, k, j)
    ensures RowIndex(groups, k, j) < |Rows(groups)|
    ensures !Repeated(Rows(groups), RowIndex(groups, k, j)) <==>
              forall i: nat, l: nat :: At(groups, i, l) && (i, l) != (k, j) ==> groups[i].options[l].id != groups[k].options[j].id
  {
    hide Rows, RowIndex;
    var rows, n := Rows(groups), RowIndex(groups, k, j);
    RowAt(groups, k, j);
    if !Repeated(rows, n) {
      forall i: nat, l: nat | At(groups, i, l) && (i, l) != (k, j)
        ensures groups[i].options[l].id != groups[k].options[j].id
      {
        RowAt(groups, i, l);
        RowsInOrder(groups, k, j, i, l);
        RowsInOrder(groups, i, l, k, j);
      }
    } else {
      var m :| 0 <= m < |rows| && m != n && rows[m].option.id == rows[n].option.id;
      assert groups[..|groups|] == groups;
      var i, l := RowPlace(groups, m, |groups|);
      RowAt(groups, i, l);
    }
  }

  lemma {:induction false} ExtraEligible(item: Product, selections: Selections, lc: Collation, k: nat, j: nat)
    requires var groups := EligibleGroups(item, selections, lc); At(groups, k, j) && FreeExtras(groups[k].info)
    ensures var groups := EligibleGroups(item, selections, lc); Permitted(item, groups[k].info, groups[k].options[j])
  {
    hide Eligible, Permitted, ForChosenSize;
    var g := MenuOrder(item, lc)[k];
    var o := EligibleGroups(item, selections, lc)[k].options[j];
    SameMembers(EligibleOptions(item, selections, g.info, g.options), EligibleGroups(item, selections, lc)[k].options);
    EligibleMember(item, selections, g.info, g.options, o);
    EligibleExact(item, selections, g.info, o);
  }

  lemma {:induction false} LeadsExact(item: Product, selections: Selections, lc: Collation, k: nat, j: nat)
    requires var groups := EligibleGroups(item, selections, lc); At(groups, k, j) && FreeExtras(groups[k].info)
    ensures var groups := EligibleGroups(item, selections, lc);
            && RowIndex(groups, k, j) < |Rows(groups)|
            && (LeadsClass(Rows(groups), RowIndex(groups, k, j), item.ingredients) <==>
                forall i: nat, l: nat ::
                  At(groups, i, l) && FreeExtras(groups[i].info) && SameExtra(item.ingredients, groups[i].options[l], groups[k].options[j]) ==>
                    UpTo(k, j, i, l) && groups[i].options[l].priceDeltaCents == groups[k].options[j].priceDeltaCents)
  {
    hide Rows, RowIndex, EligibleGroups, SameExtra, ClassKey, IsExtra, FreeExtras, UpTo, Permitted;
    var groups := EligibleGroups(item, selections, lc);
    var rows, n, o := Rows(groups), RowIndex(groups, k, j), groups[k].options[j];
    RowAt(groups, k, j);
    FreeExtrasExact(groups[k].info);
    ExtraEligible(item, selections, lc, k, j);
    if LeadsClass(rows, n, item.ingredients) {
      forall i: nat, l: nat | At(groups, i, l) && FreeExtras(groups[i].info) && SameExtra(item.ingredients, groups[i].options[l], o)
        ensures UpTo(k, j, i, l) && groups[i].options[l].priceDeltaCents == o.priceDeltaCents
      {
        SameClassAt(item, selections, lc, k, j, i, l);
      }
    }
    if forall i: nat, l: nat :: At(groups, i, l) && FreeExtras(groups[i].info) && SameExtra(item.ingredients, groups[i].options[l], o) ==>
         UpTo(k, j, i, l) && groups[i].options[l].priceDeltaCents == o.priceDeltaCents {
      forall m | 0 <= m < |rows| && SameClass(rows[m], rows[n], item.ingredients)
        ensures m >= n && rows[m].option.priceDeltaCents == rows[n].option.priceDeltaCents
      {
        assert groups[..|groups|] == groups;
        var i, l := RowPlace(groups, m, |groups|);
        SameClassAt(item, selections, lc, k, j, i, l);
      }
    }
  }

  lemma {:induction false} SameClassAt(item: Product, selections: Selections, lc: Collation, k: nat, j: nat, i: nat, l: nat)
    requires var groups := EligibleGroups(item, selections, lc);
             At(groups, k, j) && FreeExtras(groups[k].info) && At(groups, i, l)
    ensures var groups := EligibleGroups(item, selections, lc);
            var rows := Rows(groups);
            var n, m := RowIndex(groups, k, j), RowIndex(groups, i, l);
            && n < |rows| && m < |rows|
            && rows[n] == Row(groups[k].info, groups[k].options[j]) && rows[m] == Row(groups[i].info, groups[i].options[l])
            && (UpTo(k, j, i, l) <==> n <= m)
            && (SameClass(rows[m], rows[n], item.ingredients) <==>
                FreeExtras(groups[i].info) && SameExtra(item.ingredients, groups[i].options[l], groups[k].options[j]))
  {
    hide Rows, RowIndex, EligibleGroups, SameExtra, ClassKey, UpTo, Permitted;
    var groups := EligibleGroups(item, selections, lc);
    RowAt(groups, k, j);
    RowAt(groups, i, l);
    RowsInOrder(groups, k, j, i, l);
    ExtraEligible(item, selections, lc, k, j);
    if FreeExtras(groups[i].info) {
      ExtraEligible(item, selections, lc, i, l);
      SameExtraExact(item, groups[i].info, groups[i].options[l], groups[k].info, groups[k].options[j]);
    }
  }

  /** The catalogue offers, of the considered options, exactly those that are kept. */
  lemma {:induction false} OfferedExact(item: Product, selections: Selections, lc: Collation, k: nat, j: nat)
    requires At(EligibleGroups(item, selections, lc), k, j)
    ensures |CatalogGroups(item, selections, lc)| == |EligibleGroups(item, selections, lc)|
    ensures EligibleGroups(item, selections, lc)[k].options[j] in CatalogGroups(item, selections, lc)[k].options
            <==> Kept(item.ingredients, EligibleGroups(item, selections, lc), k, j)
  {
    hide Rows, RowIndex, EligibleGroups, SameExtra, UpTo, Permitted, Excluded, LeadsClass, Repeated, IsExtra, FreeExtras;
    var groups := EligibleGroups(item, selections, lc);
    var rows, n := Rows(groups), RowIndex(groups, k, j);
    RowAt(groups, k, j);
    SurvivorExact(rows, n, item.ingredients);
    SurvivingMember(groups[k].options, Excluded(rows, item.ingredients), groups[k].options[j]);
    NotRepeatedExact(groups, k, j);
    FreeExtrasExact(groups[k].info);
    if FreeExtras(groups[k].info) {
      LeadsExact(item, selections, lc, k, j);
    }
  }

  // ----- what is reported

  /** The issue says that row k repeats the id of row i, the first with that id. */
  ghost predicate ReportsId(rows: seq<Row>, i: nat, k: nat, x: Issue) {
    && i < k < |rows| && rows[i].option.id == rows[k].option.id
    && (forall m :: 0 <= m < i ==> rows[m].option.id != rows[i].option.id)
    && x == Issue(IdConflict, [rows[k].option.id], [rows[i].group.id, rows[k].group.id])
  }

  /** Rows m and n offer the same free extra. */
  ghost predicate SameRow(ingredients: seq<string>, a: Row, b: Row) {
    FreeExtras(a.group) && FreeExtras(b.group) && SameExtra(ingredients, a.option, b.option)
  }

  predicate Increasing(ps: seq<nat>) {
    forall c, d :: 0 <= c < d < |ps| ==> ps[c] < ps[d]
  }

  /** The issue lists, in order, the rows `ps` of one extra: all that offer it, at least two. It is a
      price conflict if their prices differ and a duplicate otherwise. */
  ghost predicate ReportsClass(rows: seq<Row>, ps: seq<nat>, ingredients: seq<string>, x: Issue) {
    && |ps| >= 2 && Increasing(ps) && (forall c :: 0 <= c < |ps| ==> ps[c] < |rows|)
    && (forall m: nat :: m < |rows| ==> (m in ps <==> SameRow(ingredients, rows[m], rows[ps[0]])))
    && |x.optionIds| == |x.groupIds| == |ps|
    && (forall c :: 0 <= c < |ps| ==> x.optionIds[c] == rows[ps[c]].option.id && x.groupIds[c] == rows[ps[c]].group.id)
    && x.kind == if exists c, d :: 0 <= c < d < |ps| && rows[ps[c]].option.priceDeltaCents != rows[ps[d]].option.priceDeltaCents
                 then PriceConflict else Duplicate
  }

  lemma {:induction false} ReportsEarlier(rows: seq<Row>, i: nat, k: nat, x: Issue)
    requires rows != [] && k < |rows| - 1
    ensures ReportsId(rows, i, k, x) <==> ReportsId(rows[..|rows| - 1], i, k, x)
  {
  }

  lemma {:induction false} ReportsLast(rows: seq<Row>, i: nat, x: Issue)
    requires rows != []
    ensures var n := |rows| - 1;
            var prior := FirstWithId(rows[..n], rows[n].option.id);
            ReportsId(rows, i, n, x) <==>
              prior == Some(i) && x == Issue(IdConflict, [rows[n].option.id], [rows[..n][i].group.id, rows[n].group.id])
  {
    var n := |rows| - 1;
    if ReportsId(rows, i, n, x) {
      assert rows[..n][i] == rows[i];
    }
  }

  lemma {:induction false} ReportsInside(rows: seq<Row>, i: nat, k: nat, x: Issue)
    requires ReportsId(rows, i, k, x)
    ensures k < |rows|
  {
  }

  lemma {:induction false} IdIssuesLast(rows: seq<Row>, x: Issue)
    requires rows != []
    ensures var n := |rows| - 1;
            var prior := FirstWithId(rows[..n], rows[n].option.id);
            x in IdIssues(rows) <==>
              || x in IdIssues(rows[..n])
              || (prior.Some? && x == Issue(IdConflict, [rows[n].option.id], [rows[..n][prior.value].group.id, rows[n].group.id]))
  {
  }

  lemma {:induction false} NothingReported(x: Issue)
    ensures x !in IdIssues([]) && forall i: nat, k: nat :: !ReportsId([], i, k, x)
  {
  }

  lemma {:induction false} IdIssueExact(rows: seq<Row>, x: Issue)
    ensures x in IdIssues(rows) <==> exists i: nat, k: nat :: ReportsId(rows, i, k, x)
  {
    hide ReportsId, IdIssues;
    if rows == [] {
      NothingReported(x);
    } else {
      var n := |rows| - 1;
      IdIssueExact(rows[..n], x);
      IdIssuesLast(rows, x);
      var prior := FirstWithId(rows[..n], rows[n].option.id);
      if i: nat, k: nat :| ReportsId(rows[..n], i, k, x) {
        ReportsInside(rows[..n], i, k, x);
        ReportsEarlier(rows, i, k, x);
      }
      if i: nat, k: nat :| ReportsId(rows, i, k, x) {
        ReportsInside(rows, i, k, x);
        if k < n {
          ReportsEarlier(rows, i, k, x);
        } else {
          ReportsLast(rows, i, x);
        }
      }
      if prior.Some? {
        ReportsLast(rows, prior.value, x);
      }
    }
  }

  lemma {:induction false} SameIncreasing(ps: seq<nat>, qs: seq<nat>)
    requires Increasing(ps) && Increasing(qs) && forall m :: m in ps <==> m in qs
    ensures ps == qs
  {
    assert (ps != [] ==> ps[0] in qs) && (qs != [] ==> qs[0] in ps);
    if ps != [] && qs != [] {
      var a, b := ps[|ps| - 1], qs[|qs| - 1];
      assert a in qs && b in ps;
      assert a == b;
      var p, q := ps[..|ps| - 1], qs[..|qs| - 1];
      forall m ensures m in p <==> m in q {
        assert m in p <==> m in ps && m != a;
        assert m in q <==> m in qs && m != b;
      }
      SameIncreasing(p, q);
      assert ps == p + [a] && qs == q + [b];
    }
  }

  /** What the code reports of one class. */
  lemma {:induction false} ClassIssueIs(rows: seq<Row>, key: string, ingredients: seq<string>, x: Issue)
    requires forall m, n :: 0 <= m < |rows| && 0 <= n < |rows| ==>
               (SameClass(rows[m], rows[n], ingredients) <==> SameRow(ingredients, rows[m], rows[n]))
    ensures x in ClassIssue(ClassRows(rows, key, ingredients)) <==>
              ReportsClass(rows, ClassPositions(rows, key, ingredients), ingredients, x)
  {
    hide ClassKey, IsExtra, SameRow, ClassRows;
    var cs, ps := ClassRows(rows, key, ingredients), ClassPositions(rows, key, ingredients);
    if |ps| >= 2 {
      forall m: nat | m < |rows| ensures m in ps <==> SameClass(rows[m], rows[ps[0]], ingredients) {
        if SameClass(rows[m], rows[ps[0]], ingredients) {
          ClassPositionsAll(rows, key, ingredients, m);
        }
      }
      ClassIssueLists(rows, cs, ps, x);
    }
  }

  lemma {:induction false} ClassIssueLists(rows: seq<Row>, cs: seq<Row>, ps: seq<nat>, x: Issue)
    requires |cs| == |ps| >= 2 && forall c :: 0 <= c < |ps| ==> ps[c] < |rows| && rows[ps[c]] == cs[c]
    ensures x in ClassIssue(cs) <==>
              && |x.optionIds| == |x.groupIds| == |ps|
              && (forall c :: 0 <= c < |ps| ==> x.optionIds[c] == rows[ps[c]].option.id && x.groupIds[c] == rows[ps[c]].group.id)
              && x.kind == if exists c, d :: 0 <= c < d < |ps| && rows[ps[c]].option.priceDeltaCents != rows[ps[d]].option.priceDeltaCents
                           then PriceConflict else Duplicate
  {
    var y := ClassIssue(cs)[0];
    if |x.optionIds| == |x.groupIds| == |ps|
       && forall c :: 0 <= c < |ps| ==> x.optionIds[c] == rows[ps[c]].option.id && x.groupIds[c] == rows[ps[c]].group.id {
      assert x.optionIds == y.optionIds && x.groupIds == y.groupIds;
    }
  }

  lemma {:induction false} ClassIssuesMember(rows: seq<Row>, keys: seq<string>, ingredients: seq<string>, x: Issue)
    ensures x in ClassIssues(rows, keys, ingredients) <==> exists i :: 0 <= i < |keys| && x in ClassIssue(ClassRows(rows, keys[i], ingredients))
  {
    hide ClassIssue, ClassRows;
    if keys != [] {
      var n := |keys| - 1;
      ClassIssuesMember(rows, keys[..n], ingredients, x);
      if i :| 0 <= i < |keys| && x in ClassIssue(ClassRows(rows, keys[i], ingredients)) {
        assert i < n ==> keys[..n][i] == keys[i];
      }
      if i :| 0 <= i < n && x in ClassIssue(ClassRows(rows, keys[..n][i], ingredients)) {
        assert keys[i] == keys[..n][i];
      }
    }
  }

  lemma {:induction false} ClassIssueExact(rows: seq<Row>, ingredients: seq<string>, x: Issue)
    requires forall m, n :: 0 <= m < |rows| && 0 <= n < |rows| ==>
               (SameClass(rows[m], rows[n], ingredients) <==> SameRow(ingredients, rows[m], rows[n]))
    ensures x in ClassIssues(rows, ClassKeys(rows, ingredients), ingredients) <==> exists ps :: ReportsClass(rows, ps, ingredients, x)
  {
    hide ClassIssue, ClassRows, ClassKeys, SameRow, ReportsClass;
    var keys := ClassKeys(rows, ingredients);
    ClassIssuesMember(rows, keys, ingredients, x);
    if i :| 0 <= i < |keys| && x in ClassIssue(ClassRows(rows, keys[i], ingredients)) {
      ClassIssueIs(rows, keys[i], ingredients, x);
    }
    if ps :| ReportsClass(rows, ps, ingredients, x) {
      var key := ClassOfReport(rows, ps, ingredients, x);
      var i :| 0 <= i < |keys| && keys[i] == key;
      ClassIssueIs(rows, keys[i], ingredients, x);
    }
  }

  lemma {:induction false} ClassOfReport(rows: seq<Row>, ps: seq<nat>, ingredients: seq<string>, x: Issue) returns (key: string)
    requires forall m, n :: 0 <= m < |rows| && 0 <= n < |rows| ==>
               (SameClass(rows[m], rows[n], ingredients) <==> SameRow(ingredients, rows[m], rows[n]))
    requires ReportsClass(rows, ps, ingredients, x)
    ensures key in ClassKeys(rows, ingredients) && ps == ClassPositions(rows, key, ingredients)
  {
    hide ClassKey, IsExtra, SameRow, ClassRows;
    var n := ps[0];
    assert n in ps;
    key := ClassKey(rows[n].option, ingredients);
    assert SameClass(rows[n], rows[n], ingredients);
    ClassKeysAll(rows, ingredients, n);
    var qs := ClassPositions(rows, key, ingredients);
    forall m ensures m in ps <==> m in qs {
      if m in ps {
        assert SameClass(rows[m], rows[n], ingredients);
        ClassPositionsAll(rows, key, ingredients, m);
      }
      if m in qs {
        assert SameClass(rows[m], rows[n], ingredients);
      }
    }
    SameIncreasing(ps, qs);
  }

  lemma {:induction false} RowsAlike(item: Product, selections: Selections, lc: Collation, m: nat, n: nat)
    requires var rows := Rows(EligibleGroups(item, selections, lc)); m < |rows| && n < |rows|
    ensures var rows := Rows(EligibleGroups(item, selections, lc));
            SameClass(rows[m], rows[n], item.ingredients) <==> SameRow(item.ingredients, rows[m], rows[n])
  {
    hide Rows, RowIndex, EligibleGroups, SameExtra, ClassKey, UpTo, IsExtra, FreeExtras;
    var groups := EligibleGroups(item, selections, lc);
    assert groups[..|groups|] == groups;
    var k, j := RowPlace(groups, n, |groups|);
    var i, l := RowPlace(groups, m, |groups|);
    RowAt(groups, k, j);
    FreeExtrasExact(groups[k].info);
    if FreeExtras(groups[k].info) {
      SameClassAt(item, selections, lc, k, j, i, l);
    }
  }

  /** The catalogue reports exactly the repeated ids and the extras offered more than once. */
  lemma {:induction false} IssuesExact(item: Product, selections: Selections, lc: Collation, x: Issue)
    ensures var rows := Rows(EligibleGroups(item, selections, lc));
            x in CatalogIssues(item, selections, lc) <==>
              || (exists i: nat, k: nat :: ReportsId(rows, i, k, x))
              || (exists ps :: ReportsClass(rows, ps, item.ingredients, x))
  {
    hide Rows, EligibleGroups, SameClass, SameRow, ReportsId, ReportsClass, IdIssues, ClassIssues, ClassKeys;
    var rows := Rows(EligibleGroups(item, selections, lc));
    forall m, n | 0 <= m < |rows| && 0 <= n < |rows|
      ensures SameClass(rows[m], rows[n], item.ingredients) <==> SameRow(item.ingredients, rows[m], rows[n])
    {
      RowsAlike(item, selections, lc, m, n);
    }
    IdIssueExact(rows, x);
    ClassIssueExact(rows, item.ingredients, x);
  }

  // ----- the order of the menu

  /** Groups go by sort order and then by id. */
  predicate GroupBefore(lc: Collation, a: GroupInfo, b: GroupInfo) {
    a.sortOrder < b.sortOrder || (a.sortOrder == b.sortOrder && lc(a.id, b.id))
  }

  /** Options go by sort order, where none counts as zero, then defaults first, then by name. */
  predicate OptionBefore(lc: Collation, a: MenuOption, b: MenuOption) {
    var m, n := if a.sortOrder.Some? then a.sortOrder.value else 0, if b.sortOrder.Some? then b.sortOrder.value else 0;
    || m < n
    || (m == n && a.isDefault && !b.isDefault)
    || (m == n && a.isDefault == b.isDefault && lc(a.name, b.name))
  }

  lemma {:induction false} GroupsOrdered(groups: seq<Group>, lc: Collation, i: nat, k: nat)
    requires Sorted(groups, GroupOrder(lc)) && i < k < |groups|
    ensures GroupBefore(lc, groups[i].info, groups[k].info)
  {
    assert GroupOrder(lc)(groups[i], groups[k]);
  }

  lemma {:induction false} OptionsOrdered(options: seq<MenuOption>, lc: Collation, j: nat, l: nat)
    requires Sorted(options, OptionOrder(lc)) && j < l < |options|
    ensures OptionBefore(lc, options[j], options[l])
  {
    var a, b := options[j], options[l];
    var le := OptionOrder(lc);
    assert le(a, b);
    assert SortKey(a) < SortKey(b) || (SortKey(a) == SortKey(b) && ((a.isDefault && !b.isDefault) || (a.isDefault == b.isDefault && lc(a.name, b.name))));
  }

  /** A catalogue is in menu order. */
  lemma {:induction false} OrderExact(item: Product, selections: Selections, lc: Collation)
    requires TotalPreorder(lc)
    ensures var groups := CatalogGroups(item, selections, lc);
            && (forall i, k :: 0 <= i < k < |groups| ==> GroupBefore(lc, groups[i].info, groups[k].info))
            && (forall g, j, l :: g in groups && 0 <= j < l < |g.options| ==> OptionBefore(lc, g.options[j], g.options[l]))
  {
    hide CatalogGroups, TotalPreorder, Sorted, GroupOrder, OptionOrder, GroupBefore, OptionBefore;
    CatalogSorted(item, selections, lc);
    var groups := CatalogGroups(item, selections, lc);
    forall i, k | 0 <= i < k < |groups| ensures GroupBefore(lc, groups[i].info, groups[k].info) {
      GroupsOrdered(groups, lc, i, k);
    }
    forall g, j, l | g in groups && 0 <= j < l < |g.options| ensures OptionBefore(lc, g.options[j], g.options[l]) {
      OptionsOrdered(g.options, lc, j, l);
    }
  }
}
