/** Running `customizationCatalog` on its own output. */
module CatalogRerun {
  import opened Strings
  import opened Sorting
  import opened MenuText
  import opened Catalog
  import opened CatalogTheorems

  /** The product as a catalogue describes it. */
  function Shown(item: Product, selections: Selections, lc: Collation): Product {
    Product(item.id, CatalogGroups(item, selections, lc), item.ingredients)
  }

  // ----- members

  lemma {:induction false} EligibleMember(item: Product, selections: Selections, g: GroupInfo, options: seq<MenuOption>, o: MenuOption)
    ensures o in EligibleOptions(item, selections, g, options) <==> o in options && Eligible(item, selections, g, o)
  {
    hide Eligible;
    if options != [] {
      EligibleMember(item, selections, g, options[1..], o);
    }
  }

  lemma {:induction false} SurvivingMember(options: seq<MenuOption>, excluded: set<MenuOption>, o: MenuOption)
    ensures o in Surviving(options, excluded) <==> o in options && o !in excluded
  {
    if options != [] {
      SurvivingMember(options[1..], excluded, o);
    }
  }

  /** The groups in menu order. */
  function MenuOrder(item: Product, lc: Collation): seq<Group> {
    SortBy(item.groups, GroupOrder(lc))
  }

  /** Group by group: the catalogue's groups are the menu's, in menu order, and every
      offered option is an eligible option of its group. */
  lemma {:induction false} CatalogGroupAt(item: Product, selections: Selections, lc: Collation, i: nat)
    requires i < |item.groups|
    ensures |CatalogGroups(item, selections, lc)| == |MenuOrder(item, lc)| == |item.groups|
    ensures CatalogGroups(item, selections, lc)[i].info == MenuOrder(item, lc)[i].info
    ensures CatalogGroups(item, selections, lc)[i].options
            == Surviving(EligibleGroups(item, selections, lc)[i].options,
                         Excluded(Rows(EligibleGroups(item, selections, lc)), item.ingredients))
    ensures EligibleGroups(item, selections, lc)[i] == EligibleGroup(item, selections, MenuOrder(item, lc)[i], lc)
  {
    hide Excluded;
  }

  lemma {:induction false} OfferedIsEligible(item: Product, selections: Selections, lc: Collation, i: nat, o: MenuOption)
    requires i < |item.groups| && |CatalogGroups(item, selections, lc)| == |item.groups|
    requires o in CatalogGroups(item, selections, lc)[i].options
    ensures |MenuOrder(item, lc)| == |item.groups| && o in MenuOrder(item, lc)[i].options
    ensures Eligible(item, selections, CatalogGroups(item, selections, lc)[i].info, o)
  {
    hide Excluded, Eligible, CatalogGroups;
    CatalogGroupAt(item, selections, lc, i);
    var eligible, g := EligibleGroups(item, selections, lc), MenuOrder(item, lc)[i];
    SurvivingMember(eligible[i].options, Excluded(Rows(eligible), item.ingredients), o);
    SameMembers(EligibleOptions(item, selections, g.info, g.options), eligible[i].options);
    EligibleMember(item, selections, g.info, g.options, o);
  }

  function Infos(groups: seq<Group>): (r: seq<GroupInfo>)
    ensures |r| == |groups| && forall i :: 0 <= i < |groups| ==> r[i] == groups[i].info
  {
    seq(|groups|, i requires 0 <= i < |groups| => groups[i].info)
  }

  lemma {:induction false} InfosInsert(x: Group, ys: seq<Group>, le: (Group, Group) -> bool)
    ensures multiset(Infos(Insert(x, ys, le))) == multiset{x.info} + multiset(Infos(ys))
  {
    if ys == [] || le(x, ys[0]) {
      assert Infos([x] + ys) == [x.info] + Infos(ys);
    } else {
      var rest := Insert(x, ys[1..], le);
      InfosInsert(x, ys[1..], le);
      assert Infos([ys[0]] + rest) == [ys[0].info] + Infos(rest);
      assert Infos(ys) == [ys[0].info] + Infos(ys[1..]);
    }
  }

  lemma {:induction false} InfosSort(xs: seq<Group>, le: (Group, Group) -> bool)
    ensures multiset(Infos(SortBy(xs, le))) == multiset(Infos(xs))
  {
    if xs != [] {
      InfosSort(xs[1..], le);
      InfosInsert(xs[0], SortBy(xs[1..], le), le);
      assert Infos(xs) == [xs[0].info] + Infos(xs[1..]);
    }
  }

  /** The catalogue keeps every group, required empty ones included. */
  lemma {:induction false} CatalogKeepsGroups(item: Product, selections: Selections, lc: Collation)
    ensures multiset(Infos(CatalogGroups(item, selections, lc))) == multiset(Infos(item.groups))
  {
    hide Excluded;
    InfosSort(item.groups, GroupOrder(lc));
    assert Infos(CatalogGroups(item, selections, lc)) == Infos(MenuOrder(item, lc));
  }

  /** Every offered add-on is authorised for the product and meant for a selected size. */
  lemma {:induction false} OfferedAddons(item: Product, selections: Selections, lc: Collation)
    ensures var groups := CatalogGroups(item, selections, lc);
            forall i, o :: 0 <= i < |groups| && o in groups[i].options ==> Eligible(item, selections, groups[i].info, o)
  {
    hide CatalogGroups, Eligible;
    var groups := CatalogGroups(item, selections, lc);
    forall i, o | 0 <= i < |groups| && o in groups[i].options ensures Eligible(item, selections, groups[i].info, o) {
      CatalogLength(item, selections, lc);
      OfferedIsEligible(item, selections, lc, i, o);
    }
  }

  lemma {:induction false} NoGroups(item: Product, selections: Selections, lc: Collation)
    requires item.groups == []
    ensures CatalogGroups(item, selections, lc) == []
  {
  }

  lemma {:induction false} CatalogLength(item: Product, selections: Selections, lc: Collation)
    ensures |CatalogGroups(item, selections, lc)| == |item.groups| == |MenuOrder(item, lc)|
  {
    if |item.groups| > 0 { CatalogGroupAt(item, selections, lc, 0); } else { NoGroups(item, selections, lc); }
  }

  // ----- order is kept

  lemma {:induction false} OrdersTotal(lc: Collation)
    requires TotalPreorder(lc)
    ensures TotalPreorder(GroupOrder(lc)) && TotalPreorder(OptionOrder(lc))
  {
    var g, o := GroupOrder(lc), OptionOrder(lc);
    forall a: Group, b: Group ensures g(a, b) || g(b, a) {
      assert lc(a.info.id, b.info.id) || lc(b.info.id, a.info.id);
    }
    forall a: Group, b: Group, c: Group | g(a, b) && g(b, c) ensures g(a, c) {
      assert lc(a.info.id, b.info.id) && lc(b.info.id, c.info.id) ==> lc(a.info.id, c.info.id);
    }
    forall a: MenuOption, b: MenuOption ensures o(a, b) || o(b, a) {
      assert lc(a.name, b.name) || lc(b.name, a.name);
    }
    forall a: MenuOption, b: MenuOption, c: MenuOption | o(a, b) && o(b, c) ensures o(a, c) {
      assert lc(a.name, b.name) && lc(b.name, c.name) ==> lc(a.name, c.name);
    }
  }

  lemma {:induction false} SortedCons<T>(x: T, xs: seq<T>, le: (T, T) -> bool)
    requires Sorted(xs, le) && forall y :: y in xs ==> le(x, y)
    ensures Sorted([x] + xs, le)
  {
  }

  lemma {:induction false} SortedTail<T>(xs: seq<T>, le: (T, T) -> bool)
    requires Sorted(xs, le) && xs != []
    ensures Sorted(xs[1..], le) && forall y :: y in xs[1..] ==> le(xs[0], y)
  {
  }

  lemma {:induction false} SurvivingSorted(options: seq<MenuOption>, excluded: set<MenuOption>, le: (MenuOption, MenuOption) -> bool)
    requires Sorted(options, le)
    ensures Sorted(Surviving(options, excluded), le)
  {
    if options != [] {
      SortedTail(options, le);
      SurvivingSorted(options[1..], excluded, le);
      forall y | y in Surviving(options[1..], excluded) ensures le(options[0], y) {
        SurvivingMember(options[1..], excluded, y);
      }
      SortedCons(options[0], Surviving(options[1..], excluded), le);
    }
  }

  /** A catalogue is already in menu order. */
  lemma {:induction false} CatalogSorted(item: Product, selections: Selections, lc: Collation)
    requires TotalPreorder(lc)
    ensures Sorted(CatalogGroups(item, selections, lc), GroupOrder(lc))
    ensures forall g :: g in CatalogGroups(item, selections, lc) ==> Sorted(g.options, OptionOrder(lc))
  {
    hide CatalogGroups, Excluded;
    OrdersTotal(lc);
    CatalogLength(item, selections, lc);
    SortBySorted(item.groups, GroupOrder(lc));
    var groups, menu := CatalogGroups(item, selections, lc), MenuOrder(item, lc);
    forall i, j | 0 <= i < j < |groups| ensures GroupOrder(lc)(groups[i], groups[j]) {
      CatalogGroupAt(item, selections, lc, i);
      CatalogGroupAt(item, selections, lc, j);
      assert GroupOrder(lc)(menu[i], menu[j]);
    }
    forall g | g in groups ensures Sorted(g.options, OptionOrder(lc)) {
      var i :| 0 <= i < |groups| && groups[i] == g;
      CatalogGroupAt(item, selections, lc, i);
      SortBySorted(EligibleOptions(item, selections, menu[i].info, menu[i].options), OptionOrder(lc));
      SurvivingSorted(EligibleGroups(item, selections, lc)[i].options,
                      Excluded(Rows(EligibleGroups(item, selections, lc)), item.ingredients), OptionOrder(lc));
    }
  }

  // ----- rows that cannot clash

  /** No two rows share an id or are the same extra. */
  ghost predicate ClashFree(rows: seq<Row>, ingredients: seq<string>) {
    forall i, j :: 0 <= i < j < |rows| ==>
      rows[i].option.id != rows[j].option.id && !SameClass(rows[i], rows[j], ingredients)
  }

  lemma {:induction false} CatalogClashFree(item: Product, selections: Selections, lc: Collation)
    ensures ClashFree(Rows(CatalogGroups(item, selections, lc)), item.ingredients)
  {
    hide CatalogGroups, EligibleGroups, ClassKey, IsExtra, Repeated, PricesDiffer;
    var rows := Rows(CatalogGroups(item, selections, lc));
    SurvivingIdsUnique(item, selections, lc);
    forall i, j | 0 <= i < j < |rows| ensures !SameClass(rows[i], rows[j], item.ingredients) {
      var key := ClassKey(rows[i].option, item.ingredients);
      ClassSurvivor(item, selections, lc, key);
      if SameClass(rows[i], rows[j], item.ingredients) {
        ClassPositionsAll(rows, key, item.ingredients, i);
        ClassPositionsAll(rows, key, item.ingredients, j);
      }
    }
  }

  lemma {:induction false} ClashFreeFiltered(rows: seq<Row>, excluded: set<MenuOption>, ingredients: seq<string>)
    requires ClashFree(rows, ingredients)
    ensures ClashFree(FilterRows(rows, excluded), ingredients)
  {
    hide SameClass;
    var ps := SurvivorPositions(rows, excluded);
  }

  /** Rows that cannot clash lose nothing and raise no issue. */
  lemma {:induction false} ClashFreeKept(rows: seq<Row>, ingredients: seq<string>)
    requires ClashFree(rows, ingredients)
    ensures forall k :: 0 <= k < |rows| ==> rows[k].option !in Excluded(rows, ingredients)
    ensures IdIssues(rows) == []
    ensures ClassIssues(rows, ClassKeys(rows, ingredients), ingredients) == []
  {
    hide Excluded, ClassKey, IsExtra;
    forall k | 0 <= k < |rows| ensures rows[k].option !in Excluded(rows, ingredients) {
      SurvivorExact(rows, k, ingredients);
      SameClassSymmetric(rows, k, ingredients);
    }
    NoIdIssues(rows, ingredients);
    NoClassIssues(rows, ClassKeys(rows, ingredients), ingredients);
  }

  lemma {:induction false} SameClassSymmetric(rows: seq<Row>, k: nat, ingredients: seq<string>)
    requires ClashFree(rows, ingredients) && k < |rows|
    ensures forall j :: 0 <= j < |rows| && SameClass(rows[j], rows[k], ingredients) ==> j == k
    ensures !Repeated(rows, k)
  {
    hide ClassKey, IsExtra;
    forall j | 0 <= j < |rows| && SameClass(rows[j], rows[k], ingredients) ensures j == k {
      assert SameClass(rows[k], rows[j], ingredients);
    }
    forall j | 0 <= j < |rows| && j != k ensures rows[j].option.id != rows[k].option.id {
      assert if j < k then rows[j].option.id != rows[k].option.id else rows[k].option.id != rows[j].option.id;
    }
  }

  lemma {:induction false} NoIdIssues(rows: seq<Row>, ingredients: seq<string>)
    requires ClashFree(rows, ingredients)
    ensures IdIssues(rows) == []
  {
    hide SameClass;
    if rows != [] {
      NoIdIssues(rows[..|rows| - 1], ingredients);
    }
  }

  lemma {:induction false} NoClassIssues(rows: seq<Row>, keys: seq<string>, ingredients: seq<string>)
    requires ClashFree(rows, ingredients)
    ensures ClassIssues(rows, keys, ingredients) == []
  {
    hide ClassKey, IsExtra;
    if keys != [] {
      NoClassIssues(rows, keys[..|keys| - 1], ingredients);
      var ps := ClassPositions(rows, keys[|keys| - 1], ingredients);
      assert |ps| >= 2 ==> SameClass(rows[ps[0]], rows[ps[1]], ingredients);
    }
  }

  // ----- the second run

  lemma {:induction false} DedicatedFromInfos(a: Product, b: Product)
    requires a.id == b.id && multiset(Infos(a.groups)) == multiset(Infos(b.groups))
    ensures HasDedicated(a) ==> HasDedicated(b)
  {
    hide IsDedicated;
    SameMembers(Infos(a.groups), Infos(b.groups));
    if HasDedicated(a) {
      var i :| 0 <= i < |a.groups| && IsAddon(a.groups[i].info) && IsDedicated(a, a.groups[i].info);
      assert Infos(a.groups)[i] in Infos(b.groups);
      var j :| 0 <= j < |b.groups| && Infos(b.groups)[j] == a.groups[i].info;
      SameDedicated(a, b, b.groups[j].info);
    }
  }

  lemma {:induction false} SameDedicated(a: Product, b: Product, g: GroupInfo)
    requires a.id == b.id
    ensures IsDedicated(a, g) == IsDedicated(b, g)
  {
  }

  lemma {:induction false} ShownAuthorizes(item: Product, selections: Selections, lc: Collation, g: GroupInfo, o: MenuOption)
    ensures Authorized(Shown(item, selections, lc), g, o) == Authorized(item, g, o)
  {
    hide CatalogGroups, NamedAdditional, ResolveIngredientMapping, HasDedicated;
    CatalogKeepsGroups(item, selections, lc);
    DedicatedFromInfos(item, Shown(item, selections, lc));
    DedicatedFromInfos(Shown(item, selections, lc), item);
  }

  /** Options the second run leaves out: their size scope, read in menu order, is not selected. */
  function OutOfScope(groups: seq<Group>, selections: Selections): set<MenuOption> {
    set i, o | 0 <= i < |groups| && o in groups[i].options && IsAddon(groups[i].info)
             && !InScope(o.name, SizeNames(groups), SelectedSizes(groups, selections)) :: o
  }

  lemma {:induction false} RowOf(groups: seq<Group>, i: nat, o: MenuOption) returns (k: nat)
    requires i < |groups| && o in groups[i].options
    ensures k < |Rows(groups)| && Rows(groups)[k] == Row(groups[i].info, o)
  {
    var n := |groups| - 1;
    if i == n {
      var j :| 0 <= j < |groups[n].options| && groups[n].options[j] == o;
      k := |Rows(groups[..n])| + j;
    } else {
      k := RowOf(groups[..n], i, o);
    }
  }

  /** An option stands in one group of a catalogue only. */
  lemma {:induction false} OneGroup(item: Product, selections: Selections, lc: Collation, i: nat, j: nat, o: MenuOption)
    requires i < |CatalogGroups(item, selections, lc)| && j < |CatalogGroups(item, selections, lc)|
    requires o in CatalogGroups(item, selections, lc)[i].options && o in CatalogGroups(item, selections, lc)[j].options
    ensures CatalogGroups(item, selections, lc)[i].info == CatalogGroups(item, selections, lc)[j].info
  {
    hide CatalogGroups, EligibleGroups;
    var groups := CatalogGroups(item, selections, lc);
    var a := RowOf(groups, i, o);
    var b := RowOf(groups, j, o);
    SurvivingIdsUnique(item, selections, lc);
    SameIdSameRow(Rows(groups), a, b);
  }

  lemma {:induction false} SameIdSameRow(rows: seq<Row>, a: nat, b: nat)
    requires forall i, j :: 0 <= i < j < |rows| ==> rows[i].option.id != rows[j].option.id
    requires a < |rows| && b < |rows| && rows[a].option.id == rows[b].option.id
    ensures a == b
  {
  }

  lemma {:induction false} ShownEligible(item: Product, selections: Selections, lc: Collation, i: nat, o: MenuOption)
    requires i < |CatalogGroups(item, selections, lc)| && o in CatalogGroups(item, selections, lc)[i].options
    ensures Eligible(Shown(item, selections, lc), selections, CatalogGroups(item, selections, lc)[i].info, o)
            <==> o !in OutOfScope(CatalogGroups(item, selections, lc), selections)
  {
    hide CatalogGroups, InScope, Authorized;
    var groups := CatalogGroups(item, selections, lc);
    OfferedAddons(item, selections, lc);
    ShownAuthorizes(item, selections, lc, groups[i].info, o);
    if o in OutOfScope(groups, selections) {
      var j :| 0 <= j < |groups| && o in groups[j].options && IsAddon(groups[j].info)
               && !InScope(o.name, SizeNames(groups), SelectedSizes(groups, selections));
      OneGroup(item, selections, lc, i, j, o);
    }
  }

  lemma {:induction false} EligibleIsSurviving(item: Product, selections: Selections, g: GroupInfo, options: seq<MenuOption>, excluded: set<MenuOption>)
    requires forall o :: o in options ==> (Eligible(item, selections, g, o) <==> o !in excluded)
    ensures EligibleOptions(item, selections, g, options) == Surviving(options, excluded)
  {
    hide Eligible;
    if options != [] {
      assert options[0] in options;
      EligibleIsSurviving(item, selections, g, options[1..], excluded);
    }
  }

  lemma {:induction false} KeptIfNoneExcluded(options: seq<MenuOption>, excluded: set<MenuOption>)
    requires forall o :: o in options ==> o !in excluded
    ensures Surviving(options, excluded) == options
  {
    if options != [] {
      assert options[0] in options;
      KeptIfNoneExcluded(options[1..], excluded);
    }
  }

  lemma {:induction false} NothingExcluded(options: seq<MenuOption>, excluded: set<MenuOption>)
    ensures Surviving(options, excluded) == options <==> forall o :: o in options ==> o !in excluded
  {
    if Surviving(options, excluded) == options {
      forall o | o in options ensures o !in excluded {
        SurvivingMember(options, excluded, o);
      }
    } else {
      if forall o :: o in options ==> o !in excluded {
        KeptIfNoneExcluded(options, excluded);
      }
    }
  }

  /** The second run offers the first run's options that are in scope, in the same order,
      and finds no issue. */
  lemma {:induction false} SecondRun(item: Product, selections: Selections, lc: Collation)
    requires TotalPreorder(lc)
    ensures CatalogIssues(Shown(item, selections, lc), selections, lc) == []
    ensures var groups := CatalogGroups(item, selections, lc);
            CatalogGroups(Shown(item, selections, lc), selections, lc) == Without(groups, OutOfScope(groups, selections))
  {
    hide CatalogGroups, Rows, Excluded, OutOfScope, ClashFree, IdIssues, ClassIssues;
    var groups, shown := CatalogGroups(item, selections, lc), Shown(item, selections, lc);
    var out := OutOfScope(groups, selections);
    SecondEligible(item, selections, lc);
    var rows := Rows(EligibleGroups(shown, selections, lc));
    RowsWithout(groups, out);
    CatalogClashFree(item, selections, lc);
    ClashFreeFiltered(Rows(groups), out, item.ingredients);
    ClashFreeKept(rows, item.ingredients);
    KeptWhole(Without(groups, out), Excluded(rows, item.ingredients));
    UnfoldCatalog(shown, selections, lc);
  }

  lemma {:induction false} UnfoldCatalog(item: Product, selections: Selections, lc: Collation)
    ensures var groups := EligibleGroups(item, selections, lc);
            && CatalogGroups(item, selections, lc) == Without(groups, Excluded(Rows(groups), item.ingredients))
            && CatalogIssues(item, selections, lc)
               == IdIssues(Rows(groups)) + ClassIssues(Rows(groups), ClassKeys(Rows(groups), item.ingredients), item.ingredients)
  {
  }

  lemma {:induction false} KeptWhole(groups: seq<Group>, excluded: set<MenuOption>)
    requires forall k :: 0 <= k < |Rows(groups)| ==> Rows(groups)[k].option !in excluded
    ensures Without(groups, excluded) == groups
  {
    hide Rows;
    forall i | 0 <= i < |groups| ensures Surviving(groups[i].options, excluded) == groups[i].options {
      forall o | o in groups[i].options ensures o !in excluded {
        var k := RowOf(groups, i, o);
      }
      NothingExcluded(groups[i].options, excluded);
    }
  }

  lemma {:induction false} SecondEligible(item: Product, selections: Selections, lc: Collation)
    requires TotalPreorder(lc)
    ensures var groups := CatalogGroups(item, selections, lc);
            EligibleGroups(Shown(item, selections, lc), selections, lc) == Without(groups, OutOfScope(groups, selections))
  {
    hide CatalogGroups, OutOfScope, Eligible;
    var groups, shown := CatalogGroups(item, selections, lc), Shown(item, selections, lc);
    var out := OutOfScope(groups, selections);
    CatalogSorted(item, selections, lc);
    SortOfSorted(groups, GroupOrder(lc));
    forall i | 0 <= i < |groups|
      ensures EligibleGroup(shown, selections, groups[i], lc) == Group(groups[i].info, Surviving(groups[i].options, out))
    {
      forall o | o in groups[i].options ensures Eligible(shown, selections, groups[i].info, o) <==> o !in out {
        ShownEligible(item, selections, lc, i, o);
      }
      EligibleIsSurviving(shown, selections, groups[i].info, groups[i].options, out);
      assert groups[i] in groups;
      SurvivingSorted(groups[i].options, out, OptionOrder(lc));
      SortOfSorted(Surviving(groups[i].options, out), OptionOrder(lc));
    }
  }

  /** A second run never reports an issue; it returns the same groups exactly when the size
      scope of every offered add-on, read with the sizes in menu order, is selected. */
  lemma {:induction false} RerunExact(item: Product, selections: Selections, lc: Collation)
    requires TotalPreorder(lc)
    ensures CatalogIssues(Shown(item, selections, lc), selections, lc) == []
    ensures var groups := CatalogGroups(item, selections, lc);
            CatalogGroups(Shown(item, selections, lc), selections, lc) == groups <==>
              forall i, o :: 0 <= i < |groups| && o in groups[i].options && IsAddon(groups[i].info) ==>
                InScope(o.name, SizeNames(groups), SelectedSizes(groups, selections))
  {
    hide CatalogGroups, InScope, CatalogIssues;
    SecondRun(item, selections, lc);
    var groups := CatalogGroups(item, selections, lc);
    var out := OutOfScope(groups, selections);
    forall i | 0 <= i < |groups|
      ensures Surviving(groups[i].options, out) == groups[i].options <==> forall o :: o in groups[i].options ==> o !in out
    {
      NothingExcluded(groups[i].options, out);
    }
    if Without(groups, out) == groups {
      forall i, o | 0 <= i < |groups| && o in groups[i].options && IsAddon(groups[i].info)
        ensures InScope(o.name, SizeNames(groups), SelectedSizes(groups, selections))
      {
        assert Without(groups, out)[i].options == groups[i].options;
      }
    }
  }

  // ----- when the sizes are untouched

  predicate NoIdConflict(issues: seq<Issue>) {
    forall i :: 0 <= i < |issues| ==> issues[i].kind != IdConflict
  }

  lemma {:induction false} RepeatIsReported(rows: seq<Row>)
    requires rows != [] && FirstWithId(rows[..|rows| - 1], rows[|rows| - 1].option.id).Some?
    ensures !NoIdConflict(IdIssues(rows))
  {
    assert IdIssues(rows)[|IdIssues(rows[..|rows| - 1])|].kind == IdConflict;
  }

  lemma {:induction false} NoIssueNoRepeat(rows: seq<Row>, k: nat)
    requires NoIdConflict(IdIssues(rows)) && k < |rows|
    ensures !Repeated(rows, k)
  {
    var n := |rows| - 1;
    var before := rows[..n];
    var prior := FirstWithId(before, rows[n].option.id);
    assert NoIdConflict(IdIssues(before)) by {
      assert forall i :: 0 <= i < |IdIssues(before)| ==> IdIssues(before)[i] == IdIssues(rows)[i];
    }
    if prior.Some? { RepeatIsReported(rows); }
    forall j | 0 <= j < |rows| && j != k ensures rows[j].option.id != rows[k].option.id {
      if j < n && k < n {
        NoIssueNoRepeat(before, k);
        assert before[j].option.id != before[k].option.id;
      } else {
        assert before[if j < n then j else k].option.id != rows[n].option.id;
      }
    }
  }

  /** Without an id conflict, a size group is offered whole. */
  lemma {:induction false} SizesOfferedWhole(item: Product, selections: Selections, lc: Collation, i: nat, o: MenuOption)
    requires NoIdConflict(CatalogIssues(item, selections, lc)) && i < |item.groups|
    ensures |CatalogGroups(item, selections, lc)| == |MenuOrder(item, lc)| == |item.groups|
    ensures var g := CatalogGroups(item, selections, lc)[i];
            IsSize(g.info) ==> (o in g.options <==> o in MenuOrder(item, lc)[i].options)
  {
    hide CatalogGroups, Excluded, Eligible, IdIssues, ClassIssues;
    CatalogGroupAt(item, selections, lc, i);
    var eligible, g := EligibleGroups(item, selections, lc), MenuOrder(item, lc)[i];
    var rows := Rows(eligible);
    SurvivingMember(eligible[i].options, Excluded(rows, item.ingredients), o);
    SameMembers(EligibleOptions(item, selections, g.info, g.options), eligible[i].options);
    EligibleMember(item, selections, g.info, g.options, o);
    if IsSize(g.info) {
      SizeEligible(item, selections, g.info, o);
      if o in eligible[i].options {
        var k := RowOf(eligible, i, o);
        PrefixNoConflict(item, selections, lc);
        NoIssueNoRepeat(rows, k);
        SurvivorExact(rows, k, item.ingredients);
      }
    }
  }

  lemma {:induction false} SizeEligible(item: Product, selections: Selections, g: GroupInfo, o: MenuOption)
    requires IsSize(g)
    ensures Eligible(item, selections, g, o) && !IsExtra(g)
  {
  }

  lemma {:induction false} PrefixNoConflict(item: Product, selections: Selections, lc: Collation)
    requires NoIdConflict(CatalogIssues(item, selections, lc))
    ensures NoIdConflict(IdIssues(Rows(EligibleGroups(item, selections, lc))))
  {
    hide CatalogGroups, IdIssues, ClassIssues;
    UnfoldCatalog(item, selections, lc);
    var issues := CatalogIssues(item, selections, lc);
    var first := IdIssues(Rows(EligibleGroups(item, selections, lc)));
    assert forall i :: 0 <= i < |first| ==> first[i] == issues[i];
  }

  ghost predicate SizeNamed(groups: seq<Group>, size: string) {
    exists i, o :: 0 <= i < |groups| && IsSize(groups[i].info) && o in groups[i].options && Normalize(o.name) == size
  }

  ghost predicate SizeChosen(groups: seq<Group>, selections: Selections, size: string) {
    exists i, o :: && 0 <= i < |groups| && IsSize(groups[i].info) && o in groups[i].options
                   && Selected(selections, groups[i].info.id, o.id) && Normalize(o.name) == size
  }

  lemma {:induction false} OptionNamesMember(options: seq<MenuOption>, size: string)
    ensures size in OptionNames(options) <==> exists o :: o in options && Normalize(o.name) == size
  {
    hide Normalize;
    if options != [] {
      OptionNamesMember(options[1..], size);
      assert options[0] in options;
    }
  }

  lemma {:induction false} SelectedMember(g: Group, options: seq<MenuOption>, selections: Selections, o: MenuOption)
    ensures o in SelectedOptions(g, options, selections) <==> o in options && Selected(selections, g.info.id, o.id)
  {
    if options != [] {
      SelectedMember(g, options[1..], selections, o);
    }
  }

  lemma {:induction false} SizeNamesMember(groups: seq<Group>, size: string)
    ensures size in SizeNames(groups) <==> SizeNamed(groups, size)
  {
    hide Normalize, IsSize;
    if groups != [] {
      SizeNamesMember(groups[1..], size);
      OptionNamesMember(groups[0].options, size);
      if i, o :| 0 <= i < |groups| && IsSize(groups[i].info) && o in groups[i].options && Normalize(o.name) == size {
        assert i > 0 ==> groups[1..][i - 1] == groups[i];
      }
      if i, o :| 0 <= i < |groups[1..]| && IsSize(groups[1..][i].info) && o in groups[1..][i].options && Normalize(o.name) == size {
        assert groups[1..][i] == groups[i + 1];
      }
    }
  }

  lemma {:induction false} SelectedSizesMember(groups: seq<Group>, selections: Selections, size: string)
    ensures size in SelectedSizes(groups, selections) <==> SizeChosen(groups, selections, size)
  {
    hide Normalize, IsSize;
    if groups != [] {
      SelectedSizesMember(groups[1..], selections, size);
      OptionNamesMember(SelectedOptions(groups[0], groups[0].options, selections), size);
      forall o ensures o in SelectedOptions(groups[0], groups[0].options, selections) <==>
                         o in groups[0].options && Selected(selections, groups[0].info.id, o.id)
      {
        SelectedMember(groups[0], groups[0].options, selections, o);
      }
      if i, o :| && 0 <= i < |groups| && IsSize(groups[i].info) && o in groups[i].options
                 && Selected(selections, groups[i].info.id, o.id) && Normalize(o.name) == size {
        assert i > 0 ==> groups[1..][i - 1] == groups[i];
      }
      if i, o :| && 0 <= i < |groups[1..]| && IsSize(groups[1..][i].info) && o in groups[1..][i].options
                 && Selected(selections, groups[1..][i].info.id, o.id) && Normalize(o.name) == size {
        assert groups[1..][i] == groups[i + 1];
      }
    }
  }

  /** Size for size, the catalogue's size groups hold what the menu's do. */
  lemma {:induction false} SameSizeGroups(item: Product, selections: Selections, lc: Collation, chosen: Selections, size: string)
    requires NoIdConflict(CatalogIssues(item, selections, lc))
    ensures SizeNamed(CatalogGroups(item, selections, lc), size) <==> SizeNamed(item.groups, size)
    ensures SizeChosen(CatalogGroups(item, selections, lc), chosen, size) <==> SizeChosen(item.groups, chosen, size)
  {
    hide CatalogGroups, CatalogIssues, Normalize, IsSize;
    var groups, menu := CatalogGroups(item, selections, lc), MenuOrder(item, lc);
    CatalogLength(item, selections, lc);
    SameMembers(item.groups, menu);
    forall i, o | 0 <= i < |groups| && IsSize(groups[i].info)
      ensures menu[i].info == groups[i].info && (o in groups[i].options <==> o in menu[i].options)
    {
      CatalogGroupAt(item, selections, lc, i);
      SizesOfferedWhole(item, selections, lc, i, o);
    }
    forall i | 0 <= i < |groups| ensures menu[i].info == groups[i].info {
      CatalogGroupAt(item, selections, lc, i);
    }
    SameNamed(groups, menu, chosen, size);
    SameGroupsNamed(menu, item.groups, chosen, size);
    SameGroupsNamed(item.groups, menu, chosen, size);
  }

  lemma {:induction false} SameNamed(a: seq<Group>, b: seq<Group>, chosen: Selections, size: string)
    requires |a| == |b| && forall i :: 0 <= i < |a| ==> a[i].info == b[i].info
    requires forall i, o :: 0 <= i < |a| && IsSize(a[i].info) ==> (o in a[i].options <==> o in b[i].options)
    ensures SizeNamed(a, size) <==> SizeNamed(b, size)
    ensures SizeChosen(a, chosen, size) <==> SizeChosen(b, chosen, size)
  {
    hide Normalize, IsSize;
  }

  lemma {:induction false} SameGroupsNamed(a: seq<Group>, b: seq<Group>, chosen: Selections, size: string)
    requires forall g :: g in a ==> g in b
    ensures SizeNamed(a, size) ==> SizeNamed(b, size)
    ensures SizeChosen(a, chosen, size) ==> SizeChosen(b, chosen, size)
  {
    hide Normalize, IsSize;
    if i, o :| 0 <= i < |a| && IsSize(a[i].info) && o in a[i].options && Normalize(o.name) == size {
      assert a[i] in a && a[i] in b;
      var j :| 0 <= j < |b| && b[j] == a[i];
    }
    if i, o :| && 0 <= i < |a| && IsSize(a[i].info) && o in a[i].options
               && Selected(chosen, a[i].info.id, o.id) && Normalize(o.name) == size {
      assert a[i] in a && a[i] in b;
      var j :| 0 <= j < |b| && b[j] == a[i];
    }
  }

  /** With no id conflict, and no offered add-on naming two equally long sizes, the
      catalogue is a fixed point of itself. */
  lemma {:induction false} RerunSame(item: Product, selections: Selections, lc: Collation)
    requires TotalPreorder(lc) && NoIdConflict(CatalogIssues(item, selections, lc))
    requires forall g, o :: g in CatalogGroups(item, selections, lc) && o in g.options && IsAddon(g.info) ==>
               Unambiguous(o.name, SizeNames(item.groups))
    ensures CatalogGroups(Shown(item, selections, lc), selections, lc) == CatalogGroups(item, selections, lc)
  {
    hide CatalogGroups, CatalogIssues, Unambiguous;
    var groups := CatalogGroups(item, selections, lc);
    RerunExact(item, selections, lc);
    OfferedAddons(item, selections, lc);
    forall size ensures size in SizeNames(groups) <==> size in SizeNames(item.groups) {
      SizeNamesMember(groups, size);
      SizeNamesMember(item.groups, size);
      SameSizeGroups(item, selections, lc, selections, size);
    }
    forall size ensures size in SelectedSizes(groups, selections) <==> size in SelectedSizes(item.groups, selections) {
      SelectedSizesMember(groups, selections, size);
      SelectedSizesMember(item.groups, selections, size);
      SameSizeGroups(item, selections, lc, selections, size);
    }
    forall i, o | 0 <= i < |groups| && o in groups[i].options && IsAddon(groups[i].info)
      ensures InScope(o.name, SizeNames(groups), SelectedSizes(groups, selections))
    {
      assert groups[i] in groups;
      assert Eligible(item, selections, groups[i].info, o);
      ScopeOfPermutation(o.name, SizeNames(item.groups), SizeNames(groups));
    }
  }

  // ----- two sizes of equal length in one name

  const BIG := MenuOption("b", "big", 0, true, None, None, Some(2))
  const HOT := MenuOption("h", "hot", 0, true, None, None, Some(1))
  const DIP := MenuOption("d", "big hot dip", 150, false, Some("__always__"), None, Some(0))
  const SIZES := GroupInfo("s", "Size", "Size", Some("size"), "SINGLE", 1, Some(1), true, 0, None)
  const EXTRAS := GroupInfo("x", "Extras", "Extras", Some("addon"), "MULTI", 0, None, false, 1, Some("item"))

  /** The editor lists big before hot, the menu shows hot before big; big is selected.
      Both sizes are defaults, although the group allows one. */
  const AMBIGUOUS := Product("item", [Group(SIZES, [BIG, HOT]), Group(EXTRAS, [DIP])], [])
  const BIG_SELECTED: Selections := map["s" := ["b"]]

  lemma {:induction false} ContainsAt(s: string, part: string, n: nat)
    requires n <= |s| && StartsWith(s[n..], part)
    ensures Contains(s, part)
  {
    if n > 0 {
      assert s[1..][n - 1..] == s[n..];
      ContainsAt(s[1..], part, n - 1);
    } else {
      assert s[0..] == s;
    }
  }

  lemma {:induction false} MentionsAt(name: string, size: string, n: nat)
    requires Normal(name) && n + |size| < |name| + 1
    requires n == 0 || name[n - 1] == ' '
    requires name[n..n + |size|] == size && (n + |size| == |name| || name[n + |size|] == ' ')
    ensures Mentions(name, size)
  {
    NormalUnchanged(name);
    hide Normalize, Contains;
    var s, part := " " + name + " ", " " + size + " ";
    var piece := name[n..n + |size|];
    assert forall i :: 0 <= i < |size| ==> piece[i] == name[n + i];
    assert s[n..][..|part|] == part;
    ContainsAt(s, part, n);
  }

  lemma {:induction false} DipNameNormal()
    ensures Normal("big hot dip")
  {
  }

  lemma {:induction false} MentionsBoth()
    ensures Mentions("big hot dip", "big") && Mentions("big hot dip", "hot")
  {
    hide Mentions, Normal;
    var name := "big hot dip";
    DipNameNormal();
    assert name[0..3] == "big" && name[3] == ' ';
    assert name[4..7] == "hot" && name[7] == ' ';
    MentionsAt(name, "big", 0);
    MentionsAt(name, "hot", 4);
  }

  lemma {:induction false} TwoSizeNames(groups: seq<Group>, a: MenuOption, b: MenuOption)
    requires |groups| == 2 && groups[0] == Group(SIZES, [a, b]) && !IsSize(groups[1].info)
    ensures SizeNames(groups) == [Normalize(a.name), Normalize(b.name)]
  {
    hide Normalize;
    assert [a, b][1..] == [b] && [b][1..] == [];
    assert OptionNames([b]) == [Normalize(b.name)];
    assert groups[1..] == [groups[1]] && groups[1..][1..] == [];
    assert SizeNames(groups[1..]) == [];
  }

  /** Of two sizes of one length the scope is the one that is listed first. */
  lemma {:induction false} FirstOfTwo(a: string, b: string)
    requires (a == "big" && b == "hot") || (a == "hot" && b == "big")
    ensures InferOptionSizeScope("big hot dip", [a, b]) == Some(a)
  {
    MentionsBoth();
    hide Mentions;
    assert [a, b][1..] == [b] && [b][1..] == [];
    assert SortBy([b], LongerFirst) == [b];
    assert SortBy([a, b], LongerFirst) == [a, b];
  }

  lemma {:induction false} OnlyBigSelected(o: MenuOption)
    requires o == BIG || o == HOT
    ensures Selected(BIG_SELECTED, SIZES.id, o.id) <==> o == BIG
  {
  }

  lemma {:induction false} ChosenSize(groups: seq<Group>, a: MenuOption, b: MenuOption, size: string)
    requires |groups| == 2 && groups[0] == Group(SIZES, [a, b]) && !IsSize(groups[1].info)
    requires (a == BIG && b == HOT) || (a == HOT && b == BIG)
    ensures size in SelectedSizes(groups, BIG_SELECTED) <==> size == Normalize(BIG.name)
  {
    hide Normalize, Selected, SelectedSizes;
    SelectedSizesMember(groups, BIG_SELECTED, size);
    OnlyBigSelected(a);
    OnlyBigSelected(b);
    assert groups[0].options == [a, b] && IsSize(groups[0].info);
    assert BIG in groups[0].options;
  }

  lemma {:induction false} DipScope(groups: seq<Group>, a: MenuOption, b: MenuOption)
    requires |groups| == 2 && groups[0] == Group(SIZES, [a, b]) && !IsSize(groups[1].info)
    requires (a == BIG && b == HOT) || (a == HOT && b == BIG)
    ensures InScope("big hot dip", SizeNames(groups), SelectedSizes(groups, BIG_SELECTED)) <==> a == BIG
  {
    hide Normalize, InScope, SizeNames, SelectedSizes;
    NormalSizes();
    TwoSizeNames(groups, a, b);
    ChosenSize(groups, a, b, "big");
    ChosenSize(groups, a, b, "hot");
    FirstIsScope(SelectedSizes(groups, BIG_SELECTED), a.name, b.name);
  }

  lemma {:induction false} NormalSizes()
    ensures Normalize("big") == "big" && Normalize("hot") == "hot"
  {
    hide Normalize;
    NormalUnchanged("big");
    NormalUnchanged("hot");
  }

  lemma {:induction false} FirstIsScope(chosen: seq<string>, a: string, b: string)
    requires (a == "big" && b == "hot") || (a == "hot" && b == "big")
    requires "big" in chosen && "hot" !in chosen
    ensures InScope("big hot dip", [a, b], chosen) <==> a == "big"
  {
    FirstOfTwo(a, b);
    hide InferOptionSizeScope;
  }

  lemma {:induction false} DipEligible()
    ensures Eligible(AMBIGUOUS, BIG_SELECTED, EXTRAS, DIP)
  {
    hide InScope, SizeNames, SelectedSizes;
    DipScope(AMBIGUOUS.groups, BIG, HOT);
    assert !NamedAdditional(EXTRAS.name);
    assert !HasDedicated(AMBIGUOUS);
  }

  lemma {:induction false} AmbiguousEligible(lc: Collation)
    ensures EligibleGroups(AMBIGUOUS, BIG_SELECTED, lc) == [Group(SIZES, [HOT, BIG]), Group(EXTRAS, [DIP])]
  {
    DipEligible();
    SizeEligibleTwo(lc);
    AmbiguousOrder(lc);
    DipAlone(lc);
    hide Eligible, EligibleGroup, SortBy;
    var r := EligibleGroups(AMBIGUOUS, BIG_SELECTED, lc);
    var sorted := SortBy(AMBIGUOUS.groups, GroupOrder(lc));
    assert |r| == 2 && r[0] == EligibleGroup(AMBIGUOUS, BIG_SELECTED, sorted[0], lc)
        && r[1] == EligibleGroup(AMBIGUOUS, BIG_SELECTED, sorted[1], lc);
  }

  lemma {:induction false} AmbiguousOrder(lc: Collation)
    ensures SortBy(AMBIGUOUS.groups, GroupOrder(lc)) == [Group(SIZES, [BIG, HOT]), Group(EXTRAS, [DIP])]
  {
    var s, x := Group(SIZES, [BIG, HOT]), Group(EXTRAS, [DIP]);
    assert [s, x][1..] == [x] && [x][1..] == [];
    assert SortBy([x], GroupOrder(lc)) == [x];
  }

  lemma {:induction false} DipAlone(lc: Collation)
    requires Eligible(AMBIGUOUS, BIG_SELECTED, EXTRAS, DIP)
    ensures EligibleGroup(AMBIGUOUS, BIG_SELECTED, Group(EXTRAS, [DIP]), lc) == Group(EXTRAS, [DIP])
  {
    hide Eligible;
    assert [DIP][1..] == [];
    assert EligibleOptions(AMBIGUOUS, BIG_SELECTED, EXTRAS, [DIP]) == [DIP];
    assert SortBy([DIP], OptionOrder(lc)) == [DIP];
  }

  lemma {:induction false} SizeEligibleTwo(lc: Collation)
    ensures EligibleGroup(AMBIGUOUS, BIG_SELECTED, Group(SIZES, [BIG, HOT]), lc) == Group(SIZES, [HOT, BIG])
  {
    SizeEligible(AMBIGUOUS, BIG_SELECTED, SIZES, BIG);
    SizeEligible(AMBIGUOUS, BIG_SELECTED, SIZES, HOT);
    hide Eligible;
    assert [BIG, HOT][1..] == [HOT] && [HOT][1..] == [];
    assert EligibleOptions(AMBIGUOUS, BIG_SELECTED, SIZES, [HOT]) == [HOT];
    assert EligibleOptions(AMBIGUOUS, BIG_SELECTED, SIZES, [BIG, HOT]) == [BIG, HOT];
    assert SortBy([HOT], OptionOrder(lc)) == [HOT];
    assert SortKey(BIG) == 2 && SortKey(HOT) == 1 && [HOT][1..] == [];
    var le := OptionOrder(lc);
    assert !le(BIG, HOT);
    assert Insert(BIG, [], OptionOrder(lc)) == [BIG];
    assert Insert(BIG, [HOT], OptionOrder(lc)) == [HOT, BIG];
  }

  const AMBIGUOUS_ELIGIBLE := [Group(SIZES, [HOT, BIG]), Group(EXTRAS, [DIP])]

  lemma {:induction false} AmbiguousRows()
    ensures Rows(AMBIGUOUS_ELIGIBLE) == [Row(SIZES, HOT), Row(SIZES, BIG), Row(EXTRAS, DIP)]
  {
    var groups := AMBIGUOUS_ELIGIBLE;
    assert groups[..1] == [groups[0]] && groups[..1][..0] == [];
    assert Rows(groups[..1]) == GroupRows(SIZES, [HOT, BIG]);
  }

  lemma {:induction false} AmbiguousCatalog(lc: Collation)
    ensures CatalogGroups(AMBIGUOUS, BIG_SELECTED, lc) == AMBIGUOUS_ELIGIBLE
  {
    AmbiguousEligible(lc);
    AmbiguousRows();
    hide EligibleGroups, Excluded, ClassKey, Rows, Without;
    var rows := Rows(AMBIGUOUS_ELIGIBLE);
    forall k | 0 <= k < |rows| ensures rows[k].option !in Excluded(rows, []) {
      SurvivorExact(rows, k, []);
    }
    KeptWhole(AMBIGUOUS_ELIGIBLE, Excluded(rows, []));
  }

  /** The fixed point needs its condition: here an add-on names two sizes of one length.
      The first run reads its scope as big and offers it; the second reads hot and does not. */
  lemma {:induction false} RerunDiffers(lc: Collation)
    requires TotalPreorder(lc)
    ensures CatalogGroups(Shown(AMBIGUOUS, BIG_SELECTED, lc), BIG_SELECTED, lc) != CatalogGroups(AMBIGUOUS, BIG_SELECTED, lc)
    ensures CatalogIssues(Shown(AMBIGUOUS, BIG_SELECTED, lc), BIG_SELECTED, lc) == []
  {
    AmbiguousCatalog(lc);
    hide CatalogGroups, CatalogIssues, InScope;
    var groups := CatalogGroups(AMBIGUOUS, BIG_SELECTED, lc);
    RerunExact(AMBIGUOUS, BIG_SELECTED, lc);
    DipScope(groups, HOT, BIG);
    assert DIP in groups[1].options && IsAddon(groups[1].info);
  }
}
