/** `customizationCatalog` (packages/customization/src/index.ts): which options of a
    product a customer is offered. The method is the source's two passes with its map and
    set; it is proved against a description that looks at positions only. */
module Catalog {
  import opened Strings
  import opened Sorting
  import opened MenuText

  datatype MenuOption = MenuOption(
    id: string,
    name: string,
    priceDeltaCents: int,
    isDefault: bool,
    addonMatch: Option<string>,
    linkedFlavourId: Option<string>,
    sortOrder: Option<int>)

  /** A modifier group without its options. */
  datatype GroupInfo = GroupInfo(
    id: string,
    name: string,
    displayLabel: string,
    contextKey: Option<string>,
    selectionMode: string,
    minSelect: int,
    maxSelect: Option<int>,
    isRequired: bool,
    sortOrder: int,
    addonScope: Option<string>)

  datatype Group = Group(info: GroupInfo, options: seq<MenuOption>)

  datatype Product = Product(id: string, groups: seq<Group>, ingredients: seq<string>)

  type Selections = map<string, seq<string>>

  datatype IssueKind = Duplicate | PriceConflict | IdConflict

  datatype Issue = Issue(kind: IssueKind, optionIds: seq<string>, groupIds: seq<string>)

  // ----- selection limits

  function MinimumSelections(g: GroupInfo): int {
    var required := if g.isRequired then 1 else 0;
    if g.minSelect >= required then g.minSelect else required
  }

  /** `None` is no limit. */
  function MaximumSelections(g: GroupInfo): Option<int> {
    if g.selectionMode == "SINGLE" then Some(if g.maxSelect.Some? && g.maxSelect.value < 1 then g.maxSelect.value else 1)
    else g.maxSelect
  }

  // ----- sizes

  predicate IsSize(g: GroupInfo) { g.contextKey == Some("size") }

  predicate IsAddon(g: GroupInfo) { g.contextKey == Some("addon") }

  predicate Selected(selections: Selections, groupId: string, optionId: string) {
    groupId in selections && optionId in selections[groupId]
  }

  function OptionNames(options: seq<MenuOption>): seq<string> {
    if options == [] then [] else [Normalize(options[0].name)] + OptionNames(options[1..])
  }

  function SizeNames(groups: seq<Group>): seq<string> {
    if groups == [] then []
    else (if IsSize(groups[0].info) then OptionNames(groups[0].options) else []) + SizeNames(groups[1..])
  }

  function SelectedOptions(g: Group, options: seq<MenuOption>, selections: Selections): seq<MenuOption> {
    if options == [] then []
    else
      (if Selected(selections, g.info.id, options[0].id) then [options[0]] else [])
      + SelectedOptions(g, options[1..], selections)
  }

  function SelectedSizes(groups: seq<Group>, selections: Selections): seq<string> {
    if groups == [] then []
    else
      (if IsSize(groups[0].info) then OptionNames(SelectedOptions(groups[0], groups[0].options, selections)) else [])
      + SelectedSizes(groups[1..], selections)
  }

  // ----- which options are considered

  const ADDITIONAL: string := " additional ingredients"

  /** `/ additional ingredients$/i.test(name)`. */
  predicate NamedAdditional(name: string) {
    |name| >= |ADDITIONAL| && Lower(name[|name| - |ADDITIONAL|..]) == ADDITIONAL
  }

  predicate IsDedicated(item: Product, g: GroupInfo) {
    g.addonScope == Some(item.id) && NamedAdditional(g.name)
  }

  predicate HasDedicated(item: Product) {
    exists i :: 0 <= i < |item.groups| && IsAddon(item.groups[i].info) && IsDedicated(item, item.groups[i].info)
  }

  predicate Authorized(item: Product, g: GroupInfo, option: MenuOption) {
    && (HasDedicated(item) ==> IsDedicated(item, g))
    && if option.addonMatch == Some("__always__") then g.addonScope == Some(item.id)
       else ResolveIngredientMapping(option.addonMatch, item.ingredients).Some?
  }

  predicate InScope(name: string, sizeNames: seq<string>, selectedSizes: seq<string>) {
    var size := InferOptionSizeScope(name, sizeNames);
    size.None? || size.value == "" || size.value in selectedSizes
  }

  predicate Eligible(item: Product, selections: Selections, g: GroupInfo, option: MenuOption) {
    IsAddon(g) ==>
      && Authorized(item, g, option)
      && InScope(option.name, SizeNames(item.groups), SelectedSizes(item.groups, selections))
  }

  function EligibleOptions(item: Product, selections: Selections, g: GroupInfo, options: seq<MenuOption>): seq<MenuOption> {
    if options == [] then []
    else
      (if Eligible(item, selections, g, options[0]) then [options[0]] else [])
      + EligibleOptions(item, selections, g, options[1..])
  }

  function GroupOrder(lc: Collation): (Group, Group) -> bool {
    (a: Group, b: Group) =>
      a.info.sortOrder < b.info.sortOrder || (a.info.sortOrder == b.info.sortOrder && lc(a.info.id, b.info.id))
  }

  function SortKey(o: MenuOption): int {
    if o.sortOrder.Some? then o.sortOrder.value else 0
  }

  function OptionOrder(lc: Collation): (MenuOption, MenuOption) -> bool {
    (a: MenuOption, b: MenuOption) =>
      || SortKey(a) < SortKey(b)
      || (SortKey(a) == SortKey(b) &&
          ((a.isDefault && !b.isDefault) || (a.isDefault == b.isDefault && lc(a.name, b.name))))
  }

  function EligibleGroup(item: Product, selections: Selections, g: Group, lc: Collation): Group {
    Group(g.info, SortBy(EligibleOptions(item, selections, g.info, g.options), OptionOrder(lc)))
  }

  function EligibleEach(item: Product, selections: Selections, groups: seq<Group>, lc: Collation): (r: seq<Group>)
    ensures |r| == |groups| && forall i :: 0 <= i < |groups| ==> r[i] == EligibleGroup(item, selections, groups[i], lc)
  {
    seq(|groups|, i requires 0 <= i < |groups| => EligibleGroup(item, selections, groups[i], lc))
  }

  /** The groups and options in menu order, before conflicts are resolved. */
  function EligibleGroups(item: Product, selections: Selections, lc: Collation): seq<Group> {
    EligibleEach(item, selections, SortBy(item.groups, GroupOrder(lc)), lc)
  }

  // ----- rows: the options in traversal order

  datatype Row = Row(group: GroupInfo, option: MenuOption)

  function GroupRows(g: GroupInfo, options: seq<MenuOption>): (r: seq<Row>)
    ensures |r| == |options| && forall i :: 0 <= i < |options| ==> r[i] == Row(g, options[i])
  {
    seq(|options|, i requires 0 <= i < |options| => Row(g, options[i]))
  }

  function Rows(groups: seq<Group>): seq<Row> {
    if groups == [] then []
    else Rows(groups[..|groups| - 1]) + GroupRows(groups[|groups| - 1].info, groups[|groups| - 1].options)
  }

  /** Another row has the same option id. */
  predicate Repeated(rows: seq<Row>, k: nat)
    requires k < |rows|
  {
    exists j :: 0 <= j < |rows| && j != k && rows[j].option.id == rows[k].option.id
  }

  /** Extras a customer may add freely; required groups and slots keep their own meaning. */
  predicate IsExtra(g: GroupInfo) {
    IsAddon(g) && MinimumSelections(g) <= 0 && g.selectionMode == "MULTI"
  }

  function StripPrefix(s: string): string {
    if StartsWith(s, "add ") then s[4..] else if StartsWith(s, "extra ") then s[6..] else s
  }

  function MappingPart(option: MenuOption, ingredients: seq<string>): string {
    var resolved := ResolveIngredientMapping(option.addonMatch, ingredients);
    if resolved.Some? then resolved.value
    else if option.addonMatch.Some? then option.addonMatch.value
    else ""
  }

  function FlavourPart(option: MenuOption): string {
    if option.linkedFlavourId.Some? then option.linkedFlavourId.value else ""
  }

  /** Extras with the same key are the same extra. */
  function ClassKey(option: MenuOption, ingredients: seq<string>): string {
    Join([StripPrefix(Normalize(option.name)), MappingPart(option, ingredients), FlavourPart(option)], "|")
  }

  predicate InClass(row: Row, key: string, ingredients: seq<string>) {
    IsExtra(row.group) && ClassKey(row.option, ingredients) == key
  }

  function ClassRows(rows: seq<Row>, key: string, ingredients: seq<string>): seq<Row> {
    if rows == [] then []
    else
      var last := rows[|rows| - 1];
      ClassRows(rows[..|rows| - 1], key, ingredients) + if InClass(last, key, ingredients) then [last] else []
  }

  /** The class keys in order of first appearance. */
  function ClassKeys(rows: seq<Row>, ingredients: seq<string>): seq<string> {
    if rows == [] then []
    else
      var before, last := ClassKeys(rows[..|rows| - 1], ingredients), rows[|rows| - 1];
      if IsExtra(last.group) && ClassKey(last.option, ingredients) !in before
      then before + [ClassKey(last.option, ingredients)] else before
  }

  predicate PricesDiffer(rows: seq<Row>) {
    exists i, j :: 0 <= i < j < |rows| && rows[i].option.priceDeltaCents != rows[j].option.priceDeltaCents
  }

  // ----- what is excluded, and what is reported

  function RepeatedOptions(rows: seq<Row>): set<MenuOption> {
    set k | 0 <= k < |rows| && Repeated(rows, k) :: rows[k].option
  }

  function OptionsOf(rows: seq<Row>): set<MenuOption> {
    set k | 0 <= k < |rows| :: rows[k].option
  }

  /** Of equivalent extras the first stays, unless their prices disagree. */
  function ClassExcluded(rows: seq<Row>): set<MenuOption> {
    if |rows| < 2 then {} else OptionsOf(if PricesDiffer(rows) then rows else rows[1..])
  }

  function ClassesExcluded(rows: seq<Row>, keys: seq<string>, ingredients: seq<string>): set<MenuOption> {
    set i, o | 0 <= i < |keys| && o in ClassExcluded(ClassRows(rows, keys[i], ingredients)) :: o
  }

  function Excluded(rows: seq<Row>, ingredients: seq<string>): set<MenuOption> {
    RepeatedOptions(rows) + ClassesExcluded(rows, ClassKeys(rows, ingredients), ingredients)
  }

  function FirstWithId(rows: seq<Row>, id: string): (r: Option<nat>)
    ensures r.Some? ==> r.value < |rows| && rows[r.value].option.id == id
    ensures r.Some? ==> forall i :: 0 <= i < r.value ==> rows[i].option.id != id
    ensures r.None? ==> forall i :: 0 <= i < |rows| ==> rows[i].option.id != id
  {
    if rows == [] then None
    else if rows[0].option.id == id then Some(0)
    else
      var r := FirstWithId(rows[1..], id);
      if r.Some? then Some(r.value + 1) else None
  }

  function IdIssues(rows: seq<Row>): seq<Issue> {
    if rows == [] then []
    else
      var before, last := rows[..|rows| - 1], rows[|rows| - 1];
      var prior := FirstWithId(before, last.option.id);
      IdIssues(before) +
      if prior.Some? then [Issue(IdConflict, [last.option.id], [before[prior.value].group.id, last.group.id])] else []
  }

  function OptionIds(rows: seq<Row>): (r: seq<string>)
    ensures |r| == |rows| && forall i :: 0 <= i < |rows| ==> r[i] == rows[i].option.id
  {
    seq(|rows|, i requires 0 <= i < |rows| => rows[i].option.id)
  }

  function GroupIds(rows: seq<Row>): seq<string> {
    seq(|rows|, i requires 0 <= i < |rows| => rows[i].group.id)
  }

  function ClassIssue(rows: seq<Row>): seq<Issue> {
    if |rows| < 2 then []
    else [Issue(if PricesDiffer(rows) then PriceConflict else Duplicate, OptionIds(rows), GroupIds(rows))]
  }

  function ClassIssues(rows: seq<Row>, keys: seq<string>, ingredients: seq<string>): seq<Issue> {
    if keys == [] then []
    else ClassIssues(rows, keys[..|keys| - 1], ingredients) + ClassIssue(ClassRows(rows, keys[|keys| - 1], ingredients))
  }

  function Surviving(options: seq<MenuOption>, excluded: set<MenuOption>): seq<MenuOption> {
    if options == [] then []
    else (if options[0] !in excluded then [options[0]] else []) + Surviving(options[1..], excluded)
  }

  function Without(groups: seq<Group>, excluded: set<MenuOption>): (r: seq<Group>)
    ensures |r| == |groups|
    ensures forall i :: 0 <= i < |groups| ==> r[i] == Group(groups[i].info, Surviving(groups[i].options, excluded))
  {
    seq(|groups|, i requires 0 <= i < |groups| => Group(groups[i].info, Surviving(groups[i].options, excluded)))
  }

  function CatalogGroups(item: Product, selections: Selections, lc: Collation): seq<Group> {
    var groups := EligibleGroups(item, selections, lc);
    Without(groups, Excluded(Rows(groups), item.ingredients))
  }

  function CatalogIssues(item: Product, selections: Selections, lc: Collation): seq<Issue> {
    var rows := Rows(EligibleGroups(item, selections, lc));
    IdIssues(rows) + ClassIssues(rows, ClassKeys(rows, item.ingredients), item.ingredients)
  }

  // ----- lemmas for the loops

  lemma {:induction false} RowsExtend(groups: seq<Group>, n: nat)
    requires n < |groups|
    ensures Rows(groups[..n + 1]) == Rows(groups[..n]) + GroupRows(groups[n].info, groups[n].options)
  {
    assert groups[..n + 1][..n] == groups[..n];
  }

  lemma {:induction false} GroupRowsExtend(g: GroupInfo, options: seq<MenuOption>, n: nat)
    requires n < |options|
    ensures GroupRows(g, options[..n + 1]) == GroupRows(g, options[..n]) + [Row(g, options[n])]
  {
  }

  /** A row that repeats an id makes itself and the first row with that id repeated;
      rows in between were repeated already. */
  lemma {:induction false} RepeatedExtend(rows: seq<Row>, row: Row)
    ensures var prior := FirstWithId(rows, row.option.id);
            RepeatedOptions(rows + [row]) == RepeatedOptions(rows)
              + if prior.Some? then {rows[prior.value].option, row.option} else {}
  {
    var all, prior, n := rows + [row], FirstWithId(rows, row.option.id), |rows|;
    forall k | 0 <= k < n ensures Repeated(all, k) <==> Repeated(rows, k) || rows[k].option.id == row.option.id {
      if rows[k].option.id == row.option.id {
        assert all[n].option.id == all[k].option.id;
      }
      if j :| 0 <= j < n && j != k && rows[j].option.id == rows[k].option.id {
        assert all[j].option.id == all[k].option.id;
      }
      if j :| 0 <= j < |all| && j != k && all[j].option.id == all[k].option.id {
        assert j < n ==> rows[j].option.id == rows[k].option.id;
      }
    }
    assert Repeated(all, n) <==> prior.Some? by {
      if prior.Some? {
        assert all[prior.value].option.id == all[n].option.id;
      }
    }
    forall o ensures o in RepeatedOptions(all) <==>
                       || o in RepeatedOptions(rows)
                       || (prior.Some? && (o == rows[prior.value].option || o == row.option))
    {
      RepeatedMember(rows, row, o);
    }
  }

  lemma {:induction false} RepeatedMember(rows: seq<Row>, row: Row, o: MenuOption)
    requires forall k :: 0 <= k < |rows| ==>
               (Repeated(rows + [row], k) <==> Repeated(rows, k) || rows[k].option.id == row.option.id)
    requires Repeated(rows + [row], |rows|) <==> FirstWithId(rows, row.option.id).Some?
    ensures var prior := FirstWithId(rows, row.option.id);
            o in RepeatedOptions(rows + [row]) <==>
              || o in RepeatedOptions(rows)
              || (prior.Some? && (o == rows[prior.value].option || o == row.option))
  {
    var all, prior, n := rows + [row], FirstWithId(rows, row.option.id), |rows|;
    if o in RepeatedOptions(all) {
      var k :| 0 <= k < |all| && Repeated(all, k) && all[k].option == o;
      if k < n && rows[k].option.id == row.option.id {
        assert rows[prior.value].option.id == rows[k].option.id;
        assert k != prior.value ==> Repeated(rows, k);
      }
    }
    if o in RepeatedOptions(rows) {
      var k :| 0 <= k < n && Repeated(rows, k) && rows[k].option == o;
      assert all[k].option == o && Repeated(all, k);
    }
    if prior.Some? {
      assert all[prior.value].option == rows[prior.value].option && Repeated(all, prior.value);
      assert all[n].option == row.option;
    }
  }

  lemma {:induction false} ClassesExtend(rows: seq<Row>, row: Row, key: string, ingredients: seq<string>)
    ensures ClassRows(rows + [row], key, ingredients)
            == ClassRows(rows, key, ingredients) + if InClass(row, key, ingredients) then [row] else []
    ensures ClassKeys(rows + [row], ingredients)
            == if IsExtra(row.group) && ClassKey(row.option, ingredients) !in ClassKeys(rows, ingredients)
               then ClassKeys(rows, ingredients) + [ClassKey(row.option, ingredients)]
               else ClassKeys(rows, ingredients)
    ensures IdIssues(rows + [row]) == IdIssues(rows) +
              var prior := FirstWithId(rows, row.option.id);
              if prior.Some? then [Issue(IdConflict, [row.option.id], [rows[prior.value].group.id, row.group.id])] else []
  {
    assert (rows + [row])[..|rows|] == rows;
  }

  lemma {:induction false} ExcludedExtend(rows: seq<Row>, keys: seq<string>, n: nat, ingredients: seq<string>)
    requires n < |keys|
    ensures ClassesExcluded(rows, keys[..n + 1], ingredients)
            == ClassesExcluded(rows, keys[..n], ingredients) + ClassExcluded(ClassRows(rows, keys[n], ingredients))
    ensures ClassIssues(rows, keys[..n + 1], ingredients)
            == ClassIssues(rows, keys[..n], ingredients) + ClassIssue(ClassRows(rows, keys[n], ingredients))
  {
    hide ClassExcluded, ClassIssue, ClassRows;
    assert keys[..n + 1][..n] == keys[..n];
    var a, b, c := ClassesExcluded(rows, keys[..n + 1], ingredients), ClassesExcluded(rows, keys[..n], ingredients),
                   ClassExcluded(ClassRows(rows, keys[n], ingredients));
    forall o ensures o in a <==> o in b || o in c {
      if o in b {
        var i :| 0 <= i < n && o in ClassExcluded(ClassRows(rows, keys[..n][i], ingredients));
        assert keys[..n + 1][i] == keys[..n][i];
      }
      if o in c {
        assert keys[..n + 1][n] == keys[n];
      }
    }
  }

  // ----- the source's passes

  /** The catalogue for a product under the current selections. */
  method CustomizationCatalog(item: Product, selections: Selections, lc: Collation)
    returns (groups: seq<Group>, issues: seq<Issue>)
    ensures groups == CatalogGroups(item, selections, lc)
    ensures issues == CatalogIssues(item, selections, lc)
  {
    hide RepeatedOptions, IdIssues, ClassKeys, ClassesExcluded, ClassIssues, ClassRows;
    var sorted := EligibleGroups(item, selections, lc);
    var seen, order, idIssues, repeated := FirstPass(sorted, item.ingredients);
    var classIssues, equivalent := SecondPass(Rows(sorted), seen, order, item.ingredients);
    issues := idIssues + classIssues;
    groups := Without(sorted, repeated + equivalent);
  }

  /** The traversal that fills the map of ids and the map of equivalent extras. */
  method FirstPass(groups: seq<Group>, ingredients: seq<string>)
    returns (seen: map<string, seq<Row>>, order: seq<string>, issues: seq<Issue>, excluded: set<MenuOption>)
    ensures order == ClassKeys(Rows(groups), ingredients)
    ensures forall i :: 0 <= i < |order| ==>
              order[i] in seen && seen[order[i]] == ClassRows(Rows(groups), order[i], ingredients)
    ensures issues == IdIssues(Rows(groups))
    ensures excluded == RepeatedOptions(Rows(groups))
  {
    var ids: map<string, Row> := map[];
    seen, order, issues, excluded := map[], [], [], {};
    ghost var rows: seq<Row> := [];
    var g := 0;
    while g < |groups|
      invariant g <= |groups| && rows == Rows(groups[..g])
      invariant Recorded(ids, seen, order, issues, excluded, rows, ingredients)
    {
      hide Recorded;
      var group := groups[g];
      ghost var base := rows;
      var o := 0;
      while o < |group.options|
        invariant o <= |group.options| && rows == base + GroupRows(group.info, group.options[..o])
        invariant Recorded(ids, seen, order, issues, excluded, rows, ingredients)
      {
        ids, seen, order, issues, excluded :=
          RecordOption(ids, seen, order, issues, excluded, rows, group.info, group.options[o], ingredients);
        GroupRowsExtend(group.info, group.options, o);
        rows := rows + [Row(group.info, group.options[o])];
        o := o + 1;
      }
      assert group.options[..o] == group.options;
      RowsExtend(groups, g);
      g := g + 1;
    }
    assert groups[..g] == groups;
  }

  /** The body of the traversal: one option of one group. */
  method RecordOption(ids0: map<string, Row>, seen0: map<string, seq<Row>>, order0: seq<string>, issues0: seq<Issue>,
                      excluded0: set<MenuOption>, ghost rows: seq<Row>, group: GroupInfo, option: MenuOption,
                      ingredients: seq<string>)
    returns (ids: map<string, Row>, seen: map<string, seq<Row>>, order: seq<string>, issues: seq<Issue>,
             excluded: set<MenuOption>)
    requires Recorded(ids0, seen0, order0, issues0, excluded0, rows, ingredients)
    ensures Recorded(ids, seen, order, issues, excluded, rows + [Row(group, option)], ingredients)
  {
    hide RepeatedOptions, IdIssues, ClassKey, IsExtra;
    ids, seen, order, issues, excluded := ids0, seen0, order0, issues0, excluded0;
    var row := Row(group, option);
    RepeatedExtend(rows, row);
    ClassesExtend(rows, row, "", ingredients);
    IdsExtend(ids, rows, row);
    SeenExtend(seen, order, rows, row, ingredients);
    if option.id in ids {
      var prior := ids[option.id];
      issues := issues + [Issue(IdConflict, [option.id], [prior.group.id, group.id])];
      excluded := excluded + {prior.option, option};
    } else {
      ids := ids[option.id := row];
    }
    if IsExtra(group) {
      var key := ClassKey(option, ingredients);
      if key in seen {
        seen := seen[key := seen[key] + [row]];
      } else {
        seen := seen[key := [row]];
        order := order + [key];
      }
    }
  }

  /** The loop over the equivalent extras. */
  method SecondPass(ghost rows: seq<Row>, seen: map<string, seq<Row>>, order: seq<string>, ingredients: seq<string>)
    returns (issues: seq<Issue>, excluded: set<MenuOption>)
    requires forall i :: 0 <= i < |order| ==> order[i] in seen && seen[order[i]] == ClassRows(rows, order[i], ingredients)
    ensures issues == ClassIssues(rows, order, ingredients)
    ensures excluded == ClassesExcluded(rows, order, ingredients)
  {
    issues, excluded := [], {};
    var n := 0;
    while n < |order|
      invariant n <= |order|
      invariant issues == ClassIssues(rows, order[..n], ingredients)
      invariant excluded == ClassesExcluded(rows, order[..n], ingredients)
    {
      hide ClassesExcluded, ClassIssues, ClassRows;
      var same := seen[order[n]];
      ExcludedExtend(rows, order, n, ingredients);
      if |same| >= 2 {
        var conflict := PricesDiffer(same);
        issues := issues + [Issue(if conflict then PriceConflict else Duplicate, OptionIds(same), GroupIds(same))];
        excluded := excluded + OptionsOf(if conflict then same else same[1..]);
      }
      n := n + 1;
    }
    assert order[..n] == order;
  }

  ghost predicate Recorded(ids: map<string, Row>, seen: map<string, seq<Row>>, order: seq<string>, issues: seq<Issue>,
                           excluded: set<MenuOption>, rows: seq<Row>, ingredients: seq<string>) {
    && IdsRecorded(ids, rows) && SeenRecorded(seen, order, rows, ingredients)
    && issues == IdIssues(rows) && excluded == RepeatedOptions(rows)
  }

  /** The id map holds the first row of every id. */
  ghost predicate IdsRecorded(ids: map<string, Row>, rows: seq<Row>) {
    && (forall id :: id in ids <==> FirstWithId(rows, id).Some?)
    && (forall id :: id in ids ==> ids[id] == rows[FirstWithId(rows, id).value])
  }

  ghost predicate SeenRecorded(seen: map<string, seq<Row>>, order: seq<string>, rows: seq<Row>, ingredients: seq<string>) {
    && order == ClassKeys(rows, ingredients)
    && (forall key :: key in seen <==> key in order)
    && (forall key :: key in seen ==> seen[key] == ClassRows(rows, key, ingredients))
    && (forall key :: key !in seen ==> ClassRows(rows, key, ingredients) == [])
  }

  lemma {:induction false} FirstWithIdExtend(rows: seq<Row>, row: Row, id: string)
    ensures FirstWithId(rows + [row], id)
            == if FirstWithId(rows, id).Some? then FirstWithId(rows, id)
               else if row.option.id == id then Some(|rows|) else None
  {
    var r := FirstWithId(rows + [row], id);
    if FirstWithId(rows, id).Some? {
      assert (rows + [row])[FirstWithId(rows, id).value].option.id == id;
    } else if row.option.id == id {
      assert (rows + [row])[|rows|].option.id == id;
    }
    assert r.Some? && r.value < |rows| ==> rows[r.value].option.id == id;
  }

  lemma {:induction false} IdsExtend(ids: map<string, Row>, rows: seq<Row>, row: Row)
    requires IdsRecorded(ids, rows)
    ensures IdsRecorded(if row.option.id in ids then ids else ids[row.option.id := row], rows + [row])
  {
    forall id ensures FirstWithId(rows + [row], id)
                      == if FirstWithId(rows, id).Some? then FirstWithId(rows, id)
                         else if row.option.id == id then Some(|rows|) else None
    {
      FirstWithIdExtend(rows, row, id);
    }
  }

  lemma {:induction false} ClassRowsExtend(rows: seq<Row>, row: Row, key: string, ingredients: seq<string>)
    ensures ClassRows(rows + [row], key, ingredients)
         == if IsExtra(row.group) && ClassKey(row.option, ingredients) == key
            then ClassRows(rows, key, ingredients) + [row] else ClassRows(rows, key, ingredients)
  {
    hide ClassKey, IsExtra, ClassRows;
    ClassesExtend(rows, row, key, ingredients);
  }

  lemma {:induction false} SeenSame(seen: map<string, seq<Row>>, order: seq<string>, rows: seq<Row>, row: Row, ingredients: seq<string>)
    requires SeenRecorded(seen, order, rows, ingredients) && !IsExtra(row.group)
    ensures SeenRecorded(seen, order, rows + [row], ingredients)
  {
    ClassesExtend(rows, row, "", ingredients);
    hide ClassKey, IsExtra, ClassRows, ClassKeys;
    forall key ensures ClassRows(rows + [row], key, ingredients) == ClassRows(rows, key, ingredients) {
      ClassRowsExtend(rows, row, key, ingredients);
    }
  }

  lemma {:induction false} SeenAgain(seen: map<string, seq<Row>>, order: seq<string>, rows: seq<Row>, row: Row, ingredients: seq<string>)
    requires SeenRecorded(seen, order, rows, ingredients) && IsExtra(row.group) && ClassKey(row.option, ingredients) in seen
    ensures var key := ClassKey(row.option, ingredients);
            SeenRecorded(seen[key := seen[key] + [row]], order, rows + [row], ingredients)
  {
    ClassesExtend(rows, row, "", ingredients);
    hide ClassKey, IsExtra, ClassRows, ClassKeys;
    var mine := ClassKey(row.option, ingredients);
    var after := seen[mine := seen[mine] + [row]];
    forall key | key in after ensures after[key] == ClassRows(rows + [row], key, ingredients) {
      ClassRowsExtend(rows, row, key, ingredients);
    }
    forall key | key !in after ensures ClassRows(rows + [row], key, ingredients) == [] {
      ClassRowsExtend(rows, row, key, ingredients);
    }
  }

  lemma {:induction false} SeenFirst(seen: map<string, seq<Row>>, order: seq<string>, rows: seq<Row>, row: Row, ingredients: seq<string>)
    requires SeenRecorded(seen, order, rows, ingredients) && IsExtra(row.group) && ClassKey(row.option, ingredients) !in seen
    ensures var key := ClassKey(row.option, ingredients);
            SeenRecorded(seen[key := [row]], order + [key], rows + [row], ingredients)
  {
    ClassesExtend(rows, row, "", ingredients);
    hide ClassKey, IsExtra, ClassRows, ClassKeys;
    var mine := ClassKey(row.option, ingredients);
    var after := seen[mine := [row]];
    forall key | key in after ensures after[key] == ClassRows(rows + [row], key, ingredients) {
      ClassRowsExtend(rows, row, key, ingredients);
    }
    forall key | key !in after ensures ClassRows(rows + [row], key, ingredients) == [] {
      ClassRowsExtend(rows, row, key, ingredients);
    }
  }

  lemma {:induction false} SeenExtend(seen: map<string, seq<Row>>, order: seq<string>, rows: seq<Row>, row: Row, ingredients: seq<string>)
    requires SeenRecorded(seen, order, rows, ingredients)
    ensures var key := ClassKey(row.option, ingredients);
            if !IsExtra(row.group) then SeenRecorded(seen, order, rows + [row], ingredients)
            else if key in seen then SeenRecorded(seen[key := seen[key] + [row]], order, rows + [row], ingredients)
            else SeenRecorded(seen[key := [row]], order + [key], rows + [row], ingredients)
  {
    hide SeenRecorded, ClassKey, IsExtra;
    if !IsExtra(row.group) {
      SeenSame(seen, order, rows, row, ingredients);
    } else if ClassKey(row.option, ingredients) in seen {
      SeenAgain(seen, order, rows, row, ingredients);
    } else {
      SeenFirst(seen, order, rows, row, ingredients);
    }
  }
}
