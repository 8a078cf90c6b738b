/** Default selections, their validation, and the price of a selection
    (packages/customization/src/index.ts). */
module SelectionRules {
  import opened Strings
  import opened Sorting
  import opened MenuText
  import opened Catalog
  import opened CatalogTheorems
  import opened CatalogRerun

  // ----- defaults

  predicate IsDefault(g: Group, o: MenuOption) {
    o.isDefault || (IsSize(g.info) && g.info.selectionMode == "SINGLE" && |g.options| == 1)
  }

  function DefaultsOf(g: Group, options: seq<MenuOption>): seq<MenuOption> {
    if options == [] then []
    else (if IsDefault(g, options[0]) then [options[0]] else []) + DefaultsOf(g, options[1..])
  }

  /** `xs.slice(0, max)`; a negative limit counts from the end. */
  function Slice<T>(xs: seq<T>, max: Option<int>): seq<T> {
    if max.None? || max.value >= |xs| then xs
    else if max.value >= 0 then xs[..max.value]
    else if max.value + |xs| >= 0 then xs[..max.value + |xs|]
    else []
  }

  function Ids(options: seq<MenuOption>): (r: seq<string>)
    ensures |r| == |options| && forall i :: 0 <= i < |r| ==> r[i] == options[i].id
  {
    seq(|options|, i requires 0 <= i < |options| => options[i].id)
  }

  function DefaultIds(g: Group): seq<string> {
    Ids(Slice(DefaultsOf(g, g.options), MaximumSelections(g.info)))
  }

  /** `Object.fromEntries`: of groups with one id the last counts. */
  function DefaultSelections(groups: seq<Group>): Selections {
    if groups == [] then map[]
    else DefaultSelections(groups[..|groups| - 1])[groups[|groups| - 1].info.id := DefaultIds(groups[|groups| - 1])]
  }

  function InitialSelections(item: Product, lc: Collation): Selections {
    DefaultSelections(CatalogGroups(item, DefaultSelections(item.groups), lc))
  }

  // ----- validation

  datatype Verdict = Accepted | Stale | TooFew(group: string) | TooMany(group: string)

  function Label(g: GroupInfo): string {
    if g.displayLabel != "" then g.displayLabel else g.name
  }

  function SelectedIn(selections: Selections, id: string): seq<string> {
    if id in selections then selections[id] else []
  }

  predicate HasGroup(groups: seq<Group>, id: string) {
    exists i :: 0 <= i < |groups| && groups[i].info.id == id
  }

  predicate HasOption(g: Group, id: string) {
    exists i :: 0 <= i < |g.options| && g.options[i].id == id
  }

  predicate NoDuplicates(ids: seq<string>) {
    forall i, j :: 0 <= i < j < |ids| ==> ids[i] != ids[j]
  }

  function SetOf(ids: seq<string>): set<string> {
    set i | 0 <= i < |ids| :: ids[i]
  }

  /** The verdict of one group, given the ids the groups before it have taken. */
  function GroupVerdict(g: Group, selected: seq<string>, seen: set<string>): Verdict {
    var max := MaximumSelections(g.info);
    if !NoDuplicates(selected) || exists i :: 0 <= i < |selected| && (selected[i] in seen || !HasOption(g, selected[i])) then Stale
    else if |selected| < MinimumSelections(g.info) then TooFew(Label(g.info))
    else if max.Some? && |selected| > max.value then TooMany(Label(g.info))
    else Accepted
  }

  function SeenBefore(groups: seq<Group>, selections: Selections): set<string> {
    if groups == [] then {}
    else SeenBefore(groups[..|groups| - 1], selections) + SetOf(SelectedIn(selections, groups[|groups| - 1].info.id))
  }

  /** Everything the groups from `n` on must satisfy. */
  function VerdictFrom(groups: seq<Group>, selections: Selections, n: nat): Verdict
    requires n <= |groups|
    decreases |groups| - n
  {
    if n == |groups| then Accepted
    else
      var v := GroupVerdict(groups[n], SelectedIn(selections, groups[n].info.id), SeenBefore(groups[..n], selections));
      if v != Accepted then v else VerdictFrom(groups, selections, n + 1)
  }

  predicate NamesUnknownGroup(groups: seq<Group>, selections: Selections) {
    exists id :: id in selections && selections[id] != [] && !HasGroup(groups, id)
  }

  function Validate(groups: seq<Group>, selections: Selections): Verdict {
    if NamesUnknownGroup(groups, selections) then Stale else VerdictFrom(groups, selections, 0)
  }

  method ValidateSelections(groups: seq<Group>, selections: Selections) returns (v: Verdict)
    ensures v == Validate(groups, selections)
  {
    var todo := selections.Keys;
    while todo != {}
      invariant todo <= selections.Keys
      invariant forall id :: id in selections && id !in todo ==> selections[id] == [] || HasGroup(groups, id)
      decreases todo
    {
      var id :| id in todo;
      if |selections[id]| > 0 && !HasGroup(groups, id) {
        return Stale;
      }
      todo := todo - {id};
    }
    var seen: set<string> := {};
    var n := 0;
    while n < |groups|
      invariant n <= |groups| && seen == SeenBefore(groups[..n], selections)
      invariant Validate(groups, selections) == VerdictFrom(groups, selections, n)
    {
      hide GroupVerdict;
      var group := groups[n];
      var selected := SelectedIn(selections, group.info.id);
      var verdict := CheckGroup(group, selected, seen);
      assert groups[..n + 1][..n] == groups[..n];
      if verdict != Accepted {
        return verdict;
      }
      seen := seen + SetOf(selected);
      n := n + 1;
    }
    return Accepted;
  }

  /** The body of the loop over the groups. */
  method CheckGroup(group: Group, selected: seq<string>, seen: set<string>) returns (v: Verdict)
    ensures v == GroupVerdict(group, selected, seen)
  {
    SetSize(selected);
    if |SetOf(selected)| != |selected| || exists i :: 0 <= i < |selected| && (selected[i] in seen || !HasOption(group, selected[i])) {
      return Stale;
    }
    var max := MaximumSelections(group.info);
    if |selected| < MinimumSelections(group.info) {
      return TooFew(Label(group.info));
    }
    if max.Some? && |selected| > max.value {
      return TooMany(Label(group.info));
    }
    return Accepted;
  }

  /** `new Set(ids).size === ids.length` says that no id is listed twice. */
  lemma {:induction false} SetSize(ids: seq<string>)
    ensures |SetOf(ids)| <= |ids|
    ensures |SetOf(ids)| == |ids| <==> NoDuplicates(ids)
  {
    if ids != [] {
      var n := |ids| - 1;
      var rest := ids[..n];
      SetSize(rest);
      assert SetOf(ids) == SetOf(rest) + {ids[n]};
      if ids[n] in SetOf(rest) {
        var i :| 0 <= i < n && rest[i] == ids[n];
        assert SetOf(ids) == SetOf(rest);
        assert ids[i] == ids[n];
      } else {
        assert forall i :: 0 <= i < n ==> ids[i] in SetOf(rest);
        assert NoDuplicates(ids) ==> NoDuplicates(rest);
      }
    }
  }

  // ----- the price of a selection

  function GroupTotal(options: seq<MenuOption>, selected: seq<string>): int {
    if options == [] then 0
    else (if options[0].id in selected then options[0].priceDeltaCents else 0) + GroupTotal(options[1..], selected)
  }

  function ModifierTotal(groups: seq<Group>, selections: Selections): int {
    if groups == [] then 0
    else
      var last := groups[|groups| - 1];
      ModifierTotal(groups[..|groups| - 1], selections) + GroupTotal(last.options, SelectedIn(selections, last.info.id))
  }

  ghost predicate UniqueOptionIds(groups: seq<Group>) {
    var rows := Rows(groups);
    forall i, j :: 0 <= i < j < |rows| ==> rows[i].option.id != rows[j].option.id
  }

  /** All selected ids, group by group. */
  function ChargedIds(groups: seq<Group>, selections: Selections): seq<string> {
    if groups == [] then []
    else ChargedIds(groups[..|groups| - 1], selections) + SelectedIn(selections, groups[|groups| - 1].info.id)
  }

  /** The price of the first option with an id. */
  function PriceOf(rows: seq<Row>, id: string): int {
    var k := FirstWithId(rows, id);
    if k.Some? then rows[k.value].option.priceDeltaCents else 0
  }

  function PriceSum(rows: seq<Row>, ids: seq<string>): int {
    if ids == [] then 0 else PriceSum(rows, ids[..|ids| - 1]) + PriceOf(rows, ids[|ids| - 1])
  }

  lemma {:induction false} PriceSumConcat(rows: seq<Row>, a: seq<string>, b: seq<string>)
    ensures PriceSum(rows, a + b) == PriceSum(rows, a) + PriceSum(rows, b)
  {
    if b == [] {
      assert a + b == a;
    } else {
      assert (a + b)[..|a + b| - 1] == a + b[..|b| - 1];
      PriceSumConcat(rows, a, b[..|b| - 1]);
    }
  }

  predicate DistinctOptionIds(options: seq<MenuOption>) {
    forall i, j :: 0 <= i < j < |options| ==> options[i].id != options[j].id
  }

  lemma {:induction false} GroupTotalAbsent(options: seq<MenuOption>, selected: seq<string>, id: string)
    requires forall i :: 0 <= i < |options| ==> options[i].id != id
    ensures GroupTotal(options, selected + [id]) == GroupTotal(options, selected)
  {
    if options != [] {
      GroupTotalAbsent(options[1..], selected, id);
    }
  }

  /** Selecting one more option of a group adds its price once. */
  lemma {:induction false} GroupTotalAdds(options: seq<MenuOption>, selected: seq<string>, n: nat)
    requires DistinctOptionIds(options) && n < |options| && options[n].id !in selected
    ensures GroupTotal(options, selected + [options[n].id]) == GroupTotal(options, selected) + options[n].priceDeltaCents
  {
    if n == 0 {
      GroupTotalAbsent(options[1..], selected, options[0].id);
    } else {
      GroupTotalAdds(options[1..], selected, n - 1);
    }
  }

  lemma {:induction false} GroupTotalNone(options: seq<MenuOption>)
    ensures GroupTotal(options, []) == 0
  {
    if options != [] { GroupTotalNone(options[1..]); }
  }

  lemma {:induction false} GroupTotalIsSum(g: Group, rows: seq<Row>, selected: seq<string>)
    requires DistinctOptionIds(g.options) && NoDuplicates(selected)
    requires forall i :: 0 <= i < |selected| ==> HasOption(g, selected[i])
    requires forall i :: 0 <= i < |g.options| ==> PriceOf(rows, g.options[i].id) == g.options[i].priceDeltaCents
    ensures GroupTotal(g.options, selected) == PriceSum(rows, selected)
  {
    if selected == [] {
      GroupTotalNone(g.options);
    } else {
      var m := |selected| - 1;
      GroupTotalIsSum(g, rows, selected[..m]);
      assert HasOption(g, selected[m]);
      var n :| 0 <= n < |g.options| && g.options[n].id == selected[m];
      GroupTotalAdds(g.options, selected[..m], n);
      assert selected == selected[..m] + [selected[m]];
    }
  }

  lemma {:induction false} AcceptedFrom(groups: seq<Group>, selections: Selections, n: nat, k: nat)
    requires n <= k < |groups| && VerdictFrom(groups, selections, n) == Accepted
    ensures GroupVerdict(groups[k], SelectedIn(selections, groups[k].info.id), SeenBefore(groups[..k], selections)) == Accepted
    decreases |groups| - n
  {
    hide GroupVerdict, SeenBefore;
    if n < k {
      AcceptedFrom(groups, selections, n + 1, k);
    }
  }

  lemma {:induction false} SeenIsCharged(groups: seq<Group>, selections: Selections)
    ensures forall id :: id in SeenBefore(groups, selections) <==> id in ChargedIds(groups, selections)
  {
    if groups != [] {
      SeenIsCharged(groups[..|groups| - 1], selections);
    }
  }

  lemma {:induction false} NoDuplicatesConcat(a: seq<string>, b: seq<string>)
    requires NoDuplicates(a) && NoDuplicates(b) && forall x :: x in a ==> x !in b
    ensures NoDuplicates(a + b)
  {
    forall i, j | 0 <= i < j < |a + b| ensures (a + b)[i] != (a + b)[j] {
      assert j >= |a| && i < |a| ==> a[i] in a && b[j - |a|] in b;
    }
  }

  /** A group's rows stand together among all rows. */
  lemma {:induction false} RowPosition(groups: seq<Group>, i: nat, n: nat) returns (k: nat)
    requires i < |groups| && n < |groups[i].options|
    ensures k < |Rows(groups)| && Rows(groups)[k] == Row(groups[i].info, groups[i].options[n])
    ensures k == |Rows(groups[..i])| + n
  {
    var m := |groups| - 1;
    if i == m {
      k := |Rows(groups[..m])| + n;
    } else {
      k := RowPosition(groups[..m], i, n);
      assert groups[..m][..i] == groups[..i];
    }
  }

  lemma {:induction false} UniqueInGroup(groups: seq<Group>, i: nat)
    requires UniqueOptionIds(groups) && i < |groups|
    ensures DistinctOptionIds(groups[i].options)
    ensures forall n :: 0 <= n < |groups[i].options| ==>
              PriceOf(Rows(groups), groups[i].options[n].id) == groups[i].options[n].priceDeltaCents
  {
    hide Rows;
    var rows, options := Rows(groups), groups[i].options;
    forall a, b | 0 <= a < b < |options| ensures options[a].id != options[b].id {
      var k := RowPosition(groups, i, a);
      var l := RowPosition(groups, i, b);
    }
    forall n | 0 <= n < |options| ensures PriceOf(rows, options[n].id) == options[n].priceDeltaCents {
      var k := RowPosition(groups, i, n);
      assert FirstWithId(rows, options[n].id).Some?;
      SameIdSameRow(rows, FirstWithId(rows, options[n].id).value, k);
    }
  }

  /** What an accepted group adds to the total. */
  lemma {:induction false} AcceptedGroup(groups: seq<Group>, selections: Selections, k: nat)
    requires UniqueOptionIds(groups) && k < |groups| && VerdictFrom(groups, selections, 0) == Accepted
    ensures var selected := SelectedIn(selections, groups[k].info.id);
            && NoDuplicates(selected)
            && (forall x :: x in selected ==> x !in ChargedIds(groups[..k], selections))
            && GroupTotal(groups[k].options, selected) == PriceSum(Rows(groups), selected)
  {
    hide Rows, VerdictFrom, GroupTotal, PriceSum, PriceOf, UniqueOptionIds;
    var selected := SelectedIn(selections, groups[k].info.id);
    AcceptedFrom(groups, selections, 0, k);
    SeenIsCharged(groups[..k], selections);
    UniqueInGroup(groups, k);
    GroupTotalIsSum(groups[k], Rows(groups), selected);
  }

  lemma {:induction false} TotalOfPrefix(groups: seq<Group>, selections: Selections, n: nat)
    requires UniqueOptionIds(groups) && n <= |groups| && VerdictFrom(groups, selections, 0) == Accepted
    ensures ModifierTotal(groups[..n], selections) == PriceSum(Rows(groups), ChargedIds(groups[..n], selections))
    ensures NoDuplicates(ChargedIds(groups[..n], selections))
  {
    hide Rows, VerdictFrom, GroupTotal, UniqueOptionIds;
    if n > 0 {
      TotalOfPrefix(groups, selections, n - 1);
      AcceptedGroup(groups, selections, n - 1);
      assert groups[..n][..n - 1] == groups[..n - 1];
      var before, selected := ChargedIds(groups[..n - 1], selections), SelectedIn(selections, groups[n - 1].info.id);
      NoDuplicatesConcat(before, selected);
      PriceSumConcat(Rows(groups), before, selected);
    }
  }

  lemma {:induction false} ChargedMember(groups: seq<Group>, selections: Selections, i: nat, id: string)
    requires i < |groups| && id in SelectedIn(selections, groups[i].info.id)
    ensures id in ChargedIds(groups, selections)
  {
    if i < |groups| - 1 {
      ChargedMember(groups[..|groups| - 1], selections, i, id);
    }
  }

  lemma {:induction false} CatalogUnique(item: Product, selections: Selections, lc: Collation)
    ensures UniqueOptionIds(CatalogGroups(item, selections, lc))
  {
    hide CatalogGroups, Rows;
    CatalogClashFree(item, selections, lc);
  }

  /** If the selections are accepted for a catalogue, the total is the sum of the prices of
      the selected ids, each charged once, and no selected id goes uncharged. */
  lemma {:induction false} TotalChargesOnce(item: Product, context: Selections, selections: Selections, lc: Collation)
    requires Validate(CatalogGroups(item, context, lc), selections) == Accepted
    ensures var groups := CatalogGroups(item, context, lc);
            var charged := ChargedIds(groups, selections);
            && ModifierTotal(groups, selections) == PriceSum(Rows(groups), charged)
            && NoDuplicates(charged)
            && (forall group, id :: group in selections && id in selections[group] ==> id in charged)
  {
    hide CatalogGroups, Rows, PriceSum, VerdictFrom;
    var groups := CatalogGroups(item, context, lc);
    CatalogUnique(item, context, lc);
    TotalOfPrefix(groups, selections, |groups|);
    assert groups[..|groups|] == groups;
    forall group, id | group in selections && id in selections[group] ensures id in ChargedIds(groups, selections) {
      assert HasGroup(groups, group);
      var i :| 0 <= i < |groups| && groups[i].info.id == group;
      ChargedMember(groups, selections, i, id);
    }
  }

  /** The order inside the selection lists does not matter for the total. */
  lemma {:induction false} TotalIgnoresOrder(groups: seq<Group>, a: Selections, b: Selections)
    requires a.Keys == b.Keys && forall id :: id in a ==> multiset(a[id]) == multiset(b[id])
    ensures ModifierTotal(groups, a) == ModifierTotal(groups, b)
  {
    if groups != [] {
      var last := groups[|groups| - 1];
      TotalIgnoresOrder(groups[..|groups| - 1], a, b);
      if last.info.id in a {
        SameMembers(a[last.info.id], b[last.info.id]);
      }
      GroupTotalSame(last.options, SelectedIn(a, last.info.id), SelectedIn(b, last.info.id));
    }
  }

  lemma {:induction false} GroupTotalSame(options: seq<MenuOption>, a: seq<string>, b: seq<string>)
    requires forall x :: x in a <==> x in b
    ensures GroupTotal(options, a) == GroupTotal(options, b)
  {
    if options != [] {
      GroupTotalSame(options[1..], a, b);
    }
  }

  // ----- the initial selections

  predicate DistinctGroupIds(groups: seq<Group>) {
    forall i, j :: 0 <= i < j < |groups| ==> groups[i].info.id != groups[j].info.id
  }

  predicate NonNegativeLimits(groups: seq<Group>) {
    forall i :: 0 <= i < |groups| ==> groups[i].info.maxSelect.None? || groups[i].info.maxSelect.value >= 0
  }

  /** The size groups do not preselect more than they allow. */
  predicate DefaultsFit(groups: seq<Group>) {
    forall i :: 0 <= i < |groups| && IsSize(groups[i].info) ==>
      var max := MaximumSelections(groups[i].info);
      max.None? || |DefaultsOf(groups[i], groups[i].options)| <= max.value
  }

  lemma {:induction false} DefaultAt(groups: seq<Group>, i: nat)
    requires DistinctGroupIds(groups) && i < |groups|
    ensures SelectedIn(DefaultSelections(groups), groups[i].info.id) == DefaultIds(groups[i])
    ensures groups[i].info.id in DefaultSelections(groups)
  {
    hide DefaultIds;
    if i < |groups| - 1 {
      DefaultAt(groups[..|groups| - 1], i);
    }
  }

  lemma {:induction false} DefaultKeys(groups: seq<Group>, id: string)
    ensures id in DefaultSelections(groups) <==> HasGroup(groups, id)
  {
    hide DefaultIds;
    if groups != [] {
      DefaultKeys(groups[..|groups| - 1], id);
      var before := groups[..|groups| - 1];
      if i :| 0 <= i < |groups| && groups[i].info.id == id {
        assert i < |before| ==> before[i].info.id == id;
      }
      if i :| 0 <= i < |before| && before[i].info.id == id {
        assert groups[i].info.id == id;
      }
    }
  }

  lemma {:induction false} DefaultCount(g: Group, options: seq<MenuOption>, o: MenuOption)
    ensures multiset(DefaultsOf(g, options))[o] == if IsDefault(g, o) then multiset(options)[o] else 0
  {
    hide IsDefault;
    if options != [] {
      TailElements(options);
      DefaultCount(g, options[1..], o);
    }
  }

  /** Which options are preselected does not depend on their order. */
  lemma {:induction false} DefaultsPermuted(g: Group, h: Group)
    requires g.info == h.info && multiset(g.options) == multiset(h.options)
    ensures multiset(DefaultsOf(g, g.options)) == multiset(DefaultsOf(h, h.options))
    ensures |DefaultsOf(g, g.options)| == |DefaultsOf(h, h.options)|
  {
    SameMembers(g.options, h.options);
    forall o: MenuOption ensures multiset(DefaultsOf(g, g.options))[o] == multiset(DefaultsOf(h, h.options))[o] {
      DefaultCount(g, g.options, o);
      DefaultCount(h, h.options, o);
    }
    SameMembers(DefaultsOf(g, g.options), DefaultsOf(h, h.options));
  }

  lemma {:induction false} SizeEligibleAll(item: Product, selections: Selections, g: GroupInfo, options: seq<MenuOption>)
    requires IsSize(g)
    ensures EligibleOptions(item, selections, g, options) == options
  {
    if options != [] {
      SizeEligibleAll(item, selections, g, options[1..]);
    }
  }

  /** Without an id conflict a size group is offered whole, in menu order. */
  lemma {:induction false} SizeGroupSorted(item: Product, selections: Selections, lc: Collation, i: nat)
    requires NoIdConflict(CatalogIssues(item, selections, lc)) && i < |item.groups|
    ensures |CatalogGroups(item, selections, lc)| == |MenuOrder(item, lc)| == |item.groups|
    ensures CatalogGroups(item, selections, lc)[i].info == MenuOrder(item, lc)[i].info
    ensures IsSize(MenuOrder(item, lc)[i].info) ==>
              CatalogGroups(item, selections, lc)[i].options == SortBy(MenuOrder(item, lc)[i].options, OptionOrder(lc))
  {
    hide CatalogGroups, CatalogIssues, Excluded, Eligible, IsSize, SortBy;
    CatalogGroupAt(item, selections, lc, i);
    var eligible, g := EligibleGroups(item, selections, lc), MenuOrder(item, lc)[i];
    if IsSize(g.info) {
      SizeEligibleAll(item, selections, g.info, g.options);
      SameMembers(g.options, eligible[i].options);
      var excluded := Excluded(Rows(eligible), item.ingredients);
      forall o | o in eligible[i].options ensures o !in excluded {
        SizesOfferedWhole(item, selections, lc, i, o);
        SurvivingMember(eligible[i].options, excluded, o);
      }
      NothingExcluded(eligible[i].options, excluded);
    }
  }

  lemma {:induction false} IdsMember(options: seq<MenuOption>, id: string)
    ensures id in Ids(options) <==> exists o :: o in options && o.id == id
  {
    if id in Ids(options) {
      var i :| 0 <= i < |options| && Ids(options)[i] == id;
      assert options[i] in options;
    }
    if o :| o in options && o.id == id {
      var i :| 0 <= i < |options| && options[i] == o;
      assert Ids(options)[i] == id;
    }
  }

  lemma {:induction false} MenuOrderDistinct(item: Product, selections: Selections, lc: Collation)
    requires DistinctGroupIds(item.groups)
    ensures DistinctGroupIds(CatalogGroups(item, selections, lc))
  {
    hide CatalogGroups;
    CatalogKeepsGroups(item, selections, lc);
    var a, b := Infos(item.groups), Infos(CatalogGroups(item, selections, lc));
    SameMembers(a, b);
    IdsStayDistinct(a, b);
  }

  lemma {:induction false} CountedOnce<T>(xs: seq<T>, x: T)
    requires forall i, j :: 0 <= i < j < |xs| ==> xs[i] != xs[j]
    ensures multiset(xs)[x] <= 1
  {
    if xs != [] {
      TailElements(xs);
      CountedOnce(xs[1..], x);
      assert xs[0] !in xs[1..];
    }
  }

  lemma {:induction false} CountedTwice<T>(xs: seq<T>, i: nat, j: nat)
    requires i < j < |xs| && xs[i] == xs[j]
    ensures multiset(xs)[xs[i]] >= 2
  {
    assert xs == xs[..j] + xs[j..];
    assert xs[i] in xs[..j] && xs[j] in xs[j..];
    assert xs[i] in multiset(xs[..j]) && xs[j] in multiset(xs[j..]);
  }

  lemma {:induction false} IdsStayDistinct(a: seq<GroupInfo>, b: seq<GroupInfo>)
    requires multiset(a) == multiset(b) && forall i, j :: 0 <= i < j < |a| ==> a[i].id != a[j].id
    ensures forall i, j :: 0 <= i < j < |b| ==> b[i].id != b[j].id
  {
    SameMembers(a, b);
    forall i, j | 0 <= i < j < |b| ensures b[i].id != b[j].id {
      CountedOnce(a, b[i]);
      assert b[i] != b[j] by {
        if b[i] == b[j] { CountedTwice(b, i, j); }
      }
      assert b[i] in b && b[j] in b;
      var k :| 0 <= k < |a| && a[k] == b[i];
      var l :| 0 <= l < |a| && a[l] == b[j];
      assert if k < l then a[k].id != a[l].id else a[l].id != a[k].id;
    }
  }

  // ----- which sizes the defaults choose

  /** The sizes that the first options preselected among `options`, up to the limit, name. */
  function DefaultSizes(g: Group, options: seq<MenuOption>): set<string> {
    set o | o in Slice(DefaultsOf(g, options), MaximumSelections(g.info)) :: Normalize(o.name)
  }

  /** What the size groups preselect with their options as the editor lists them. */
  function EditorSizes(item: Product): set<string> {
    set i, size | 0 <= i < |item.groups| && IsSize(item.groups[i].info)
                  && size in DefaultSizes(item.groups[i], item.groups[i].options) :: size
  }

  /** What they preselect with their options as the menu lists them. */
  function MenuSizes(item: Product, lc: Collation): set<string> {
    set i, size | 0 <= i < |item.groups| && IsSize(item.groups[i].info)
                  && size in DefaultSizes(item.groups[i], SortBy(item.groups[i].options, OptionOrder(lc))) :: size
  }

  lemma {:induction false} DefaultsOfSame(g: Group, h: Group, options: seq<MenuOption>)
    requires g.info == h.info && |g.options| == |h.options|
    ensures DefaultsOf(g, options) == DefaultsOf(h, options)
  {
    if options != [] {
      DefaultsOfSame(g, h, options[1..]);
    }
  }

  lemma {:induction false} SliceMembers<T>(xs: seq<T>, max: Option<int>)
    ensures forall x :: x in Slice(xs, max) ==> x in xs
  {
  }

  /** In a group whose ids are distinct, choosing default ids is choosing the default options. */
  lemma {:induction false} GroupChosen(g: Group, options: seq<MenuOption>, selections: Selections, size: string)
    requires multiset(options) == multiset(g.options)
    requires DistinctOptionIds(g.options) || DistinctOptionIds(options)
    requires g.info.id in selections
    requires selections[g.info.id] == Ids(Slice(DefaultsOf(g, options), MaximumSelections(g.info)))
    ensures (exists o :: o in g.options && Selected(selections, g.info.id, o.id) && Normalize(o.name) == size)
            <==> size in DefaultSizes(g, options)
  {
    hide Normalize, DefaultsOf, Slice;
    var ds := Slice(DefaultsOf(g, options), MaximumSelections(g.info));
    SliceMembers(DefaultsOf(g, options), MaximumSelections(g.info));
    DefaultsOfMember(g, options);
    SameMembers(options, g.options);
    forall o | o in g.options ensures Selected(selections, g.info.id, o.id) <==> o in ds {
      IdsMember(ds, o.id);
      forall p | p in ds && p.id == o.id ensures p == o {
        assert p in g.options;
        OneOptionPerId(if DistinctOptionIds(g.options) then g.options else options, o, p);
      }
    }
  }

  lemma {:induction false} OneOptionPerId(options: seq<MenuOption>, o: MenuOption, p: MenuOption)
    requires DistinctOptionIds(options) && o in options && p in options && o.id == p.id
    ensures o == p
  {
    var i :| 0 <= i < |options| && options[i] == o;
    var j :| 0 <= j < |options| && options[j] == p;
  }

  /** The catalogue's group for a size group of the product. */
  lemma {:induction false} SizeGroupOffered(item: Product, lc: Collation, i: nat) returns (j: nat)
    requires DistinctGroupIds(item.groups) && i < |item.groups| && IsSize(item.groups[i].info)
    requires NoIdConflict(CatalogIssues(item, DefaultSelections(item.groups), lc))
    ensures var groups, g := CatalogGroups(item, DefaultSelections(item.groups), lc), item.groups[i];
            && j < |groups| && DistinctGroupIds(groups) && DistinctOptionIds(groups[j].options)
            && groups[j] == Group(g.info, SortBy(g.options, OptionOrder(lc)))
  {
    hide CatalogGroups, CatalogIssues, IsSize, DefaultSelections, SortBy, UniqueOptionIds;
    var first := DefaultSelections(item.groups);
    var groups, menu, g := CatalogGroups(item, first, lc), MenuOrder(item, lc), item.groups[i];
    SameMembers(item.groups, menu);
    assert g in item.groups;
    j :| 0 <= j < |menu| && menu[j] == g;
    SizeGroupSorted(item, first, lc, j);
    MenuOrderDistinct(item, first, lc);
    CatalogUnique(item, first, lc);
    UniqueInGroup(groups, j);
  }

  /** The first and the second default selections of one size group. */
  lemma {:induction false} SizeGroupChosen(item: Product, lc: Collation, i: nat, size: string)
    requires DistinctGroupIds(item.groups) && i < |item.groups| && IsSize(item.groups[i].info)
    requires NoIdConflict(CatalogIssues(item, DefaultSelections(item.groups), lc))
    ensures var first, second, g := DefaultSelections(item.groups), InitialSelections(item, lc), item.groups[i];
            && ((exists o :: o in g.options && Selected(first, g.info.id, o.id) && Normalize(o.name) == size)
                <==> size in DefaultSizes(g, g.options))
            && ((exists o :: o in g.options && Selected(second, g.info.id, o.id) && Normalize(o.name) == size)
                <==> size in DefaultSizes(g, SortBy(g.options, OptionOrder(lc))))
  {
    hide CatalogGroups, CatalogIssues, IsSize, DefaultSelections, DefaultsOf, Slice, DefaultSizes, Selected, SortBy, Normalize,
      MaximumSelections;
    var first, second, g := DefaultSelections(item.groups), InitialSelections(item, lc), item.groups[i];
    var groups := CatalogGroups(item, first, lc);
    var j := SizeGroupOffered(item, lc, i);
    var sorted := SortBy(g.options, OptionOrder(lc));
    SameMembers(g.options, sorted);
    DefaultAt(item.groups, i);
    DefaultAt(groups, j);
    DefaultsOfSame(groups[j], g, sorted);
    DistinctPermuted(sorted, g.options);
    GroupChosen(g, g.options, first, size);
    GroupChosen(g, sorted, second, size);
  }

  lemma {:induction false} DistinctPermuted(a: seq<MenuOption>, b: seq<MenuOption>)
    requires multiset(a) == multiset(b) && DistinctOptionIds(a)
    ensures DistinctOptionIds(b)
  {
    SameMembers(a, b);
    forall i, j | 0 <= i < j < |b| ensures b[i].id != b[j].id {
      CountedOnce(a, b[i]);
      assert b[i] != b[j] by {
        if b[i] == b[j] { CountedTwice(b, i, j); }
      }
      assert b[i] in b && b[j] in b;
      if b[i].id == b[j].id { OneOptionPerId(a, b[i], b[j]); }
    }
  }

  /** Which sizes the first and the second default selections choose. */
  lemma {:induction false} ChosenSizes(item: Product, lc: Collation, size: string)
    requires DistinctGroupIds(item.groups)
    requires NoIdConflict(CatalogIssues(item, DefaultSelections(item.groups), lc))
    ensures size in SelectedSizes(item.groups, DefaultSelections(item.groups)) <==> size in EditorSizes(item)
    ensures size in SelectedSizes(item.groups, InitialSelections(item, lc)) <==> size in MenuSizes(item, lc)
  {
    hide CatalogGroups, CatalogIssues, IsSize, Normalize, DefaultSelections, SelectedSizes, DefaultSizes, Selected, SortBy, InitialSelections;
    var first, second := DefaultSelections(item.groups), InitialSelections(item, lc);
    SelectedSizesMember(item.groups, first, size);
    SelectedSizesMember(item.groups, second, size);
    forall i | 0 <= i < |item.groups| && IsSize(item.groups[i].info)
      ensures var g := item.groups[i];
              && ((exists o :: o in g.options && Selected(first, g.info.id, o.id) && Normalize(o.name) == size)
                  <==> size in DefaultSizes(g, g.options))
              && ((exists o :: o in g.options && Selected(second, g.info.id, o.id) && Normalize(o.name) == size)
                  <==> size in DefaultSizes(g, SortBy(g.options, OptionOrder(lc))))
    {
      SizeGroupChosen(item, lc, i, size);
    }
    ChosenByGroup(item.groups, first, size);
    ChosenByGroup(item.groups, second, size);
  }

  lemma {:induction false} ChosenByGroup(groups: seq<Group>, selections: Selections, size: string)
    ensures SizeChosen(groups, selections, size)
       <==> exists i :: 0 <= i < |groups| && IsSize(groups[i].info)
                        && exists o :: o in groups[i].options && Selected(selections, groups[i].info.id, o.id) && Normalize(o.name) == size
  {
    hide Normalize, Selected, IsSize;
  }

  /** The two selections choose the same sizes exactly when the limited defaults of the size groups name
      the same sizes in the editor's and in the menu's order. */
  lemma {:induction false} ChosenSizesExact(item: Product, lc: Collation)
    requires DistinctGroupIds(item.groups)
    requires NoIdConflict(CatalogIssues(item, DefaultSelections(item.groups), lc))
    ensures (forall size :: size in SelectedSizes(item.groups, DefaultSelections(item.groups))
                       <==> size in SelectedSizes(item.groups, InitialSelections(item, lc)))
       <==> EditorSizes(item) == MenuSizes(item, lc)
  {
    hide CatalogIssues, DefaultSelections, InitialSelections, SelectedSizes, EditorSizes, MenuSizes;
    forall size
      ensures size in SelectedSizes(item.groups, DefaultSelections(item.groups)) <==> size in EditorSizes(item)
      ensures size in SelectedSizes(item.groups, InitialSelections(item, lc)) <==> size in MenuSizes(item, lc)
    {
      ChosenSizes(item, lc, size);
    }
  }

  // ----- the catalogue under the initial selections

  /** A scoped name may be offered for these sizes. */
  predicate Allowed(name: string, sizeNames: seq<string>, sizes: set<string>) {
    var size := InferOptionSizeScope(name, sizeNames);
    size.None? || size.value == "" || size.value in sizes
  }

  /** Every authorised add-on is meant for a size of the editor's defaults exactly when it is meant
      for one of the menu's. */
  ghost predicate ScopesAgree(item: Product, lc: Collation) {
    forall i, o :: 0 <= i < |item.groups| && o in item.groups[i].options && IsAddon(item.groups[i].info)
                   && Authorized(item, item.groups[i].info, o) ==>
      (Allowed(o.name, SizeNames(item.groups), EditorSizes(item)) <==> Allowed(o.name, SizeNames(item.groups), MenuSizes(item, lc)))
  }

  ghost predicate SameEligible(item: Product, a: Selections, b: Selections) {
    forall i, o :: 0 <= i < |item.groups| && o in item.groups[i].options ==>
      (Eligible(item, a, item.groups[i].info, o) <==> Eligible(item, b, item.groups[i].info, o))
  }

  lemma {:induction false} SameEligibleOptions(item: Product, a: Selections, b: Selections, g: GroupInfo, options: seq<MenuOption>)
    requires forall o :: o in options ==> (Eligible(item, a, g, o) <==> Eligible(item, b, g, o))
    ensures EligibleOptions(item, a, g, options) == EligibleOptions(item, b, g, options)
  {
    hide Eligible;
    if options != [] {
      assert options[0] in options;
      SameEligibleOptions(item, a, b, g, options[1..]);
    }
  }

  /** Two selections lead to the same groups, before conflicts are resolved, exactly when they admit the
      same options. */
  lemma {:induction false} EligibleGroupsExact(item: Product, a: Selections, b: Selections, lc: Collation)
    ensures EligibleGroups(item, a, lc) == EligibleGroups(item, b, lc) <==> SameEligible(item, a, b)
  {
    hide Eligible, EligibleOptions, SortBy;
    var menu := MenuOrder(item, lc);
    SameMembers(item.groups, menu);
    if SameEligible(item, a, b) {
      forall j | 0 <= j < |menu| ensures EligibleGroup(item, a, menu[j], lc) == EligibleGroup(item, b, menu[j], lc) {
        assert menu[j] in item.groups;
        var i :| 0 <= i < |item.groups| && item.groups[i] == menu[j];
        SameEligibleOptions(item, a, b, menu[j].info, menu[j].options);
      }
      assert EligibleGroups(item, a, lc) == EligibleGroups(item, b, lc);
    }
    if EligibleGroups(item, a, lc) == EligibleGroups(item, b, lc) {
      forall i, o | 0 <= i < |item.groups| && o in item.groups[i].options
        ensures Eligible(item, a, item.groups[i].info, o) <==> Eligible(item, b, item.groups[i].info, o)
      {
        var g := item.groups[i];
        assert g in menu;
        var j :| 0 <= j < |menu| && menu[j] == g;
        assert EligibleGroups(item, a, lc)[j] == EligibleGroups(item, b, lc)[j];
        SameMembers(EligibleOptions(item, a, g.info, g.options), EligibleGroup(item, a, g, lc).options);
        SameMembers(EligibleOptions(item, b, g.info, g.options), EligibleGroup(item, b, g, lc).options);
        EligibleMember(item, a, g.info, g.options, o);
        EligibleMember(item, b, g.info, g.options, o);
      }
    }
  }

  /** The catalogue depends on the selections through the selected sizes only. */
  lemma {:induction false} CatalogThroughSizes(item: Product, a: Selections, b: Selections, lc: Collation)
    requires forall size :: size in SelectedSizes(item.groups, a) <==> size in SelectedSizes(item.groups, b)
    ensures CatalogGroups(item, a, lc) == CatalogGroups(item, b, lc)
  {
    hide Authorized, SelectedSizes, EligibleGroups, Excluded;
    EligibleGroupsExact(item, a, b, lc);
  }

  /** The option is considered and not excluded. */
  predicate Left(item: Product, selections: Selections, lc: Collation, g: GroupInfo, o: MenuOption) {
    Eligible(item, selections, g, o) && o !in Excluded(Rows(EligibleGroups(item, selections, lc)), item.ingredients)
  }

  /** The two passes leave the same options of each group. */
  ghost predicate SameLeft(item: Product, a: Selections, b: Selections, lc: Collation) {
    forall i, o :: 0 <= i < |item.groups| && o in item.groups[i].options ==>
      (Left(item, a, lc, item.groups[i].info, o) <==> Left(item, b, lc, item.groups[i].info, o))
  }

  lemma {:induction false} SurvivingCons(o: MenuOption, options: seq<MenuOption>, excluded: set<MenuOption>)
    ensures Surviving([o] + options, excluded) == (if o !in excluded then [o] else []) + Surviving(options, excluded)
  {
    assert ([o] + options)[1..] == options;
  }

  lemma {:induction false} InsertSurvives(x: MenuOption, ys: seq<MenuOption>, excluded: set<MenuOption>, le: (MenuOption, MenuOption) -> bool)
    requires TotalPreorder(le) && Sorted(ys, le)
    ensures Surviving(Insert(x, ys, le), excluded)
         == if x in excluded then Surviving(ys, excluded) else Insert(x, Surviving(ys, excluded), le)
  {
    hide TotalPreorder, Sorted;
    if ys == [] || le(x, ys[0]) {
      SurvivingCons(x, ys, excluded);
      StaysInFront(x, ys, excluded, le);
    } else {
      SortedTail(ys, le);
      InsertSurvives(x, ys[1..], excluded, le);
      InsertedBehind(x, ys, excluded, le);
    }
  }

  lemma {:induction false} InsertedBehind(x: MenuOption, ys: seq<MenuOption>, excluded: set<MenuOption>, le: (MenuOption, MenuOption) -> bool)
    requires ys != [] && !le(x, ys[0])
    requires Surviving(Insert(x, ys[1..], le), excluded)
          == if x in excluded then Surviving(ys[1..], excluded) else Insert(x, Surviving(ys[1..], excluded), le)
    ensures Surviving(Insert(x, ys, le), excluded)
         == if x in excluded then Surviving(ys, excluded) else Insert(x, Surviving(ys, excluded), le)
  {
    var rest, tail := Surviving(ys[1..], excluded), Insert(x, ys[1..], le);
    assert Insert(x, ys, le) == [ys[0]] + tail;
    SurvivingCons(ys[0], tail, excluded);
    assert ([ys[0]] + rest)[1..] == rest && [] + rest == rest;
    hide Surviving;
  }

  lemma {:induction false} StaysInFront(x: MenuOption, ys: seq<MenuOption>, excluded: set<MenuOption>, le: (MenuOption, MenuOption) -> bool)
    requires TotalPreorder(le) && Sorted(ys, le) && (ys == [] || le(x, ys[0]))
    ensures Insert(x, Surviving(ys, excluded), le) == [x] + Surviving(ys, excluded)
  {
    var rest := Surviving(ys, excluded);
    if rest != [] {
      assert rest[0] in rest;
      SurvivingMember(ys, excluded, rest[0]);
      HeadNotAfter(ys, rest[0], le);
    }
  }

  /** Leaving options out and sorting come to the same in either order. */
  lemma {:induction false} SortSurvives(options: seq<MenuOption>, excluded: set<MenuOption>, le: (MenuOption, MenuOption) -> bool)
    requires TotalPreorder(le)
    ensures Surviving(SortBy(options, le), excluded) == SortBy(Surviving(options, excluded), le)
  {
    if options != [] {
      hide TotalPreorder, Sorted, Insert;
      SortSurvives(options[1..], excluded, le);
      SortBySorted(options[1..], le);
      InsertSurvives(options[0], SortBy(options[1..], le), excluded, le);
      if options[0] !in excluded {
        var rest := Surviving(options[1..], excluded);
        assert Surviving(options, excluded) == [options[0]] + rest;
        assert ([options[0]] + rest)[1..] == rest;
      } else {
        assert Surviving(options, excluded) == Surviving(options[1..], excluded);
      }
    }
  }

  function ExcludedFrom(item: Product, selections: Selections, lc: Collation): set<MenuOption> {
    Excluded(Rows(EligibleGroups(item, selections, lc)), item.ingredients)
  }

  lemma {:induction false} LeftCons(item: Product, selections: Selections, lc: Collation, g: GroupInfo, options: seq<MenuOption>)
    requires options != []
    ensures Surviving(EligibleOptions(item, selections, g, options), ExcludedFrom(item, selections, lc))
         == (if Left(item, selections, lc, g, options[0]) then [options[0]] else [])
            + Surviving(EligibleOptions(item, selections, g, options[1..]), ExcludedFrom(item, selections, lc))
  {
    hide Eligible, Excluded, EligibleGroups, Surviving;
    var rest := EligibleOptions(item, selections, g, options[1..]);
    SurvivingCons(options[0], rest, ExcludedFrom(item, selections, lc));
    assert [] + rest == rest;
  }

  /** What a pass leaves of one group, before the menu order. */
  lemma {:induction false} SameLeftOptions(item: Product, a: Selections, b: Selections, lc: Collation, g: GroupInfo, options: seq<MenuOption>)
    requires forall o :: o in options ==> (Left(item, a, lc, g, o) <==> Left(item, b, lc, g, o))
    ensures Surviving(EligibleOptions(item, a, g, options), ExcludedFrom(item, a, lc))
         == Surviving(EligibleOptions(item, b, g, options), ExcludedFrom(item, b, lc))
  {
    if options != [] {
      hide Left, ExcludedFrom, EligibleOptions;
      assert options[0] in options;
      SameLeftOptions(item, a, b, lc, g, options[1..]);
      LeftCons(item, a, lc, g, options);
      LeftCons(item, b, lc, g, options);
    }
  }

  function LeftGroup(item: Product, selections: Selections, lc: Collation, g: Group): Group {
    Group(g.info, Surviving(EligibleGroup(item, selections, g, lc).options, ExcludedFrom(item, selections, lc)))
  }

  lemma {:induction false} LeftGroupAt(item: Product, selections: Selections, lc: Collation)
    ensures var groups, menu := CatalogGroups(item, selections, lc), MenuOrder(item, lc);
            |groups| == |menu| && forall j :: 0 <= j < |menu| ==> groups[j] == LeftGroup(item, selections, lc, menu[j])
  {
    hide Excluded, Rows, SortBy, Surviving;
  }

  lemma {:induction false} SameLeftGroup(item: Product, a: Selections, b: Selections, lc: Collation, g: Group)
    requires TotalPreorder(lc)
    requires forall o :: o in g.options ==> (Left(item, a, lc, g.info, o) <==> Left(item, b, lc, g.info, o))
    ensures LeftGroup(item, a, lc, g) == LeftGroup(item, b, lc, g)
  {
    OrdersTotal(lc);
    hide Left, ExcludedFrom, EligibleOptions, TotalPreorder, SortBy, OptionOrder;
    SameLeftOptions(item, a, b, lc, g.info, g.options);
    SortSurvives(EligibleOptions(item, a, g.info, g.options), ExcludedFrom(item, a, lc), OptionOrder(lc));
    SortSurvives(EligibleOptions(item, b, g.info, g.options), ExcludedFrom(item, b, lc), OptionOrder(lc));
  }

  lemma {:induction false} LeftMember(item: Product, selections: Selections, lc: Collation, g: Group, o: MenuOption)
    ensures o in LeftGroup(item, selections, lc, g).options <==> o in g.options && Left(item, selections, lc, g.info, o)
  {
    hide Eligible, Excluded, Rows, EligibleGroups;
    var eligible := EligibleOptions(item, selections, g.info, g.options);
    SurvivingMember(SortBy(eligible, OptionOrder(lc)), ExcludedFrom(item, selections, lc), o);
    SameMembers(eligible, SortBy(eligible, OptionOrder(lc)));
    EligibleMember(item, selections, g.info, g.options, o);
  }

  /** Two selections lead to the same catalogue exactly when they leave the same options. */
  lemma {:induction false} CatalogsExact(item: Product, a: Selections, b: Selections, lc: Collation)
    requires TotalPreorder(lc)
    ensures CatalogGroups(item, a, lc) == CatalogGroups(item, b, lc) <==> SameLeft(item, a, b, lc)
  {
    hide Left, LeftGroup, CatalogGroups, TotalPreorder, MenuOrder;
    var menu := MenuOrder(item, lc);
    MenuMembers(item, lc);
    LeftGroupAt(item, a, lc);
    LeftGroupAt(item, b, lc);
    if SameLeft(item, a, b, lc) {
      forall j | 0 <= j < |menu| ensures LeftGroup(item, a, lc, menu[j]) == LeftGroup(item, b, lc, menu[j]) {
        assert menu[j] in item.groups;
        var i :| 0 <= i < |item.groups| && item.groups[i] == menu[j];
        SameLeftGroup(item, a, b, lc, menu[j]);
      }
    }
    if CatalogGroups(item, a, lc) == CatalogGroups(item, b, lc) {
      forall i, o | 0 <= i < |item.groups| && o in item.groups[i].options
        ensures Left(item, a, lc, item.groups[i].info, o) <==> Left(item, b, lc, item.groups[i].info, o)
      {
        var g := item.groups[i];
        assert g in menu;
        var j :| 0 <= j < |menu| && menu[j] == g;
        LeftMember(item, a, lc, g, o);
        LeftMember(item, b, lc, g, o);
      }
    }
  }

  lemma {:induction false} MenuMembers(item: Product, lc: Collation)
    ensures forall g :: g in item.groups <==> g in MenuOrder(item, lc)
  {
    SameMembers(item.groups, MenuOrder(item, lc));
  }

  /** The first and the second pass consider the same options exactly when the scopes agree. */
  lemma {:induction false} ConsideredExact(item: Product, lc: Collation)
    requires DistinctGroupIds(item.groups)
    requires NoIdConflict(CatalogIssues(item, DefaultSelections(item.groups), lc))
    ensures EligibleGroups(item, DefaultSelections(item.groups), lc) == EligibleGroups(item, InitialSelections(item, lc), lc)
       <==> ScopesAgree(item, lc)
  {
    hide CatalogIssues, DefaultSelections, InitialSelections, SelectedSizes, EditorSizes, MenuSizes, InferOptionSizeScope, SizeNames,
      EligibleGroups, Authorized;
    var first, second := DefaultSelections(item.groups), InitialSelections(item, lc);
    EligibleGroupsExact(item, first, second, lc);
    forall name
      ensures InScope(name, SizeNames(item.groups), SelectedSizes(item.groups, first))
         <==> Allowed(name, SizeNames(item.groups), EditorSizes(item))
      ensures InScope(name, SizeNames(item.groups), SelectedSizes(item.groups, second))
         <==> Allowed(name, SizeNames(item.groups), MenuSizes(item, lc))
    {
      var scope := InferOptionSizeScope(name, SizeNames(item.groups));
      if scope.Some? { ChosenSizes(item, lc, scope.value); }
    }
    hide Allowed, InScope;
  }

  lemma {:induction false} NoIssuesNothingExcluded(rows: seq<Row>, ingredients: seq<string>)
    requires IdIssues(rows) == [] && ClassIssues(rows, ClassKeys(rows, ingredients), ingredients) == []
    ensures Excluded(rows, ingredients) == {}
  {
    hide Repeated, ClassRows, ClassKeys, IdIssues;
    forall k | 0 <= k < |rows| ensures !Repeated(rows, k) {
      NoIssueNoRepeat(rows, k);
    }
    var keys := ClassKeys(rows, ingredients);
    forall i | 0 <= i < |keys| ensures |ClassRows(rows, keys[i], ingredients)| < 2 {
      NoClassIssueSmall(rows, keys, i, ingredients);
    }
  }

  lemma {:induction false} NoClassIssueSmall(rows: seq<Row>, keys: seq<string>, i: nat, ingredients: seq<string>)
    requires ClassIssues(rows, keys, ingredients) == [] && i < |keys|
    ensures |ClassRows(rows, keys[i], ingredients)| < 2
  {
    hide ClassRows, PricesDiffer;
    if i < |keys| - 1 {
      NoClassIssueSmall(rows, keys[..|keys| - 1], i, ingredients);
    }
  }

  /** Without issues nothing is excluded. */
  lemma {:induction false} NoIssuesAllKept(item: Product, selections: Selections, lc: Collation)
    requires CatalogIssues(item, selections, lc) == []
    ensures CatalogGroups(item, selections, lc) == EligibleGroups(item, selections, lc)
  {
    hide EligibleGroups, IdIssues, ClassIssues, ClassKeys, Excluded, Without;
    var groups := EligibleGroups(item, selections, lc);
    NoIssuesNothingExcluded(Rows(groups), item.ingredients);
    KeptWhole(groups, Excluded(Rows(groups), item.ingredients));
  }

  /** The initial selections are consistent with the catalogue they were taken from if the scopes agree,
      that is, if every authorised add-on is allowed by the sizes the defaults name in both orders; and
      where neither catalogue reports an issue, only then. In general they are exactly when both passes
      leave the same options. */
  lemma {:induction false} InitialFixedPointExact(item: Product, lc: Collation)
    requires DistinctGroupIds(item.groups)
    requires NoIdConflict(CatalogIssues(item, DefaultSelections(item.groups), lc))
    ensures var first, second := DefaultSelections(item.groups), InitialSelections(item, lc);
            && (ScopesAgree(item, lc) ==> CatalogGroups(item, second, lc) == CatalogGroups(item, first, lc))
            && (CatalogIssues(item, first, lc) == [] && CatalogIssues(item, second, lc) == [] ==>
                  (CatalogGroups(item, second, lc) == CatalogGroups(item, first, lc) <==> ScopesAgree(item, lc)))
            && (TotalPreorder(lc) ==>
                  (CatalogGroups(item, second, lc) == CatalogGroups(item, first, lc) <==> SameLeft(item, second, first, lc)))
  {
    hide CatalogIssues, DefaultSelections, InitialSelections, ScopesAgree, SameLeft, Excluded, EligibleGroups, TotalPreorder;
    var first, second := DefaultSelections(item.groups), InitialSelections(item, lc);
    ConsideredExact(item, lc);
    if TotalPreorder(lc) {
      CatalogsExact(item, second, first, lc);
    }
    if CatalogIssues(item, first, lc) == [] && CatalogIssues(item, second, lc) == [] {
      NoIssuesAllKept(item, first, lc);
      NoIssuesAllKept(item, second, lc);
    }
  }

  /** Defaults that fit their limit are the same in any order. */
  lemma {:induction false} FittingDefaultsSameSizes(item: Product, lc: Collation)
    requires DefaultsFit(item.groups)
    ensures EditorSizes(item) == MenuSizes(item, lc)
  {
    hide SortBy, IsSize, Normalize, DefaultsOf, MaximumSelections;
    forall i | 0 <= i < |item.groups| && IsSize(item.groups[i].info)
      ensures DefaultSizes(item.groups[i], item.groups[i].options)
           == DefaultSizes(item.groups[i], SortBy(item.groups[i].options, OptionOrder(lc)))
    {
      var g := item.groups[i];
      var h := Group(g.info, SortBy(g.options, OptionOrder(lc)));
      DefaultsPermuted(g, h);
      DefaultsOfSame(g, h, h.options);
      SameMembers(DefaultsOf(g, g.options), DefaultsOf(h, h.options));
    }
    hide DefaultSizes;
  }

  /** In particular they are consistent when no size group preselects more than it allows. */
  lemma {:induction false} InitialFixedPoint(item: Product, lc: Collation)
    requires DistinctGroupIds(item.groups) && DefaultsFit(item.groups)
    requires NoIdConflict(CatalogIssues(item, DefaultSelections(item.groups), lc))
    ensures CatalogGroups(item, InitialSelections(item, lc), lc) == CatalogGroups(item, DefaultSelections(item.groups), lc)
    ensures InitialSelections(item, lc) == DefaultSelections(CatalogGroups(item, InitialSelections(item, lc), lc))
  {
    hide CatalogGroups, CatalogIssues, DefaultSelections, EditorSizes, MenuSizes, Authorized, Allowed, SizeNames;
    FittingDefaultsSameSizes(item, lc);
    InitialFixedPointExact(item, lc);
  }

  // ----- the initial selections pass the stale and the upper-limit checks

  lemma {:induction false} DefaultsOfMember(g: Group, options: seq<MenuOption>)
    ensures forall o :: o in DefaultsOf(g, options) ==> o in options
    ensures DistinctOptionIds(options) ==> DistinctOptionIds(DefaultsOf(g, options))
  {
    hide IsDefault;
    if options != [] {
      DefaultsOfMember(g, options[1..]);
      var rest := DefaultsOf(g, options[1..]);
      forall i | 0 <= i < |rest| && DistinctOptionIds(options) ensures rest[i].id != options[0].id {
        assert rest[i] in options[1..];
      }
    }
  }

  lemma {:induction false} DefaultIdsShape(g: Group)
    requires DistinctOptionIds(g.options) && (g.info.maxSelect.None? || g.info.maxSelect.value >= 0)
    ensures NoDuplicates(DefaultIds(g)) && forall i :: 0 <= i < |DefaultIds(g)| ==> HasOption(g, DefaultIds(g)[i])
    ensures var max := MaximumSelections(g.info); max.Some? ==> |DefaultIds(g)| <= max.value
  {
    hide DefaultsOf, IsDefault;
    DefaultsOfMember(g, g.options);
    var ds := DefaultsOf(g, g.options);
    forall i | 0 <= i < |DefaultIds(g)| ensures HasOption(g, DefaultIds(g)[i]) {
      assert ds[i] in g.options;
    }
  }

  lemma {:induction false} SeenAreOptions(groups: seq<Group>, selections: Selections, n: nat, id: string)
    requires n <= |groups| && id in SeenBefore(groups[..n], selections)
    requires forall i :: 0 <= i < |groups| ==> SelectedIn(selections, groups[i].info.id) == DefaultIds(groups[i])
    requires forall i, k :: 0 <= i < |groups| && 0 <= k < |DefaultIds(groups[i])| ==> HasOption(groups[i], DefaultIds(groups[i])[k])
    ensures exists i :: 0 <= i < n && HasOption(groups[i], id)
  {
    hide DefaultIds, SelectedIn, HasOption;
    if n > 0 {
      assert groups[..n][..n - 1] == groups[..n - 1];
      if id in SeenBefore(groups[..n - 1], selections) {
        SeenAreOptions(groups, selections, n - 1, id);
      } else {
        assert id in SetOf(DefaultIds(groups[n - 1]));
        assert HasOption(groups[n - 1], id);
      }
    }
  }

  lemma {:induction false} OptionInOneGroup(groups: seq<Group>, i: nat, n: nat, id: string)
    requires UniqueOptionIds(groups) && i < n < |groups| && HasOption(groups[i], id)
    ensures !HasOption(groups[n], id)
  {
    var a :| 0 <= a < |groups[i].options| && groups[i].options[a].id == id;
    forall b | 0 <= b < |groups[n].options| ensures groups[n].options[b].id != id {
      var k := RowPosition(groups, i, a);
      var l := RowPosition(groups, n, b);
      RowsGrow(groups, i, n, a);
      assert Rows(groups)[k].option.id != Rows(groups)[l].option.id;
    }
  }

  lemma {:induction false} RowsGrow(groups: seq<Group>, i: nat, n: nat, a: nat)
    requires i < n <= |groups| && a < |groups[i].options|
    ensures |Rows(groups[..i])| + a < |Rows(groups[..n])|
  {
    var k := RowPosition(groups[..n], i, a);
    assert groups[..n][..i] == groups[..i];
  }

  lemma {:induction false} DefaultGroupVerdict(groups: seq<Group>, n: nat)
    requires UniqueOptionIds(groups) && DistinctGroupIds(groups) && NonNegativeLimits(groups) && n < |groups|
    ensures var selections := DefaultSelections(groups);
            GroupVerdict(groups[n], SelectedIn(selections, groups[n].info.id), SeenBefore(groups[..n], selections))
            == if |DefaultIds(groups[n])| < MinimumSelections(groups[n].info) then TooFew(Label(groups[n].info)) else Accepted
  {
    hide DefaultIds, UniqueOptionIds, SelectedIn, MinimumSelections, MaximumSelections, HasOption, SeenBefore, DefaultSelections;
    var selections := DefaultSelections(groups);
    forall i | 0 <= i < |groups|
      ensures SelectedIn(selections, groups[i].info.id) == DefaultIds(groups[i])
      ensures NoDuplicates(DefaultIds(groups[i]))
      ensures forall k :: 0 <= k < |DefaultIds(groups[i])| ==> HasOption(groups[i], DefaultIds(groups[i])[k])
      ensures MaximumSelections(groups[i].info).Some? ==> |DefaultIds(groups[i])| <= MaximumSelections(groups[i].info).value
    {
      DefaultAt(groups, i);
      UniqueInGroup(groups, i);
      DefaultIdsShape(groups[i]);
    }
    var ids := DefaultIds(groups[n]);
    forall k | 0 <= k < |ids| ensures ids[k] !in SeenBefore(groups[..n], selections) {
      if ids[k] in SeenBefore(groups[..n], selections) {
        SeenAreOptions(groups, selections, n, ids[k]);
        var i :| 0 <= i < n && HasOption(groups[i], ids[k]);
        OptionInOneGroup(groups, i, n, ids[k]);
      }
    }
  }

  /** Each group preselects at least as many options as it requires. */
  predicate EnoughDefaults(groups: seq<Group>, n: nat)
    requires n <= |groups|
  {
    forall i :: n <= i < |groups| ==> |DefaultIds(groups[i])| >= MinimumSelections(groups[i].info)
  }

  lemma {:induction false} DefaultVerdictFrom(groups: seq<Group>, n: nat)
    requires UniqueOptionIds(groups) && DistinctGroupIds(groups) && NonNegativeLimits(groups) && n <= |groups|
    ensures var v := VerdictFrom(groups, DefaultSelections(groups), n);
            (v == Accepted || v.TooFew?) && (v == Accepted <==> EnoughDefaults(groups, n))
    decreases |groups| - n
  {
    hide UniqueOptionIds, DefaultIds, GroupVerdict, MinimumSelections, DefaultSelections, SeenBefore, SelectedIn;
    if n < |groups| {
      DefaultGroupVerdict(groups, n);
      DefaultVerdictFrom(groups, n + 1);
    }
  }

  /** The initial selections are never stale and never too many; they are accepted exactly
      when every group's defaults meet its minimum. */
  lemma {:induction false} InitialVerdict(item: Product, lc: Collation)
    requires DistinctGroupIds(item.groups) && NonNegativeLimits(item.groups)
    ensures var groups := CatalogGroups(item, DefaultSelections(item.groups), lc);
            var v := Validate(groups, InitialSelections(item, lc));
            (v == Accepted || v.TooFew?) && (v == Accepted <==> EnoughDefaults(groups, 0))
  {
    hide CatalogGroups, EnoughDefaults, VerdictFrom, UniqueOptionIds, DefaultSelections;
    var context := DefaultSelections(item.groups);
    var groups := CatalogGroups(item, context, lc);
    CatalogUnique(item, context, lc);
    MenuOrderDistinct(item, context, lc);
    LimitsKept(item, context, lc);
    DefaultVerdictFrom(groups, 0);
    forall id | id in InitialSelections(item, lc) ensures HasGroup(groups, id) {
      DefaultKeys(groups, id);
    }
  }

  lemma {:induction false} LimitsKept(item: Product, selections: Selections, lc: Collation)
    requires NonNegativeLimits(item.groups)
    ensures NonNegativeLimits(CatalogGroups(item, selections, lc))
  {
    hide CatalogGroups;
    CatalogKeepsGroups(item, selections, lc);
    var groups := CatalogGroups(item, selections, lc);
    SameMembers(Infos(item.groups), Infos(groups));
    forall i | 0 <= i < |groups| ensures groups[i].info.maxSelect.None? || groups[i].info.maxSelect.value >= 0 {
      assert Infos(groups)[i] in Infos(item.groups);
      var j :| 0 <= j < |item.groups| && Infos(item.groups)[j] == groups[i].info;
      assert item.groups[j].info == groups[i].info;
    }
  }

  // ----- one default too many

  lemma {:induction false} AmbiguousDefaults()
    ensures DefaultIds(AMBIGUOUS.groups[0]) == ["b"] && DefaultIds(AMBIGUOUS_ELIGIBLE[0]) == ["h"]
  {
    var g, h := AMBIGUOUS.groups[0], AMBIGUOUS_ELIGIBLE[0];
    assert [BIG, HOT][1..] == [HOT] && [HOT, BIG][1..] == [BIG] && [HOT][1..] == [] && [BIG][1..] == [];
    assert DefaultsOf(g, [HOT]) == [HOT] && DefaultsOf(h, [BIG]) == [BIG];
    assert DefaultsOf(g, [BIG, HOT]) == [BIG, HOT] && DefaultsOf(h, [HOT, BIG]) == [HOT, BIG];
    assert [BIG, HOT][..1] == [BIG] && [HOT, BIG][..1] == [HOT];
  }

  lemma {:induction false} FirstGroupDefaults(groups: seq<Group>, ids: seq<string>, id: string)
    requires |groups| == 2 && groups[0].info == SIZES && groups[1].info == EXTRAS && DefaultIds(groups[0]) == ids
    ensures Selected(DefaultSelections(groups), SIZES.id, id) <==> id in ids
  {
    hide DefaultIds;
    DefaultAt(groups, 0);
  }

  /** The sizes selected in the product by the defaults of these groups. */
  lemma {:induction false} OneSizeChosen(groups: seq<Group>, o: MenuOption, size: string)
    requires |groups| == 2 && groups[0].info == SIZES && groups[1].info == EXTRAS
    requires (o == BIG || o == HOT) && DefaultIds(groups[0]) == [o.id]
    ensures size in SelectedSizes(AMBIGUOUS.groups, DefaultSelections(groups)) <==> size == Normalize(o.name)
  {
    hide Normalize, DefaultIds, DefaultSelections, SelectedSizes, Selected;
    SelectedSizesMember(AMBIGUOUS.groups, DefaultSelections(groups), size);
    FirstGroupDefaults(groups, [o.id], "b");
    FirstGroupDefaults(groups, [o.id], "h");
    assert AMBIGUOUS.groups[0].options == [BIG, HOT] && IsSize(AMBIGUOUS.groups[0].info) && !IsSize(AMBIGUOUS.groups[1].info);
    assert o in AMBIGUOUS.groups[0].options;
  }

  /** One default too many breaks the fixed point: in a group that allows one size the editor's first
      default is big, the menu's is hot. The dip for big is offered under the first selections and
      not under the initial ones. */
  lemma {:induction false} ExtraDefaultsChangeCatalog(lc: Collation)
    ensures var first, second := DefaultSelections(AMBIGUOUS.groups), InitialSelections(AMBIGUOUS, lc);
            CatalogGroups(AMBIGUOUS, second, lc) != CatalogGroups(AMBIGUOUS, first, lc)
  {
    hide CatalogGroups, DefaultSelections, SelectedSizes, DefaultIds, Normalize, Eligible, InScope;
    var first, second := DefaultSelections(AMBIGUOUS.groups), InitialSelections(AMBIGUOUS, lc);
    AmbiguousDefaults();
    NormalSizes();
    forall size ensures size in SelectedSizes(AMBIGUOUS.groups, first) <==> size in SelectedSizes(AMBIGUOUS.groups, BIG_SELECTED) {
      OneSizeChosen(AMBIGUOUS.groups, BIG, size);
      ChosenSize(AMBIGUOUS.groups, BIG, HOT, size);
    }
    CatalogThroughSizes(AMBIGUOUS, first, BIG_SELECTED, lc);
    AmbiguousCatalog(lc);
    OneSizeChosen(AMBIGUOUS_ELIGIBLE, HOT, "big");
    OfferedAddons(AMBIGUOUS, second, lc);
    DipOutOfScope(second);
    assert DIP in AMBIGUOUS_ELIGIBLE[1].options;
  }

  lemma {:induction false} DipOutOfScope(selections: Selections)
    requires "big" !in SelectedSizes(AMBIGUOUS.groups, selections)
    ensures !Eligible(AMBIGUOUS, selections, EXTRAS, DIP)
  {
    hide SelectedSizes, SizeNames, Normalize, InferOptionSizeScope, Authorized;
    NormalSizes();
    TwoSizeNames(AMBIGUOUS.groups, BIG, HOT);
    FirstOfTwo("big", "hot");
  }
}
