/** What survives `customizationCatalog`, and what a second run does. */
module CatalogTheorems {
  import opened Strings
  import opened Sorting
  import opened MenuText
  import opened Catalog

  // ----- positions of a class

  function ClassPositions(rows: seq<Row>, key: string, ingredients: seq<string>): (ps: seq<nat>)
    ensures |ps| == |ClassRows(rows, key, ingredients)|
    ensures forall c :: 0 <= c < |ps| ==> ps[c] < |rows| && rows[ps[c]] == ClassRows(rows, key, ingredients)[c]
    ensures forall c :: 0 <= c < |ps| ==> InClass(rows[ps[c]], key, ingredients)
    ensures forall c, d :: 0 <= c < d < |ps| ==> ps[c] < ps[d]
  {
    hide InClass;
    if rows == [] then []
    else
      var n := |rows| - 1;
      var before := ClassPositions(rows[..n], key, ingredients);
      if InClass(rows[n], key, ingredients) then before + [n] else before
  }

  lemma {:induction false} ClassPositionsAll(rows: seq<Row>, key: string, ingredients: seq<string>, k: nat)
    requires k < |rows| && InClass(rows[k], key, ingredients)
    ensures k in ClassPositions(rows, key, ingredients)
  {
    hide InClass;
    if k < |rows| - 1 {
      ClassPositionsAll(rows[..|rows| - 1], key, ingredients, k);
    }
  }

  lemma {:induction false} ClassKeysAll(rows: seq<Row>, ingredients: seq<string>, k: nat)
    requires k < |rows| && IsExtra(rows[k].group)
    ensures ClassKey(rows[k].option, ingredients) in ClassKeys(rows, ingredients)
  {
    hide ClassKey, IsExtra;
    if k < |rows| - 1 {
      ClassKeysAll(rows[..|rows| - 1], ingredients, k);
    }
  }

  // ----- exactly which options are excluded

  predicate SameClass(a: Row, b: Row, ingredients: seq<string>) {
    IsExtra(a.group) && IsExtra(b.group) && ClassKey(a.option, ingredients) == ClassKey(b.option, ingredients)
  }

  /** The row is the first of its class, and the class agrees on the price. */
  ghost predicate LeadsClass(rows: seq<Row>, k: nat, ingredients: seq<string>)
    requires k < |rows|
  {
    forall j :: 0 <= j < |rows| && SameClass(rows[j], rows[k], ingredients) ==>
      j >= k && rows[j].option.priceDeltaCents == rows[k].option.priceDeltaCents
  }

  lemma {:induction false} RepeatedExact(rows: seq<Row>, k: nat)
    requires k < |rows|
    ensures rows[k].option in RepeatedOptions(rows) <==> Repeated(rows, k)
  {
    if rows[k].option in RepeatedOptions(rows) {
      var j :| 0 <= j < |rows| && Repeated(rows, j) && rows[j].option == rows[k].option;
    }
  }

  /** Row `c` of a class is among the excluded ones. */
  predicate Dropped(cs: seq<Row>, c: nat) {
    c < |cs| && |cs| >= 2 && (c > 0 || PricesDiffer(cs))
  }

  lemma {:induction false} ClassExcludedExact(cs: seq<Row>, o: MenuOption)
    ensures o in ClassExcluded(cs) <==> exists c :: 0 <= c < |cs| && Dropped(cs, c) && cs[c].option == o
  {
    hide PricesDiffer;
    if |cs| >= 2 {
      if o in ClassExcluded(cs) && !PricesDiffer(cs) {
        var d :| 0 <= d < |cs[1..]| && cs[1..][d].option == o;
        assert cs[d + 1].option == o && Dropped(cs, d + 1);
      }
      if c :| 0 <= c < |cs| && Dropped(cs, c) && cs[c].option == o {
        assert c > 0 ==> cs[1..][c - 1] == cs[c];
      }
    }
  }

  lemma {:induction false} ClassExactAt(rows: seq<Row>, k: nat, key: string, ingredients: seq<string>)
    requires k < |rows| && !Repeated(rows, k)
    ensures rows[k].option in ClassExcluded(ClassRows(rows, key, ingredients)) <==>
              InClass(rows[k], key, ingredients) && !LeadsClass(rows, k, ingredients)
  {
    hide InClass, LeadsClass, ClassExcluded, Dropped;
    var cs, ps := ClassRows(rows, key, ingredients), ClassPositions(rows, key, ingredients);
    ClassExcludedExact(cs, rows[k].option);
    forall c | 0 <= c < |cs| && cs[c].option == rows[k].option ensures ps[c] == k {
      assert rows[ps[c]].option.id == rows[k].option.id;
    }
    forall c | 0 <= c < |ps| && ps[c] == k ensures Dropped(cs, c) <==> !LeadsClass(rows, k, ingredients) {
      ClassLeader(rows, c, key, ingredients);
      DroppedExact(cs, c);
    }
    if InClass(rows[k], key, ingredients) {
      ClassPositionsAll(rows, key, ingredients, k);
      var c :| 0 <= c < |ps| && ps[c] == k;
      assert cs[c] == rows[k];
    }
  }

  lemma {:induction false} DroppedExact(cs: seq<Row>, c: nat)
    requires c < |cs|
    ensures Dropped(cs, c) <==> !(c == 0 && !PricesDiffer(cs))
  {
  }

  lemma {:induction false} ClassLeader(rows: seq<Row>, c: nat, key: string, ingredients: seq<string>)
    requires c < |ClassPositions(rows, key, ingredients)|
    ensures var k, cs := ClassPositions(rows, key, ingredients)[c], ClassRows(rows, key, ingredients);
            LeadsClass(rows, k, ingredients) <==> c == 0 && !PricesDiffer(cs)
    ensures LeadsClass(rows, ClassPositions(rows, key, ingredients)[c], ingredients) ==>
              forall d :: 0 <= d < |ClassRows(rows, key, ingredients)| ==>
                ClassRows(rows, key, ingredients)[d].option.priceDeltaCents == ClassRows(rows, key, ingredients)[c].option.priceDeltaCents
  {
    hide ClassKey, IsExtra;
    var cs, ps := ClassRows(rows, key, ingredients), ClassPositions(rows, key, ingredients);
    var k := ps[c];
    forall j | 0 <= j < |rows| && SameClass(rows[j], rows[k], ingredients)
      ensures exists d :: 0 <= d < |ps| && ps[d] == j
    {
      ClassPositionsAll(rows, key, ingredients, j);
    }
    forall d | 0 <= d < |ps| ensures SameClass(rows[ps[d]], rows[k], ingredients) { }
    if LeadsClass(rows, k, ingredients) {
      assert ps[0] >= k;
    }
    if c == 0 && !PricesDiffer(cs) {
      forall j | 0 <= j < |rows| && SameClass(rows[j], rows[k], ingredients)
        ensures j >= k && rows[j].option.priceDeltaCents == rows[k].option.priceDeltaCents
      {
        var d :| 0 <= d < |ps| && ps[d] == j;
      }
    }
  }

  /** An option survives exactly when no other row has its id and, for an extra, it is
      the first of its class and the class agrees on the price. */
  lemma {:induction false} SurvivorExact(rows: seq<Row>, k: nat, ingredients: seq<string>)
    requires k < |rows|
    ensures rows[k].option !in Excluded(rows, ingredients) <==>
              !Repeated(rows, k) && (IsExtra(rows[k].group) ==> LeadsClass(rows, k, ingredients))
  {
    hide ClassKey, IsExtra, ClassRows, ClassExcluded, RepeatedOptions, LeadsClass, Repeated;
    RepeatedExact(rows, k);
    var keys, o := ClassKeys(rows, ingredients), rows[k].option;
    if !Repeated(rows, k) {
      forall key ensures o in ClassExcluded(ClassRows(rows, key, ingredients)) <==>
                           InClass(rows[k], key, ingredients) && !LeadsClass(rows, k, ingredients)
      {
        ClassExactAt(rows, k, key, ingredients);
      }
      if IsExtra(rows[k].group) {
        ClassKeysAll(rows, ingredients, k);
        var i :| 0 <= i < |keys| && keys[i] == ClassKey(o, ingredients);
        assert o in ClassExcluded(ClassRows(rows, keys[i], ingredients)) <==> !LeadsClass(rows, k, ingredients);
      }
    }
  }

  // ----- the rows of a catalogue

  function FilterRows(rows: seq<Row>, excluded: set<MenuOption>): seq<Row> {
    if rows == [] then []
    else
      FilterRows(rows[..|rows| - 1], excluded)
      + if rows[|rows| - 1].option !in excluded then [rows[|rows| - 1]] else []
  }

  lemma {:induction false} FilterConcat(a: seq<Row>, b: seq<Row>, excluded: set<MenuOption>)
    ensures FilterRows(a + b, excluded) == FilterRows(a, excluded) + FilterRows(b, excluded)
  {
    if b == [] {
      assert a + b == a;
    } else {
      assert (a + b)[..|a + b| - 1] == a + b[..|b| - 1];
      FilterConcat(a, b[..|b| - 1], excluded);
    }
  }

  lemma {:induction false} GroupFilter(g: GroupInfo, options: seq<MenuOption>, excluded: set<MenuOption>)
    ensures GroupRows(g, Surviving(options, excluded)) == FilterRows(GroupRows(g, options), excluded)
  {
    if options != [] {
      GroupFilter(g, options[1..], excluded);
      var head := [Row(g, options[0])];
      assert GroupRows(g, options) == head + GroupRows(g, options[1..]);
      FilterConcat(head, GroupRows(g, options[1..]), excluded);
      assert head[..0] == [];
      assert GroupRows(g, [options[0]] + Surviving(options[1..], excluded))
             == head + GroupRows(g, Surviving(options[1..], excluded));
    }
  }

  lemma {:induction false} RowsWithout(groups: seq<Group>, excluded: set<MenuOption>)
    ensures Rows(Without(groups, excluded)) == FilterRows(Rows(groups), excluded)
  {
    if groups != [] {
      var n := |groups| - 1;
      RowsWithout(groups[..n], excluded);
      assert Without(groups, excluded)[..n] == Without(groups[..n], excluded);
      GroupFilter(groups[n].info, groups[n].options, excluded);
      FilterConcat(Rows(groups[..n]), GroupRows(groups[n].info, groups[n].options), excluded);
    }
  }

  /** `ps` are the places in `rows` of the rows `kept`, none of them excluded. */
  ghost predicate Places(rows: seq<Row>, excluded: set<MenuOption>, kept: seq<Row>, ps: seq<nat>) {
    && |ps| == |kept|
    && (forall c :: 0 <= c < |ps| ==> ps[c] < |rows| && rows[ps[c]] == kept[c] && kept[c].option !in excluded)
    && (forall c, d :: 0 <= c < d < |ps| ==> ps[c] < ps[d])
  }

  lemma {:induction false} PlacesAfter(rows: seq<Row>, row: Row, excluded: set<MenuOption>, kept: seq<Row>, ps: seq<nat>)
    requires Places(rows, excluded, kept, ps)
    ensures Places(rows + [row], excluded, kept, ps)
    ensures row.option !in excluded ==> Places(rows + [row], excluded, kept + [row], ps + [|rows|])
  {
    var longer := rows + [row];
    assert forall k :: 0 <= k < |rows| ==> longer[k] == rows[k];
    assert longer[|rows|] == row;
  }

  /** Where the surviving rows stood. */
  lemma {:induction false} SurvivorPositions(rows: seq<Row>, excluded: set<MenuOption>) returns (ps: seq<nat>)
    ensures Places(rows, excluded, FilterRows(rows, excluded), ps)
  {
    if rows == [] {
      ps := [];
    } else {
      var n := |rows| - 1;
      ps := SurvivorPositions(rows[..n], excluded);
      assert rows == rows[..n] + [rows[n]];
      var kept := FilterRows(rows[..n], excluded);
      assert FilterRows(rows, excluded) == if rows[n].option !in excluded then kept + [rows[n]] else kept;
      hide FilterRows, Places;
      PlacesAfter(rows[..n], rows[n], excluded, kept, ps);
      ps := if rows[n].option !in excluded then ps + [n] else ps;
    }
  }

  /** Every surviving id belongs to one option only, and ids that occurred more than once
      survive nowhere. */
  lemma {:induction false} SurvivingIdsUnique(item: Product, selections: Selections, lc: Collation)
    ensures var before := Rows(EligibleGroups(item, selections, lc));
            var after := Rows(CatalogGroups(item, selections, lc));
            && (forall i, j :: 0 <= i < j < |after| ==> after[i].option.id != after[j].option.id)
            && (forall k, i :: 0 <= k < |before| && Repeated(before, k) && 0 <= i < |after| ==>
                  after[i].option.id != before[k].option.id)
  {
    hide EligibleGroups, Excluded;
    var groups := EligibleGroups(item, selections, lc);
    var rows := Rows(groups);
    var excluded := Excluded(rows, item.ingredients);
    RowsWithout(groups, excluded);
    var after := FilterRows(rows, excluded);
    var ps := SurvivorPositions(rows, excluded);
    forall c | 0 <= c < |ps| ensures !Repeated(rows, ps[c]) {
      SurvivorExact(rows, ps[c], item.ingredients);
    }
    forall i, j | 0 <= i < j < |after| ensures after[i].option.id != after[j].option.id {
      assert !Repeated(rows, ps[i]) && ps[i] != ps[j];
    }
    forall k, i | 0 <= k < |rows| && Repeated(rows, k) && 0 <= i < |after| ensures after[i].option.id != rows[k].option.id {
      assert !Repeated(rows, ps[i]);
      assert k == ps[i] || rows[k].option.id != rows[ps[i]].option.id;
    }
  }

  lemma {:induction false} ClassOfFiltered(rows: seq<Row>, excluded: set<MenuOption>, key: string, ingredients: seq<string>)
    ensures ClassRows(FilterRows(rows, excluded), key, ingredients) == FilterRows(ClassRows(rows, key, ingredients), excluded)
  {
    hide InClass;
    if rows != [] {
      var before, last := rows[..|rows| - 1], rows[|rows| - 1];
      ClassOfFiltered(before, excluded, key, ingredients);
      FilterConcat(ClassRows(before, key, ingredients), if InClass(last, key, ingredients) then [last] else [], excluded);
      assert [last][..0] == [];
      if last.option !in excluded {
        ClassesExtend(FilterRows(before, excluded), last, key, ingredients);
      } else {
        assert FilterRows(rows, excluded) == FilterRows(before, excluded);
      }
    }
  }

  lemma {:induction false} FilterAllOut(rows: seq<Row>, excluded: set<MenuOption>)
    requires forall c :: 0 <= c < |rows| ==> rows[c].option in excluded
    ensures FilterRows(rows, excluded) == []
  {
    if rows != [] {
      FilterAllOut(rows[..|rows| - 1], excluded);
    }
  }

  /** What is left of a class of equivalent extras: its first row, provided all prices of
      the class agree and no other row has that id; otherwise nothing. */
  lemma {:induction false} ClassSurvivor(item: Product, selections: Selections, lc: Collation, key: string)
    ensures var before := Rows(EligibleGroups(item, selections, lc));
            var cs, ps := ClassRows(before, key, item.ingredients), ClassPositions(before, key, item.ingredients);
            ClassRows(Rows(CatalogGroups(item, selections, lc)), key, item.ingredients)
            == if cs != [] && !PricesDiffer(cs) && !Repeated(before, ps[0]) then [cs[0]] else []
  {
    hide EligibleGroups, Excluded, ClassRows, PricesDiffer, Repeated;
    var groups := EligibleGroups(item, selections, lc);
    var rows := Rows(groups);
    RowsWithout(groups, Excluded(rows, item.ingredients));
    ClassOfFiltered(rows, Excluded(rows, item.ingredients), key, item.ingredients);
    ClassFiltered(rows, key, item.ingredients);
  }

  lemma {:induction false} ClassFiltered(rows: seq<Row>, key: string, ingredients: seq<string>)
    ensures var cs, ps := ClassRows(rows, key, ingredients), ClassPositions(rows, key, ingredients);
            FilterRows(cs, Excluded(rows, ingredients))
            == if cs != [] && !PricesDiffer(cs) && !Repeated(rows, ps[0]) then [cs[0]] else []
  {
    hide Excluded, ClassRows, PricesDiffer, Repeated;
    var cs, excluded := ClassRows(rows, key, ingredients), Excluded(rows, ingredients);
    if cs != [] {
      StaysExact(rows, 0, key, ingredients);
      forall c | 1 <= c < |cs| ensures cs[c].option in excluded {
        StaysExact(rows, c, key, ingredients);
      }
      FirstOnly(cs, excluded);
    }
  }

  lemma {:induction false} FirstOnly(cs: seq<Row>, excluded: set<MenuOption>)
    requires cs != [] && forall c :: 1 <= c < |cs| ==> cs[c].option in excluded
    ensures FilterRows(cs, excluded) == if cs[0].option in excluded then [] else [cs[0]]
  {
    FilterAllOut(cs[1..], excluded);
    assert cs == [cs[0]] + cs[1..] && [cs[0]][..0] == [];
    FilterConcat([cs[0]], cs[1..], excluded);
  }

  ghost predicate StaysInClass(rows: seq<Row>, c: nat, key: string, ingredients: seq<string>)
    requires c < |ClassRows(rows, key, ingredients)|
  {
    && c == 0 && !PricesDiffer(ClassRows(rows, key, ingredients))
    && !Repeated(rows, ClassPositions(rows, key, ingredients)[0])
  }

  lemma {:induction false} StaysExact(rows: seq<Row>, c: nat, key: string, ingredients: seq<string>)
    requires c < |ClassRows(rows, key, ingredients)|
    ensures ClassRows(rows, key, ingredients)[c].option !in Excluded(rows, ingredients) <==>
              StaysInClass(rows, c, key, ingredients)
  {
    hide Excluded, ClassRows, PricesDiffer, Repeated, LeadsClass, InClass;
    var k := ClassPositions(rows, key, ingredients)[c];
    SurvivorExact(rows, k, ingredients);
    ClassLeader(rows, c, key, ingredients);
    ClassIsExtra(rows[k], key, ingredients);
  }

  lemma {:induction false} ClassIsExtra(row: Row, key: string, ingredients: seq<string>)
    requires InClass(row, key, ingredients)
    ensures IsExtra(row.group)
  {
  }

  // ----- what makes two extras the same

  lemma {:induction false} StrippedLacksBar(s: string)
    ensures Lacks(StripPrefix(Normalize(s)), '|')
  {
    hide Normalize;
    NormalizeNormal(s);
    var t := Normalize(s);
    assert Lacks(t, '|');
    assert forall i :: 0 <= i < |StripPrefix(t)| ==> StripPrefix(t)[i] == t[|t| - |StripPrefix(t)| + i];
  }

  lemma {:induction false} MappingLacksBar(item: Product, g: GroupInfo, o: MenuOption)
    requires Authorized(item, g, o)
    ensures Lacks(MappingPart(o, item.ingredients), '|')
  {
    hide Normalize, Means, Candidates;
    if o.addonMatch != Some("__always__") {
      var c := ResolveIngredientMapping(o.addonMatch, item.ingredients).value;
      ResolveExact(o.addonMatch.value, item.ingredients, c);
      var i :| 0 <= i < |item.ingredients| && Normalize(item.ingredients[i]) == c;
      NormalizeNormal(item.ingredients[i]);
    } else {
      assert StartsWith("__always__", "__");
    }
  }

  lemma {:induction false} JoinThree(a: string, b: string, c: string)
    ensures Join([a, b, c], "|") == a + "|" + (b + "|" + c)
  {
    assert [a, b, c][1..] == [b, c] && [b, c][1..] == [c];
    assert Join([b, c], "|") == b + "|" + c;
  }

  /** Two authorised extras are taken for the same exactly when they agree on the name
      without a leading "add" or "extra", on the ingredient and on the flavour. */
  lemma {:induction false} ClassKeyExact(item: Product, g: GroupInfo, a: MenuOption, h: GroupInfo, b: MenuOption)
    requires Authorized(item, g, a) && Authorized(item, h, b)
    ensures ClassKey(a, item.ingredients) == ClassKey(b, item.ingredients) <==>
              && StripPrefix(Normalize(a.name)) == StripPrefix(Normalize(b.name))
              && MappingPart(a, item.ingredients) == MappingPart(b, item.ingredients)
              && FlavourPart(a) == FlavourPart(b)
  {
    hide Normalize, StripPrefix, MappingPart, FlavourPart, Authorized;
    var p, q := StripPrefix(Normalize(a.name)), StripPrefix(Normalize(b.name));
    var m, n := MappingPart(a, item.ingredients), MappingPart(b, item.ingredients);
    StrippedLacksBar(a.name);
    StrippedLacksBar(b.name);
    MappingLacksBar(item, g, a);
    MappingLacksBar(item, h, b);
    JoinThree(p, m, FlavourPart(a));
    JoinThree(q, n, FlavourPart(b));
    if ClassKey(a, item.ingredients) == ClassKey(b, item.ingredients) {
      FirstSeparator(p, q, '|', m + "|" + FlavourPart(a), n + "|" + FlavourPart(b));
      FirstSeparator(m, n, '|', FlavourPart(a), FlavourPart(b));
    }
  }
}
