/** Which parts of a builder payload count in `cartItemKey` (apps/application/src/context/cart.tsx),
    name by name, at any depth. */
module PayloadFields {
  import opened Sorting
  import opened JsonText
  import opened CanonicalPayload
  import opened CartKey
  import opened Strings

  // ----- a property that is there or not

  lemma {:induction false} SortedAlike(a: seq<Field>, b: seq<Field>, lc: Collation)
    ensures a == b ==> FromEntries(SortBy(a, ByKey(lc))) == FromEntries(SortBy(b, ByKey(lc)))
    ensures FromEntries(SortBy(a, ByKey(lc))) == FromEntries(SortBy(b, ByKey(lc))) ==> multiset(a) == multiset(b)
  {
  }

  lemma {:induction false} FieldsOfThree(before: seq<Field>, f: Field, after: seq<Field>, lc: Collation)
    ensures CanonicalFields(before + [f] + after, lc)
         == CanonicalFields(before, lc) + CanonicalFields([f], lc) + CanonicalFields(after, lc)
    ensures CanonicalFields(before + after, lc) == CanonicalFields(before, lc) + CanonicalFields(after, lc)
    ensures CanonicalFields([f], lc) == if Kept(f) then [CanonicalField(f, lc)] else []
  {
    hide Canonical, Kept;
    FieldsConcat(before + [f], after, lc);
    FieldsConcat(before, [f], lc);
    FieldsConcat(before, after, lc);
    assert [f][1..] == [];
  }

  /** Leaving a property out leaves the form alone exactly when the property has no value or has one of
      the eight names that are for display. */
  lemma {:induction false} DroppedExactly(before: seq<Field>, f: Field, after: seq<Field>, field: string, lc: Collation)
    ensures Canonical(Obj(before + [f] + after), field, lc) == Canonical(Obj(before + after), field, lc)
       <==> f.value == Undefined
            || f.key in ["name", "flavour_name", "child_name", "child_slug", "salad_name", "salad_slug",
                         "price_cents", "price_delta_cents"]
  {
    FieldsOfThree(before, f, after, lc);
    var a, b := CanonicalFields(before + [f] + after, lc), CanonicalFields(before + after, lc);
    SortedAlike(a, b, lc);
    assert Canonical(Obj(before + [f] + after), field, lc) == Obj(FromEntries(SortBy(a, ByKey(lc))));
    assert Canonical(Obj(before + after), field, lc) == Obj(FromEntries(SortBy(b, ByKey(lc))));
    if Kept(f) {
      assert |a| == |b| + 1;
      assert |multiset(a)| == |a| && |multiset(b)| == |b|;
    } else {
      assert CanonicalFields(before, lc) + [] == CanonicalFields(before, lc);
    }
  }

  // ----- a value that changes somewhere inside

  /** One step down: to the value of a property, or to an entry of a list. */
  datatype Place =
    | AtProperty(before: seq<Field>, key: string, after: seq<Field>)
    | AtEntry(earlier: seq<Value>, later: seq<Value>)

  /** The value with `v` at the end of the way down. */
  function Plug(way: seq<Place>, v: Value): Value {
    if way == [] then v
    else
      match way[0]
      case AtProperty(before, key, after) => Obj(before + [Field(key, Plug(way[1..], v))] + after)
      case AtEntry(earlier, later) => Arr(earlier + [Plug(way[1..], v)] + later)
  }

  /** The way leads through a property that is for display. */
  predicate ForDisplay(way: seq<Place>) {
    exists i :: 0 <= i < |way| && way[i].AtProperty?
      && way[i].key in ["name", "flavour_name", "child_name", "child_slug", "salad_name", "salad_slug",
                        "price_cents", "price_delta_cents"]
  }

  /** The name of the property at the end of the way, or none inside a list. */
  function NameAt(way: seq<Place>, field: string): string {
    if way == [] then field else NameAt(way[1..], if way[0].AtProperty? then way[0].key else "")
  }

  lemma {:induction false} PlugDefined(way: seq<Place>, v: Value)
    requires v != Undefined
    ensures Plug(way, v) != Undefined
  {
  }

  lemma {:induction false} PropertyShows(before: seq<Field>, key: string, after: seq<Field>, v: Value, w: Value, field: string, lc: Collation)
    requires v != Undefined && w != Undefined
    ensures Canonical(Obj(before + [Field(key, v)] + after), field, lc) == Canonical(Obj(before + [Field(key, w)] + after), field, lc)
       <==> key in DISPLAY_FIELDS || Canonical(v, key, lc) == Canonical(w, key, lc)
  {
    var f, g := Field(key, v), Field(key, w);
    FieldsOfThree(before, f, after, lc);
    FieldsOfThree(before, g, after, lc);
    var p, q := CanonicalFields(before, lc), CanonicalFields(after, lc);
    var a, b := p + CanonicalFields([f], lc) + q, p + CanonicalFields([g], lc) + q;
    SortedAlike(a, b, lc);
    assert Canonical(Obj(before + [f] + after), field, lc) == Obj(FromEntries(SortBy(a, ByKey(lc))));
    assert Canonical(Obj(before + [g] + after), field, lc) == Obj(FromEntries(SortBy(b, ByKey(lc))));
    if multiset(a) == multiset(b) && key !in DISPLAY_FIELDS {
      OneDiffers(p, CanonicalField(f, lc), CanonicalField(g, lc), q);
    }
  }

  lemma {:induction false} OneDiffers<T>(p: seq<T>, x: T, y: T, q: seq<T>)
    requires multiset(p + [x] + q) == multiset(p + [y] + q)
    ensures x == y
  {
    assert multiset(p + [x] + q) == multiset(p + q) + multiset{x};
    assert multiset(p + [y] + q) == multiset(p + q) + multiset{y};
    assert (multiset(p + q) + multiset{x})[x] == (multiset(p + q) + multiset{y})[x];
  }

  lemma {:induction false} ItemsConcat(xs: seq<Value>, ys: seq<Value>, lc: Collation)
    ensures CanonicalItems(xs + ys, lc) == CanonicalItems(xs, lc) + CanonicalItems(ys, lc)
  {
    hide Canonical;
  }

  lemma {:induction false} ItemsOfThree(earlier: seq<Value>, v: Value, later: seq<Value>, lc: Collation)
    ensures CanonicalItems(earlier + [v] + later, lc)
         == CanonicalItems(earlier, lc) + [Canonical(v, "", lc)] + CanonicalItems(later, lc)
  {
    hide Canonical;
    ItemsConcat(earlier + [v], later, lc);
    ItemsConcat(earlier, [v], lc);
    assert CanonicalItems([v], lc) == [Canonical(v, "", lc)];
  }

  lemma {:induction false} EntryShows(earlier: seq<Value>, later: seq<Value>, v: Value, w: Value, field: string, lc: Collation)
    ensures Canonical(Arr(earlier + [v] + later), field, lc) == Canonical(Arr(earlier + [w] + later), field, lc)
       <==> Canonical(v, "", lc) == Canonical(w, "", lc)
  {
    hide Canonical;
    var a, b := CanonicalItems(earlier + [v] + later, lc), CanonicalItems(earlier + [w] + later, lc);
    var p, q := CanonicalItems(earlier, lc), CanonicalItems(later, lc);
    ItemsOfThree(earlier, v, later, lc);
    ItemsOfThree(earlier, w, later, lc);
    hide CanonicalItems;
    ArrayForm(earlier + [v] + later, field, lc);
    ArrayForm(earlier + [w] + later, field, lc);
    if Canonical(Arr(earlier + [v] + later), field, lc) == Canonical(Arr(earlier + [w] + later), field, lc) {
      assert multiset(a) == multiset(b);
      OneDiffers(p, Canonical(v, "", lc), Canonical(w, "", lc), q);
    }
  }

  lemma {:induction false} ArrayForm(items: seq<Value>, field: string, lc: Collation)
    ensures Canonical(Arr(items), field, lc)
         == Arr(if field in BAG_FIELDS then SortBy(CanonicalItems(items, lc), ByText(lc)) else CanonicalItems(items, lc))
  {
  }

  /** Changing one value, however deep, changes the form exactly when no property on the way to it is
      for display and the value's own form changes. */
  lemma {:induction false} ChangeShows(way: seq<Place>, v: Value, w: Value, field: string, lc: Collation)
    requires v != Undefined && w != Undefined
    ensures Canonical(Plug(way, v), field, lc) == Canonical(Plug(way, w), field, lc)
       <==> ForDisplay(way) || Canonical(v, NameAt(way, field), lc) == Canonical(w, NameAt(way, field), lc)
    decreases way
  {
    hide Canonical;
    if way != [] {
      var rest := way[1..];
      PlugDefined(rest, v);
      PlugDefined(rest, w);
      ChangeShows(rest, v, w, if way[0].AtProperty? then way[0].key else "", lc);
      DisplayAhead(way);
      match way[0]
      case AtProperty(before, key, after) => PropertyShows(before, key, after, Plug(rest, v), Plug(rest, w), field, lc);
      case AtEntry(earlier, later) => EntryShows(earlier, later, Plug(rest, v), Plug(rest, w), field, lc);
    }
  }

  lemma {:induction false} DisplayAhead(way: seq<Place>)
    requires way != []
    ensures ForDisplay(way) <==> ForDisplay(way[1..]) || (way[0].AtProperty? && way[0].key in DISPLAY_FIELDS)
  {
    if ForDisplay(way[1..]) {
      var i :| 0 <= i < |way[1..]| && way[1..][i].AtProperty? && way[1..][i].key in DISPLAY_FIELDS;
      assert way[i + 1] == way[1..][i];
    }
    if i :| 0 <= i < |way| && way[i].AtProperty? && way[i].key in DISPLAY_FIELDS {
      assert i > 0 ==> way[1..][i - 1] == way[i];
    }
  }

  /** Another text somewhere makes another form, unless a property on the way to it is for display. */
  lemma {:induction false} TextShows(way: seq<Place>, a: string, b: string, field: string, lc: Collation)
    ensures Canonical(Plug(way, Str(a)), field, lc) == Canonical(Plug(way, Str(b)), field, lc) <==> ForDisplay(way) || a == b
  {
    ChangeShows(way, Str(a), Str(b), field, lc);
  }

  /** Two cart lines that differ in one text of the payload, however deep, have different keys, unless
      a property on the way to it is for display. */
  lemma {:induction false} KeyShowsText(c: Configuration, way: seq<Place>, a: string, b: string, lc: Collation)
    requires way != [] && way[0].AtProperty?
    requires WellFormed(Plug(way, Str(a))) && WellFormed(Plug(way, Str(b)))
    ensures CartItemKey(c.(payload := Some(Plug(way, Str(a)))), lc) == CartItemKey(c.(payload := Some(Plug(way, Str(b)))), lc)
       <==> ForDisplay(way) || a == b
  {
    var v, w := Plug(way, Str(a)), Plug(way, Str(b));
    var front := c.menuItemId + "|" + (IdsText(ModifierIds(c.modifiers)) + "|" + (IdsText(RemovedIds(c.removed)) + "|" + (Trim(c.instructions) + "|")));
    KeyFront(c, front, v, lc);
    KeyFront(c, front, w, lc);
    CanonicalIsJson(v, "", lc);
    CanonicalIsJson(w, "", lc);
    TextShows(way, a, b, "", lc);
    hide CartItemKey, Canonical, Stringify, Json, Plug, IdsText, Trim;
    if front + PayloadText(Some(v), lc) == front + PayloadText(Some(w), lc) {
      Cancelled(front, PayloadText(Some(v), lc), PayloadText(Some(w), lc), "");
      assert front + PayloadText(Some(v), lc) + "" == front + PayloadText(Some(w), lc) + "";
      StringifyInjective(Canonical(v, "", lc), Canonical(w, "", lc));
    }
  }

  lemma {:induction false} KeyFront(c: Configuration, front: string, v: Value, lc: Collation)
    requires front == c.menuItemId + "|" + (IdsText(ModifierIds(c.modifiers)) + "|" + (IdsText(RemovedIds(c.removed)) + "|" + (Trim(c.instructions) + "|")))
    ensures CartItemKey(c.(payload := Some(v)), lc) == front + PayloadText(Some(v), lc)
  {
    hide IdsText, Trim, PayloadText;
  }

  // ----- the order of a list

  /** Exchanging two different entries leaves the form alone exactly in the lists of these three names. */
  lemma {:induction false} ExchangedExactly(p: seq<Value>, x: Value, q: seq<Value>, y: Value, r: seq<Value>, field: string, lc: Collation)
    requires TotalPreorder(lc) && NoTies(CanonicalItems(p + [x] + q + [y] + r, lc), ByText(lc))
    requires Canonical(x, "", lc) != Canonical(y, "", lc)
    ensures Canonical(Arr(p + [x] + q + [y] + r), field, lc) == Canonical(Arr(p + [y] + q + [x] + r), field, lc)
       <==> field in ["child_addons", "removed_ingredients", "modifier_selections"]
  {
    hide Canonical, NoTies, TotalPreorder;
    var xs, ys := p + [x] + q + [y] + r, p + [y] + q + [x] + r;
    var a, b := CanonicalItems(xs, lc), CanonicalItems(ys, lc);
    ArrayForm(xs, field, lc);
    ArrayForm(ys, field, lc);
    assert xs[|p|] == x && ys[|p|] == y;
    assert a[|p|] != b[|p|];
    ItemsExchanged(p, x, q, y, r, lc);
    BagSort(xs, ys, lc);
  }

  lemma {:induction false} ItemsExchanged(p: seq<Value>, x: Value, q: seq<Value>, y: Value, r: seq<Value>, lc: Collation)
    ensures multiset(CanonicalItems(p + [x] + q + [y] + r, lc)) == multiset(CanonicalItems(p + [y] + q + [x] + r, lc))
  {
    hide Canonical, CanonicalItems;
    ItemsOfThree(p + [x] + q, y, r, lc);
    ItemsOfThree(p, x, q, lc);
    ItemsOfThree(p + [y] + q, x, r, lc);
    ItemsOfThree(p, y, q, lc);
  }
}
