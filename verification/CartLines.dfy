/** What a cart line is after each operation, field by field (apps/application/src/context/cart.tsx). */
module CartLines {
  import opened Sorting
  import opened Strings
  import opened JsonText
  import opened CartKey
  import opened KeyedLists
  import opened Cart

  // ----- the removed ingredients of a line

  /** The object's value under a name; a name it lacks has none. */
  ghost predicate Holds(v: Value, key: string, value: Value) {
    if v.Obj? && exists i :: 0 <= i < |v.fields| && v.fields[i].key == key then
      exists i :: 0 <= i < |v.fields| && v.fields[i] == Field(key, value) && forall j :: 0 <= j < i ==> v.fields[j].key != key
    else value == Undefined
  }

  /** The ids and names of a list of ingredients. */
  ghost predicate Lists(v: Value, rs: seq<Removed>) {
    if v.Arr? then
      && |rs| == |v.items|
      && forall i :: 0 <= i < |rs| ==>
           && (forall id :: Holds(v.items[i], "id", Str(id)) ==> rs[i].id == id)
           && (forall name :: Holds(v.items[i], "name", Str(name)) ==> rs[i].name == name)
    else rs == []
  }

  /** A customised item and a lunch special list the removed ingredients themselves, a combo those
      of its salad, and nothing else lists any. */
  ghost predicate PayloadLists(payload: Option<Value>, rs: seq<Removed>) {
    && (payload.None? ==> rs == [])
    && (payload.Some? ==>
          forall kind | Holds(payload.value, "builder_type", kind) ::
            if kind == Str("ITEM_CUSTOMIZATION") || kind == Str("LUNCH_SPECIAL") then
              forall v :: Holds(payload.value, "removed_ingredients", v) ==> Lists(v, rs)
            else if kind == Str("WING_COMBO") then
              forall salad, v :: Holds(payload.value, "salad_customization", salad) && Holds(salad, "removed_ingredients", v) ==>
                Lists(v, rs)
            else rs == [])
  }

  lemma {:induction false} FieldHeld(fs: seq<Field>, key: string, value: Value)
    requires Holds(Obj(fs), key, value)
    ensures FieldValue(fs, key) == value
  {
    if fs != [] && fs[0].key != key {
      if exists i :: 0 <= i < |fs| && fs[i].key == key {
        var i :| 0 <= i < |fs| && fs[i] == Field(key, value) && forall j :: 0 <= j < i ==> fs[j].key != key;
        assert fs[1..][i - 1] == fs[i];
        assert forall j :: 0 <= j < i - 1 ==> fs[1..][j] == fs[j + 1];
      } else {
        assert forall i :: 0 <= i < |fs[1..]| ==> fs[1..][i] == fs[i + 1];
      }
      FieldHeld(fs[1..], key, value);
    }
  }

  lemma {:induction false} PropertyHeld(v: Value, key: string, value: Value)
    requires Holds(v, key, value)
    ensures Property(v, key) == value
  {
    if v.Obj? { FieldHeld(v.fields, key, value); }
  }

  lemma {:induction false} ListHeld(v: Value)
    ensures Lists(v, RemovedList(v))
  {
    if v.Arr? {
      var rs := RemovedList(v);
      forall i | 0 <= i < |rs|
        ensures forall id :: Holds(v.items[i], "id", Str(id)) ==> rs[i].id == id
        ensures forall name :: Holds(v.items[i], "name", Str(name)) ==> rs[i].name == name
      {
        forall id | Holds(v.items[i], "id", Str(id)) ensures rs[i].id == id { PropertyHeld(v.items[i], "id", Str(id)); }
        forall name | Holds(v.items[i], "name", Str(name)) ensures rs[i].name == name { PropertyHeld(v.items[i], "name", Str(name)); }
      }
    }
  }

  /** The removed ingredients of a line are those it gives, or else those its payload lists. */
  lemma {:induction false} RemovedExactly(line: Line)
    ensures line.removed.Some? && line.removed.value != [] ==> NormalizeRemoved(line) == line.removed.value
    ensures line.removed.None? || line.removed.value == [] ==> PayloadLists(line.payload, NormalizeRemoved(line))
  {
    if (line.removed.None? || line.removed.value == []) && line.payload.Some? {
      var p, rs := line.payload.value, NormalizeRemoved(line);
      hide Holds, Lists, RemovedList;
      forall kind | Holds(p, "builder_type", kind)
        ensures if kind == Str("ITEM_CUSTOMIZATION") || kind == Str("LUNCH_SPECIAL") then
                  forall v :: Holds(p, "removed_ingredients", v) ==> Lists(v, rs)
                else if kind == Str("WING_COMBO") then
                  forall salad, v :: Holds(p, "salad_customization", salad) && Holds(salad, "removed_ingredients", v) ==> Lists(v, rs)
                else rs == []
      {
        PropertyHeld(p, "builder_type", kind);
        forall v | Holds(p, "removed_ingredients", v) ensures Property(p, "removed_ingredients") == v && Lists(v, RemovedList(v)) {
          PropertyHeld(p, "removed_ingredients", v);
          ListHeld(v);
        }
        forall salad, v | Holds(p, "salad_customization", salad) && Holds(salad, "removed_ingredients", v)
          ensures Property(Property(p, "salad_customization"), "removed_ingredients") == v && Lists(v, RemovedList(v))
        {
          PropertyHeld(p, "salad_customization", salad);
          PropertyHeld(salad, "removed_ingredients", v);
          ListHeld(v);
        }
      }
    }
  }

  // ----- lines after an operation

  /** A line put into the cart: the incoming one, its removed ingredients made explicit. */
  ghost predicate PutIn(incoming: Line, line: Line) {
    && line.menuItemId == incoming.menuItemId
    && line.name == incoming.name
    && line.basePriceCents == incoming.basePriceCents
    && line.quantity == incoming.quantity
    && line.modifiers == incoming.modifiers
    && line.instructions == incoming.instructions
    && line.payload == incoming.payload
    && line.imageUrl == incoming.imageUrl
    && line.removed.Some?
    && (if incoming.removed.Some? && incoming.removed.value != [] then line.removed == incoming.removed
        else PayloadLists(incoming.payload, line.removed.value))
  }

  /** An added line met the old one: the incoming one takes over, with both quantities; what it does
      not give stays. */
  ghost predicate TakenOver(old_: Line, incoming: Line, line: Line) {
    && line.menuItemId == incoming.menuItemId
    && line.name == incoming.name
    && line.basePriceCents == incoming.basePriceCents
    && line.quantity == old_.quantity + incoming.quantity
    && line.modifiers == incoming.modifiers
    && line.instructions == incoming.instructions
    && (if incoming.payload.Some? then line.payload == incoming.payload else line.payload == old_.payload)
    && (if incoming.imageUrl.Some? then line.imageUrl == incoming.imageUrl else line.imageUrl == old_.imageUrl)
    && (if incoming.removed.Some? then line.removed == incoming.removed else line.removed == old_.removed)
  }

  /** A replacing line met another: that one stays, with both quantities and a picture if either has one. */
  ghost predicate Grown(old_: Line, incoming: Line, line: Line) {
    && line.menuItemId == old_.menuItemId
    && line.name == old_.name
    && line.basePriceCents == old_.basePriceCents
    && line.quantity == old_.quantity + incoming.quantity
    && line.modifiers == old_.modifiers
    && line.instructions == old_.instructions
    && line.payload == old_.payload
    && line.removed == old_.removed
    && (if old_.imageUrl.Some? then line.imageUrl == old_.imageUrl else line.imageUrl == incoming.imageUrl)
  }

  lemma {:induction false} FreshPutIn(incoming: Line, lc: Collation)
    ensures Fresh(incoming, lc).key == KeyOf(incoming, lc) && PutIn(incoming, Fresh(incoming, lc).line)
  {
    hide PayloadLists, KeyOf;
    RemovedExactly(incoming);
  }

  /** Adding: the first line that computes the incoming one's key is taken over, with all lines stored
      under its key, and every other line stays; without such a line the incoming one is put in last. */
  ghost predicate AddLeaves(items: seq<CartItem>, r: seq<CartItem>, incoming: Line, lc: Collation) {
    if exists e :: 0 <= e < |items| && KeyOf(items[e].line, lc) == KeyOf(incoming, lc) then
      exists e :: 0 <= e < |items| == |r| && FirstOfKey(items, e, KeyOf(incoming, lc), lc)
        && forall i :: 0 <= i < |items| ==>
             if items[i].key == items[e].key
             then r[i].key == items[i].key && TakenOver(items[i].line, incoming, r[i].line)
             else r[i] == items[i]
    else
      && |r| == |items| + 1 && r[..|items|] == items
      && r[|items|].key == KeyOf(incoming, lc) && PutIn(incoming, r[|items|].line)
  }

  lemma {:induction false} AddedLines(items: seq<CartItem>, incoming: Line, lc: Collation)
    ensures AddLeaves(items, Step(items, Add(incoming), lc), incoming, lc)
  {
    hide KeyOf, PutIn;
    FreshPutIn(incoming, lc);
    FirstRecomputed(items, KeyOf(incoming, lc), lc);
    var existing := FindByRecomputed(items, KeyOf(incoming, lc), lc);
    if existing.Some? {
      assert FirstOfKey(items, existing.value, KeyOf(incoming, lc), lc);
    }
  }

  ghost predicate FirstOfKey(items: seq<CartItem>, e: nat, key: string, lc: Collation) {
    e < |items| && KeyOf(items[e].line, lc) == key && forall i :: 0 <= i < e ==> KeyOf(items[i].line, lc) != key
  }

  lemma {:induction false} FirstRecomputed(items: seq<CartItem>, key: string, lc: Collation)
    ensures var r := FindByRecomputed(items, key, lc); r.Some? ==> FirstOfKey(items, r.value, key, lc)
  {
    hide KeyOf;
    if items != [] && KeyOf(items[0].line, lc) != key {
      FirstRecomputed(items[1..], key, lc);
      var r := FindByRecomputed(items[1..], key, lc);
      if r.Some? {
        forall i | 0 <= i < r.value + 1 ensures KeyOf(items[i].line, lc) != key {
          assert i > 0 ==> items[1..][i - 1] == items[i];
        }
      }
    }
  }

  /** The line of `others` that is stored under the incoming one's key has grown, all others are as they were. */
  ghost predicate OneGrown(others: seq<CartItem>, r: seq<CartItem>, key: string, incoming: Line) {
    exists c :: 0 <= c < |others| == |r| && others[c].key == key
      && r[c].key == key && Grown(others[c].line, incoming, r[c].line)
      && forall i :: 0 <= i < |others| && i != c ==> r[i] == others[i]
  }

  /** The incoming line is put in where the line of `existingKey` was, or last; all others are as they were. */
  ghost predicate OnePutIn(items: seq<CartItem>, existingKey: string, others: seq<CartItem>, r: seq<CartItem>, key: string, incoming: Line) {
    exists n :: 0 <= n <= |others| == |r| - 1
      && (forall i :: 0 <= i < |items| && items[i].key == existingKey ==> n == i)
      && ((forall i :: 0 <= i < |items| ==> items[i].key != existingKey) ==> n == |others|)
      && r[..n] == others[..n] && r[n + 1..] == others[n..]
      && r[n].key == key && PutIn(incoming, r[n].line)
  }

  /** Replacing: the line stored under the given key goes. A line stored under the incoming one's key
      grows; otherwise the incoming one is put in, where the old one was or last. Every other line stays,
      in its order. */
  ghost predicate ReplaceLeaves(items: seq<CartItem>, r: seq<CartItem>, existingKey: string, incoming: Line, lc: Collation) {
    var key, others := KeyOf(incoming, lc), Others(items, existingKey);
    if exists c :: 0 <= c < |others| && others[c].key == key then OneGrown(others, r, key, incoming)
    else OnePutIn(items, existingKey, others, r, key, incoming)
  }

  lemma {:induction false} ReplacedLines(items: seq<CartItem>, existingKey: string, incoming: Line, lc: Collation)
    requires Distinct(items)
    ensures ReplaceLeaves(items, Step(items, Replace(existingKey, incoming), lc), existingKey, incoming, lc)
  {
    hide KeyOf, PutIn, Fresh, Absorb, OneGrown, OnePutIn, Others;
    OthersExact(items, existingKey);
    var others, key := FilterOut(items, existingKey), KeyOf(incoming, lc);
    var collision := FindByKey(others, key);
    if collision.Some? {
      GrownAt(others, collision.value, key, incoming);
    } else {
      PutInAt(items, existingKey, incoming, lc);
    }
  }

  lemma {:induction false} GrownAt(others: seq<CartItem>, c: nat, key: string, incoming: Line)
    requires c < |others| && others[c].key == key
    ensures OneGrown(others, others[c := Keyed(others[c].key, Absorb(others[c].line, incoming))], key, incoming)
  {
    var r := others[c := Keyed(others[c].key, Absorb(others[c].line, incoming))];
    assert r[c].key == key && Grown(others[c].line, incoming, r[c].line);
  }

  lemma {:induction false} PutInAt(items: seq<CartItem>, existingKey: string, incoming: Line, lc: Collation)
    requires Distinct(items)
    ensures var original, others := FindByKey(items, existingKey), Others(items, existingKey);
            OnePutIn(items, existingKey, others,
                     if original.None? then others + [Fresh(incoming, lc)] else Spliced(others, original.value, Fresh(incoming, lc)),
                     KeyOf(incoming, lc), incoming)
  {
    hide KeyOf, PutIn, Fresh;
    FreshPutIn(incoming, lc);
    OriginalFits(items, existingKey);
    var original, others, item := FindByKey(items, existingKey), Others(items, existingKey), Fresh(incoming, lc);
    var n := if original.None? then |others| else original.value;
    var r := others[..n] + [item] + others[n..];
    assert others + [item] == others[..|others|] + [item] + others[|others|..];
    assert r[..n] == others[..n] && r[n + 1..] == others[n..] && r[n] == item;
    hide Others;
  }

  /** The cart without the line of a key. */
  function Others(items: seq<CartItem>, key: string): seq<CartItem> {
    var found := FindByKey(items, key);
    if found.None? then items else items[..found.value] + items[found.value + 1..]
  }

  lemma {:induction false} OthersExact(items: seq<CartItem>, key: string)
    requires Distinct(items)
    ensures FilterOut(items, key) == Others(items, key)
  {
    var found := FindByKey(items, key);
    if found.Some? { FilterOutAt(items, found.value); } else { FilterOutKeeps(items, key); }
  }

  lemma {:induction false} OriginalFits(items: seq<CartItem>, key: string)
    requires Distinct(items)
    ensures var found := FindByKey(items, key); found.Some? ==> found.value <= |Others(items, key)|
    ensures var found := FindByKey(items, key); found.Some? ==> forall i :: 0 <= i < |items| && items[i].key == key ==> i == found.value
  {
  }

  /** Removing and giving a quantity: the line of the key goes or gets the quantity, and nothing else
      changes. */
  lemma {:induction false} UpdatedLines(items: seq<CartItem>, key: string, quantity: int, lc: Collation)
    requires Distinct(items)
    ensures Step(items, Remove(key), lc) == Others(items, key)
    ensures quantity <= 0 ==> Step(items, UpdateQuantity(key, quantity), lc) == Others(items, key)
    ensures quantity > 0 ==>
              var r := Step(items, UpdateQuantity(key, quantity), lc);
              |r| == |items| && forall i :: 0 <= i < |items| ==>
                if items[i].key == key
                then r[i].key == key && r[i].line.quantity == quantity && r[i].line == items[i].line.(quantity := quantity)
                else r[i] == items[i]
  {
    OthersExact(items, key);
  }
}
