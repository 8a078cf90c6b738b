/** The cart lines and the four operations on them (apps/application/src/context/cart.tsx).
    Main result: the list of lines behaves as a map from configuration to quantity. */
module Cart {
  import opened Sorting
  import opened Strings
  import opened JsonText
  import opened CanonicalPayload
  import opened CartKey
  import opened KeyedLists

  /** A cart line without its key. An absent optional property is `None`. */
  datatype Line = Line(
    menuItemId: string,
    modifiers: seq<Modifier>,
    instructions: string,
    removed: Option<seq<Removed>>,
    payload: Option<Value>,
    quantity: int,
    imageUrl: Option<string>,
    name: string,
    basePriceCents: int)

  type CartItem = Keyed<Line>

  datatype Op =
    | Add(line: Line)
    | Replace(existingKey: string, line: Line)
    | Remove(key: string)
    | UpdateQuantity(key: string, quantity: int)

  // ----- the configuration of a line

  function FieldValue(fs: seq<Field>, key: string): Value {
    if fs == [] then Undefined
    else if fs[0].key == key then fs[0].value
    else FieldValue(fs[1..], key)
  }

  function Property(v: Value, key: string): Value {
    if v.Obj? then FieldValue(v.fields, key) else Undefined
  }

  function TextOf(v: Value): string {
    if v.Str? then v.s else ""
  }

  function RemovedList(v: Value): seq<Removed> {
    if v.Arr? then
      seq(|v.items|, i requires 0 <= i < |v.items| =>
        Removed(TextOf(Property(v.items[i], "id")), TextOf(Property(v.items[i], "name"))))
    else []
  }

  function RemovedFromPayload(payload: Option<Value>): seq<Removed> {
    if payload.None? then []
    else
      var kind := Property(payload.value, "builder_type");
      if kind == Str("ITEM_CUSTOMIZATION") || kind == Str("LUNCH_SPECIAL") then
        RemovedList(Property(payload.value, "removed_ingredients"))
      else if kind == Str("WING_COMBO") then
        RemovedList(Property(Property(payload.value, "salad_customization"), "removed_ingredients"))
      else []
  }

  function NormalizeRemoved(line: Line): seq<Removed> {
    if line.removed.Some? && line.removed.value != [] then line.removed.value
    else RemovedFromPayload(line.payload)
  }

  function ConfigurationOf(line: Line): Configuration {
    Configuration(line.menuItemId, line.modifiers, line.instructions, NormalizeRemoved(line), line.payload)
  }

  function KeyOf(line: Line, lc: Collation): string {
    CartItemKey(ConfigurationOf(line), lc)
  }

  // ----- list operations

  /** `find` by the key recomputed from each line. */
  function FindByRecomputed(items: seq<CartItem>, key: string, lc: Collation): (r: Option<nat>)
    ensures r.Some? ==> r.value < |items| && KeyOf(items[r.value].line, lc) == key
    ensures r.None? ==> forall i :: 0 <= i < |items| ==> KeyOf(items[i].line, lc) != key
  {
    hide KeyOf;
    if items == [] then None
    else if KeyOf(items[0].line, lc) == key then Some(0)
    else
      var r := FindByRecomputed(items[1..], key, lc);
      if r.Some? then Some(r.value + 1) else None
  }

  /** `{...item, ...incoming, quantity, image_url}`. */
  function Merge(line: Line, incoming: Line): Line {
    incoming.(
      removed := if incoming.removed.Some? then incoming.removed else line.removed,
      payload := if incoming.payload.Some? then incoming.payload else line.payload,
      quantity := line.quantity + incoming.quantity,
      imageUrl := if incoming.imageUrl.Some? then incoming.imageUrl else line.imageUrl)
  }

  function Fresh(incoming: Line, lc: Collation): CartItem {
    Keyed(KeyOf(incoming, lc), incoming.(removed := Some(NormalizeRemoved(incoming))))
  }

  function MergeAt(items: seq<CartItem>, key: string, incoming: Line): (r: seq<CartItem>)
    ensures |r| == |items|
    ensures forall i :: 0 <= i < |items| ==>
              r[i] == if items[i].key == key then Keyed(items[i].key, Merge(items[i].line, incoming)) else items[i]
  {
    seq(|items|, i requires 0 <= i < |items| =>
      if items[i].key == key then Keyed(items[i].key, Merge(items[i].line, incoming)) else items[i])
  }

  function Added(items: seq<CartItem>, incoming: Line, lc: Collation): seq<CartItem> {
    var existing := FindByRecomputed(items, KeyOf(incoming, lc), lc);
    if existing.Some? then MergeAt(items, items[existing.value].key, incoming)
    else items + [Fresh(incoming, lc)]
  }

  /** The colliding line keeps everything but its quantity and a missing picture. */
  function Absorb(line: Line, incoming: Line): Line {
    line.(
      quantity := line.quantity + incoming.quantity,
      imageUrl := if line.imageUrl.Some? then line.imageUrl else incoming.imageUrl)
  }

  function Replaced(items: seq<CartItem>, existingKey: string, incoming: Line, lc: Collation): seq<CartItem> {
    var others := FilterOut(items, existingKey);
    var collision := FindByKey(others, KeyOf(incoming, lc));
    if collision.Some? then
      var hit := others[collision.value];
      others[collision.value := Keyed(hit.key, Absorb(hit.line, incoming))]
    else
      var original := FindByKey(items, existingKey);
      if original.None? then others + [Fresh(incoming, lc)]
      else Spliced(others, original.value, Fresh(incoming, lc))
  }

  function WithQuantity(items: seq<CartItem>, key: string, quantity: int): (r: seq<CartItem>)
    ensures |r| == |items|
    ensures forall i :: 0 <= i < |items| ==>
              r[i] == if items[i].key == key then items[i].(line := items[i].line.(quantity := quantity)) else items[i]
  {
    seq(|items|, i requires 0 <= i < |items| =>
      if items[i].key == key then items[i].(line := items[i].line.(quantity := quantity)) else items[i])
  }

  function Step(items: seq<CartItem>, op: Op, lc: Collation): seq<CartItem> {
    match op
    case Add(line) => Added(items, line, lc)
    case Replace(existingKey, line) => Replaced(items, existingKey, line, lc)
    case Remove(key) => FilterOut(items, key)
    case UpdateQuantity(key, quantity) =>
      if quantity <= 0 then FilterOut(items, key) else WithQuantity(items, key, quantity)
  }

  // ----- the map the list stands for

  function QuantitiesOf(m: map<string, Line>): map<string, int> {
    map k | k in m :: m[k].quantity
  }

  function Quantities(items: seq<CartItem>): map<string, int> {
    QuantitiesOf(Contents(items))
  }

  lemma {:induction false} QuantitiesOfUpdate(m: map<string, Line>, key: string, line: Line)
    ensures QuantitiesOf(m[key := line]) == QuantitiesOf(m)[key := line.quantity]
  {
  }

  lemma {:induction false} QuantitiesOfRemoval(m: map<string, Line>, key: string)
    ensures QuantitiesOf(m - {key}) == QuantitiesOf(m) - {key}
  {
  }

  function MapAdd(m: map<string, int>, key: string, quantity: int): map<string, int> {
    m[key := quantity + if key in m then m[key] else 0]
  }

  function MapStep(m: map<string, int>, op: Op, lc: Collation): map<string, int> {
    match op
    case Add(line) => MapAdd(m, KeyOf(line, lc), line.quantity)
    case Replace(existingKey, line) => MapAdd(m - {existingKey}, KeyOf(line, lc), line.quantity)
    case Remove(key) => m - {key}
    case UpdateQuantity(key, quantity) =>
      if quantity <= 0 then m - {key} else if key in m then m[key := quantity] else m
  }

  // ----- the invariant

  /** The stored key is the one the line computes, and the quantity is positive. */
  ghost predicate Canonised(item: CartItem, lc: Collation) {
    item.key == KeyOf(item.line, lc) && Sellable(item.line)
  }

  /** A positive quantity, and a payload that is an object if there is one. */
  ghost predicate Sellable(line: Line) {
    line.quantity > 0 && PayloadIsObject(line.payload)
  }

  ghost predicate Valid(items: seq<CartItem>, lc: Collation) {
    Distinct(items) && forall x :: x in items ==> Canonised(x, lc)
  }

  /** What the operations are given. */
  ghost predicate Acceptable(op: Op) {
    match op
    case Add(line) => Sellable(line)
    case Replace(_, line) => Sellable(line)
    case _ => true
  }

  /** The identifiers of the removed ingredients, as they stand in the key. */
  function RemovedText(line: Line): string {
    IdsText(RemovedIds(NormalizeRemoved(line)))
  }

  /** What `incoming` leaves out of the removed ingredients says the same in `line`. */
  predicate Compatible(line: Line, incoming: Line) {
    incoming.removed.Some? || line.removed.None? || line.removed.value == [] || RemovedText(line) == RemovedText(incoming)
  }

  /** The operation is no addition, or the line it is merged into is compatible. */
  predicate Safe(items: seq<CartItem>, op: Op, lc: Collation) {
    op.Add? ==>
      var existing := FindByRecomputed(items, KeyOf(op.line, lc), lc);
      existing.Some? ==> Compatible(items[existing.value].line, op.line)
  }

  lemma {:induction false} FreshLine(incoming: Line, lc: Collation)
    requires Sellable(incoming)
    ensures Canonised(Fresh(incoming, lc), lc)
  {
    assert ConfigurationOf(Fresh(incoming, lc).line) == ConfigurationOf(incoming);
  }

  /** Quantity and picture are no part of a configuration. */
  lemma {:induction false} SameConfigurationKept(item: CartItem, line: Line, lc: Collation)
    requires Canonised(item, lc) && line.quantity > 0
    requires line == item.line.(quantity := line.quantity, imageUrl := line.imageUrl)
    ensures Canonised(Keyed(item.key, line), lc)
  {
    assert ConfigurationOf(line) == ConfigurationOf(item.line);
  }

  /** Merging a line into one that computes the same key: the payload is the incoming one's, and the
      key stays the same exactly when the lines are compatible. */
  lemma {:induction false} MergeKeepsKeyExactly(line: Line, incoming: Line, lc: Collation)
    requires PayloadIsObject(line.payload) && PayloadIsObject(incoming.payload) && KeyOf(incoming, lc) == KeyOf(line, lc)
    ensures Merge(line, incoming).payload == incoming.payload
    ensures KeyOf(Merge(line, incoming), lc) == KeyOf(line, lc) <==> Compatible(line, incoming)
  {
    var c, d, merged := ConfigurationOf(line), ConfigurationOf(incoming), Merge(line, incoming);
    KeyTail(c, d, lc);
    PayloadTextOfObject(c.payload, lc);
    PayloadTextOfObject(d.payload, lc);
    assert merged.payload == incoming.payload;
    assert ConfigurationOf(merged) == d.(removed := NormalizeRemoved(merged));
    assert RemovedText(merged) == if incoming.removed.Some? || line.removed.None? || line.removed.value == []
                                  then RemovedText(incoming) else RemovedText(line);
    KeyByRemoved(d, NormalizeRemoved(merged), lc);
  }

  // ----- one operation

  /** Rewriting a line under its key updates that key's quantity. */
  lemma {:induction false} ChangedLine(items: seq<CartItem>, n: nat, line: Line, lc: Collation)
    requires Valid(items, lc) && n < |items| && Canonised(Keyed(items[n].key, line), lc)
    ensures var r := items[n := Keyed(items[n].key, line)];
            Valid(r, lc) && Quantities(r) == Quantities(items)[items[n].key := line.quantity]
  {
    hide Canonised, Contents, QuantitiesOf;
    ChangeRefines(items, n, line);
    ChangedMembers(items, n, Keyed(items[n].key, line));
    QuantitiesOfUpdate(Contents(items), items[n].key, line);
  }

  /** A line under a new key adds that key's quantity. */
  lemma {:induction false} InsertedLine(items: seq<CartItem>, n: nat, item: CartItem, lc: Collation)
    requires Valid(items, lc) && n <= |items| && Canonised(item, lc)
    requires forall i :: 0 <= i < |items| ==> items[i].key != item.key
    ensures var r := items[..n] + [item] + items[n..];
            Valid(r, lc) && Quantities(r) == Quantities(items)[item.key := item.line.quantity]
  {
    hide Canonised, Contents, QuantitiesOf;
    InsertRefines(items, n, item);
    InsertedMembers(items, n, item);
    QuantitiesOfUpdate(Contents(items), item.key, item.line);
  }

  lemma {:induction false} FilteredLines(items: seq<CartItem>, key: string, lc: Collation)
    requires Valid(items, lc)
    ensures Valid(FilterOut(items, key), lc)
    ensures Quantities(FilterOut(items, key)) == Quantities(items) - {key}
  {
    hide Canonised, Contents, QuantitiesOf;
    FilterOutRefines(items, key);
    QuantitiesOfRemoval(Contents(items), key);
  }

  /** A valid line's own entry. */
  lemma {:induction false} LineAt(items: seq<CartItem>, n: nat, lc: Collation)
    requires Valid(items, lc) && n < |items|
    ensures Canonised(items[n], lc) && Sellable(items[n].line) && items[n].key == KeyOf(items[n].line, lc) && items[n].line.quantity > 0
    ensures items[n].key in Quantities(items) && Quantities(items)[items[n].key] == items[n].line.quantity
  {
    hide KeyOf, PayloadIsObject;
    assert items[n] in items;
    ContentsAt(items, n);
  }

  lemma {:induction false} AbsentKey(items: seq<CartItem>, key: string)
    requires forall i :: 0 <= i < |items| ==> items[i].key != key
    ensures key !in Quantities(items)
  {
  }

  lemma {:induction false} MergeAtOne(items: seq<CartItem>, e: nat, incoming: Line)
    requires Distinct(items) && e < |items|
    ensures MergeAt(items, items[e].key, incoming) == items[e := Keyed(items[e].key, Merge(items[e].line, incoming))]
  {
  }

  /** Where the stored keys are right, searching by recomputed keys is searching by keys. */
  lemma {:induction false} NoRecomputedMatch(items: seq<CartItem>, key: string, lc: Collation)
    requires Valid(items, lc) && forall i :: 0 <= i < |items| ==> KeyOf(items[i].line, lc) != key
    ensures forall i :: 0 <= i < |items| ==> items[i].key != key
  {
    hide KeyOf, Sellable;
    forall i | 0 <= i < |items| ensures items[i].key != key {
      LineAt(items, i, lc);
    }
  }

  lemma {:induction false} AddRefines(items: seq<CartItem>, incoming: Line, lc: Collation)
    requires Valid(items, lc) && Sellable(incoming) && Safe(items, Add(incoming), lc)
    ensures Valid(Added(items, incoming, lc), lc)
    ensures Quantities(Added(items, incoming, lc)) == MapAdd(Quantities(items), KeyOf(incoming, lc), incoming.quantity)
  {
    hide KeyOf, Sellable, Compatible, Quantities, Canonised, Valid;
    var key := KeyOf(incoming, lc);
    var existing := FindByRecomputed(items, key, lc);
    assert Distinct(items) by { ValidDistinct(items, lc); }
    if existing.Some? {
      var e := existing.value;
      LineAt(items, e, lc);
      MergeAtOne(items, e, incoming);
      MergedCanonised(items[e], incoming, lc);
      ChangedLine(items, e, Merge(items[e].line, incoming), lc);
    } else {
      var item := Fresh(incoming, lc);
      FreshLine(incoming, lc);
      NoRecomputedMatch(items, key, lc);
      AbsentKey(items, key);
      InsertedLine(items, |items|, item, lc);
      assert items + [item] == items[..|items|] + [item] + items[|items|..];
    }
  }

  lemma {:induction false} MergedCanonised(item: CartItem, incoming: Line, lc: Collation)
    requires Canonised(item, lc) && Sellable(incoming) && KeyOf(incoming, lc) == item.key
    ensures Canonised(Keyed(item.key, Merge(item.line, incoming)), lc) <==> Compatible(item.line, incoming)
  {
    hide KeyOf, Compatible;
    MergeKeepsKeyExactly(item.line, incoming, lc);
  }

  /** Adding keeps the lines valid exactly when it is safe. */
  lemma {:induction false} AddKeepsExactly(items: seq<CartItem>, incoming: Line, lc: Collation)
    requires Valid(items, lc) && Sellable(incoming)
    ensures Valid(Added(items, incoming, lc), lc) <==> Safe(items, Add(incoming), lc)
  {
    hide KeyOf, Sellable, Compatible, Canonised;
    var existing := FindByRecomputed(items, KeyOf(incoming, lc), lc);
    if Safe(items, Add(incoming), lc) {
      AddRefines(items, incoming, lc);
    } else {
      var e := existing.value;
      LineAt(items, e, lc);
      MergeAtOne(items, e, incoming);
      MergedCanonised(items[e], incoming, lc);
      var r := Added(items, incoming, lc);
      assert r[e] in r && r[e] == Keyed(items[e].key, Merge(items[e].line, incoming));
    }
  }

  lemma {:induction false} ValidDistinct(items: seq<CartItem>, lc: Collation)
    requires Valid(items, lc)
    ensures Distinct(items)
  {
  }

  lemma {:induction false} AbsorbedCanonised(item: CartItem, incoming: Line, lc: Collation)
    requires Canonised(item, lc) && Sellable(incoming)
    ensures Canonised(Keyed(item.key, Absorb(item.line, incoming)), lc)
  {
    hide KeyOf, PayloadIsObject;
    SameConfigurationKept(item, Absorb(item.line, incoming), lc);
  }

  lemma {:induction false} ReplaceRefines(items: seq<CartItem>, existingKey: string, incoming: Line, lc: Collation)
    requires Valid(items, lc) && Acceptable(Replace(existingKey, incoming))
    ensures Valid(Replaced(items, existingKey, incoming, lc), lc)
    ensures Quantities(Replaced(items, existingKey, incoming, lc))
            == MapAdd(Quantities(items) - {existingKey}, KeyOf(incoming, lc), incoming.quantity)
  {
    hide KeyOf, Sellable, Quantities, Canonised, Valid;
    var others, key, item := FilterOut(items, existingKey), KeyOf(incoming, lc), Fresh(incoming, lc);
    FilteredLines(items, existingKey, lc);
    FreshLine(incoming, lc);
    var collision := FindByKey(others, key);
    if collision.Some? {
      var hit := others[collision.value];
      LineAt(others, collision.value, lc);
      AbsorbedCanonised(hit, incoming, lc);
      ChangedLine(others, collision.value, Absorb(hit.line, incoming), lc);
    } else {
      var original := FindByKey(items, existingKey);
      var at := if original.None? || original.value > |others| then |others| else original.value;
      AbsentKey(others, key);
      InsertedLine(others, at, item, lc);
      assert others + [item] == others[..|others|] + [item] + others[|others|..];
    }
  }

  /** Editing a line into a configuration that no other line has leaves every line,
      including the edited one, where it stood. */
  lemma {:induction false} ReplaceKeepsPosition(items: seq<CartItem>, n: nat, incoming: Line, lc: Collation)
    requires Valid(items, lc) && n < |items|
    requires forall i :: 0 <= i < |items| && i != n ==> items[i].key != KeyOf(incoming, lc)
    ensures Replaced(items, items[n].key, incoming, lc) == items[n := Fresh(incoming, lc)]
  {
    hide KeyOf, Valid, Fresh, Spliced, FilterOut, Distinct;
    var key, x := items[n].key, Fresh(incoming, lc);
    ValidDistinct(items, lc);
    FilterOutAt(items, n);
    FoundAt(items, n);
    SplicedAt(items, n, x);
    var others := items[..n] + items[n + 1..];
    assert forall i :: 0 <= i < |others| ==> others[i] == items[if i < n then i else i + 1];
    assert FindByKey(others, KeyOf(incoming, lc)).None?;
  }

  lemma {:induction false} FoundAt(items: seq<CartItem>, n: nat)
    requires Distinct(items) && n < |items|
    ensures FindByKey(items, items[n].key) == Some(n)
  {
  }

  lemma {:induction false} SplicedAt(items: seq<CartItem>, n: nat, x: CartItem)
    requires n < |items|
    ensures Spliced(items[..n] + items[n + 1..], n, x) == items[n := x]
  {
    var others := items[..n] + items[n + 1..];
    assert others[..n] == items[..n] && others[n..] == items[n + 1..];
  }

  lemma {:induction false} UpdateRefines(items: seq<CartItem>, key: string, quantity: int, lc: Collation)
    requires Valid(items, lc)
    ensures Valid(Step(items, UpdateQuantity(key, quantity), lc), lc)
    ensures Quantities(Step(items, UpdateQuantity(key, quantity), lc))
            == MapStep(Quantities(items), UpdateQuantity(key, quantity), lc)
  {
    hide KeyOf, Sellable, Quantities, Canonised, Valid;
    FilteredLines(items, key, lc);
    var found := FindByKey(items, key);
    assert Distinct(items) by { ValidDistinct(items, lc); }
    if quantity > 0 && found.Some? {
      var n := found.value;
      var line := items[n].line.(quantity := quantity);
      LineAt(items, n, lc);
      SameConfigurationKept(items[n], line, lc);
      ChangedLine(items, n, line, lc);
      assert WithQuantity(items, key, quantity) == items[n := Keyed(key, line)];
    } else if quantity > 0 {
      AbsentKey(items, key);
      assert WithQuantity(items, key, quantity) == items;
    }
  }

  /** Every safe operation keeps the lines valid and acts on the map they stand for. */
  lemma {:induction false} StepRefines(items: seq<CartItem>, op: Op, lc: Collation)
    requires Valid(items, lc) && Acceptable(op) && Safe(items, op, lc)
    ensures Valid(Step(items, op, lc), lc)
    ensures Quantities(Step(items, op, lc)) == MapStep(Quantities(items), op, lc)
  {
    hide KeyOf, Sellable, Quantities, Canonised, Valid, Added, Replaced;
    match op
    case Add(line) => AddRefines(items, line, lc);
    case Replace(existingKey, line) => ReplaceRefines(items, existingKey, line, lc);
    case Remove(key) => FilteredLines(items, key, lc);
    case UpdateQuantity(key, quantity) => UpdateRefines(items, key, quantity, lc);
  }

  lemma {:induction false} StepKeepsExactly(items: seq<CartItem>, op: Op, lc: Collation)
    requires Valid(items, lc) && Acceptable(op)
    ensures Valid(Step(items, op, lc), lc) <==> Safe(items, op, lc)
  {
    hide KeyOf, Sellable, Quantities, Canonised, Valid, Added, Replaced;
    if op.Add? {
      AddKeepsExactly(items, op.line, lc);
    } else {
      StepRefines(items, op, lc);
    }
  }

  // ----- whole runs

  function Run(ops: seq<Op>, lc: Collation): seq<CartItem> {
    if ops == [] then [] else Step(Run(ops[..|ops| - 1], lc), ops[|ops| - 1], lc)
  }

  function MapRun(ops: seq<Op>, lc: Collation): map<string, int> {
    if ops == [] then map[] else MapStep(MapRun(ops[..|ops| - 1], lc), ops[|ops| - 1], lc)
  }

  ghost predicate AllAcceptable(ops: seq<Op>) {
    forall k :: 0 <= k < |ops| ==> Acceptable(ops[k])
  }

  /** Every addition of the run merges, if at all, into a compatible line. */
  predicate AllSafe(ops: seq<Op>, lc: Collation) {
    forall k :: 0 <= k < |ops| ==> Safe(Run(ops[..k], lc), ops[k], lc)
  }

  lemma {:induction false} EarlierSafe(ops: seq<Op>, lc: Collation)
    requires ops != []
    ensures AllSafe(ops, lc) <==> AllSafe(ops[..|ops| - 1], lc) && Safe(Run(ops[..|ops| - 1], lc), ops[|ops| - 1], lc)
  {
    hide Safe, Run;
    var init := ops[..|ops| - 1];
    assert forall k :: 0 <= k < |init| ==> init[..k] == ops[..k] && init[k] == ops[k];
    assert AllSafe(ops, lc) ==> Safe(Run(ops[..|ops| - 1], lc), ops[|ops| - 1], lc);
    if AllSafe(init, lc) && Safe(Run(init, lc), ops[|ops| - 1], lc) {
      forall k | 0 <= k < |ops| ensures Safe(Run(ops[..k], lc), ops[k], lc) {
        assert k < |init| ==> Safe(Run(init[..k], lc), init[k], lc);
      }
    }
  }

  /** From the empty cart, any safe sequence of operations keeps the lines valid and arrives
      at the map that the same operations build. */
  lemma {:induction false} RunRefines(ops: seq<Op>, lc: Collation)
    requires AllAcceptable(ops) && AllSafe(ops, lc)
    ensures Valid(Run(ops, lc), lc)
    ensures Quantities(Run(ops, lc)) == MapRun(ops, lc)
  {
    hide Acceptable, Quantities, Valid, Step, MapStep, Safe, AllSafe;
    if ops == [] {
      EmptyCart(lc);
    } else {
      EarlierSafe(ops, lc);
      RunRefines(ops[..|ops| - 1], lc);
      StepRefines(Run(ops[..|ops| - 1], lc), ops[|ops| - 1], lc);
    }
  }

  lemma {:induction false} EmptyCart(lc: Collation)
    ensures Valid([], lc) && Quantities([]) == map[]
  {
  }

  /** A run is safe exactly when it goes through valid carts only. */
  lemma {:induction false} RunValidExactly(ops: seq<Op>, lc: Collation)
    requires AllAcceptable(ops)
    ensures AllSafe(ops, lc) <==> forall k :: 0 <= k <= |ops| ==> Valid(Run(ops[..k], lc), lc)
  {
    hide Acceptable, Quantities, Valid, Step, Safe, AllSafe;
    if ops == [] {
      EmptyCart(lc);
      assert AllSafe([], lc) by { NothingSafe(lc); }
    } else {
      var init := ops[..|ops| - 1];
      assert ops[..|ops|] == ops;
      assert forall k :: 0 <= k <= |init| ==> init[..k] == ops[..k];
      EarlierSafe(ops, lc);
      RunValidExactly(init, lc);
      assert init[..|init|] == init;
      if Valid(Run(init, lc), lc) {
        StepKeepsExactly(Run(init, lc), ops[|ops| - 1], lc);
      }
      if AllSafe(ops, lc) {
        forall k | 0 <= k <= |ops| ensures Valid(Run(ops[..k], lc), lc) {
          assert k < |ops| ==> Valid(Run(init[..k], lc), lc);
        }
      }
    }
  }

  lemma {:induction false} NothingSafe(lc: Collation)
    ensures AllSafe([], lc)
  {
  }

  // ----- runs that are safe

  /** All additions give the removed ingredients. */
  predicate AllGiveRemoved(ops: seq<Op>) {
    forall k :: 0 <= k < |ops| && ops[k].Add? ==> ops[k].line.removed.Some?
  }

  ghost predicate BarlessLine(line: Line) {
    Barless(ConfigurationOf(line))
  }

  /** No identifier of any line holds a bar. */
  ghost predicate AllBarless(ops: seq<Op>) {
    forall k :: 0 <= k < |ops| && (ops[k].Add? || ops[k].Replace?) ==> BarlessLine(ops[k].line)
  }

  ghost predicate BarlessCart(items: seq<CartItem>) {
    forall x :: x in items ==> BarlessLine(x.line)
  }

  lemma {:induction false} BarlessMerge(line: Line, incoming: Line)
    requires BarlessLine(line) && BarlessLine(incoming) && Merge(line, incoming).payload == incoming.payload
    ensures BarlessLine(Merge(line, incoming))
  {
    var merged := Merge(line, incoming);
    assert NormalizeRemoved(merged) == NormalizeRemoved(incoming) || NormalizeRemoved(merged) == NormalizeRemoved(line);
  }

  lemma {:induction false} BarlessFresh(incoming: Line, lc: Collation)
    requires BarlessLine(incoming)
    ensures BarlessLine(Fresh(incoming, lc).line)
  {
    assert ConfigurationOf(Fresh(incoming, lc).line) == ConfigurationOf(incoming);
  }

  /** Quantity and picture are no identifiers. */
  lemma {:induction false} BarlessKept(line: Line, quantity: int, imageUrl: Option<string>)
    requires BarlessLine(line)
    ensures BarlessLine(line.(quantity := quantity, imageUrl := imageUrl))
  {
    assert ConfigurationOf(line.(quantity := quantity, imageUrl := imageUrl)) == ConfigurationOf(line);
  }

  lemma {:induction false} BarlessFiltered(items: seq<CartItem>, key: string)
    requires BarlessCart(items)
    ensures BarlessCart(FilterOut(items, key))
  {
    hide BarlessLine;
    if items != [] {
      BarlessFiltered(items[1..], key);
    }
  }

  lemma {:induction false} BarlessAdded(items: seq<CartItem>, incoming: Line, lc: Collation)
    requires Valid(items, lc) && BarlessCart(items) && BarlessLine(incoming)
    ensures BarlessCart(Added(items, incoming, lc)) && Safe(items, Add(incoming), lc)
  {
    hide BarlessLine, KeyOf, Valid, Merge, Fresh, Compatible;
    var existing := FindByRecomputed(items, KeyOf(incoming, lc), lc);
    BarlessFresh(incoming, lc);
    if existing.Some? {
      assert items[existing.value] in items;
      LineAt(items, existing.value, lc);
      MergeAtOne(items, existing.value, incoming) by { ValidDistinct(items, lc); }
      BarlessMerged(items[existing.value].line, incoming, lc);
    }
  }

  lemma {:induction false} BarlessMerged(line: Line, incoming: Line, lc: Collation)
    requires BarlessLine(line) && BarlessLine(incoming) && KeyOf(incoming, lc) == KeyOf(line, lc)
    ensures BarlessLine(Merge(line, incoming)) && Compatible(line, incoming)
  {
    assert PayloadIsObject(line.payload) && PayloadIsObject(incoming.payload);
    hide KeyOf, BarlessLine, Compatible, PayloadIsObject, Merge;
    MergeKeepsKeyExactly(line, incoming, lc);
    BarlessMerge(line, incoming);
    BarlessCompatible(line, incoming, lc);
  }

  lemma {:induction false} BarlessReplaced(items: seq<CartItem>, existingKey: string, incoming: Line, lc: Collation)
    requires BarlessCart(items) && BarlessLine(incoming)
    ensures BarlessCart(Replaced(items, existingKey, incoming, lc))
  {
    hide BarlessLine, KeyOf, Fresh;
    var others := FilterOut(items, existingKey);
    BarlessFiltered(items, existingKey);
    BarlessFresh(incoming, lc);
    var collision := FindByKey(others, KeyOf(incoming, lc));
    if collision.Some? {
      var hit := others[collision.value].line;
      assert others[collision.value] in others;
      BarlessKept(hit, hit.quantity + incoming.quantity, if hit.imageUrl.Some? then hit.imageUrl else incoming.imageUrl);
    }
  }

  lemma {:induction false} BarlessUpdated(items: seq<CartItem>, key: string, quantity: int)
    requires BarlessCart(items)
    ensures BarlessCart(WithQuantity(items, key, quantity))
  {
    hide BarlessLine;
    var r := WithQuantity(items, key, quantity);
    forall i | 0 <= i < |r| ensures BarlessLine(r[i].line) {
      assert items[i] in items;
      BarlessKept(items[i].line, quantity, items[i].line.imageUrl);
    }
  }

  lemma {:induction false} BarlessStep(items: seq<CartItem>, op: Op, lc: Collation)
    requires Valid(items, lc) && BarlessCart(items) && (op.Add? || op.Replace? ==> BarlessLine(op.line))
    ensures BarlessCart(Step(items, op, lc)) && Safe(items, op, lc)
  {
    hide BarlessCart, BarlessLine, Valid, Added, Replaced, KeyOf, Compatible;
    match op
    case Add(line) => BarlessAdded(items, line, lc);
    case Replace(existingKey, line) => BarlessReplaced(items, existingKey, line, lc);
    case Remove(key) => BarlessFiltered(items, key);
    case UpdateQuantity(key, quantity) => BarlessFiltered(items, key); BarlessUpdated(items, key, quantity);
  }

  lemma {:induction false} BarlessSafe(ops: seq<Op>, lc: Collation)
    requires AllAcceptable(ops) && AllBarless(ops)
    ensures BarlessCart(Run(ops, lc)) && AllSafe(ops, lc)
  {
    if ops != [] {
      hide Acceptable, BarlessCart, BarlessLine, Step, Safe, AllSafe, Valid;
      var init := ops[..|ops| - 1];
      BarlessSafe(init, lc);
      RunRefines(init, lc);
      BarlessStep(Run(init, lc), ops[|ops| - 1], lc);
      EarlierSafe(ops, lc);
    }
  }

  /** Without bars, lines of one key have the same removed ingredients. */
  lemma {:induction false} BarlessCompatible(line: Line, incoming: Line, lc: Collation)
    requires BarlessLine(line) && BarlessLine(incoming) && KeyOf(line, lc) == KeyOf(incoming, lc)
    ensures Compatible(line, incoming)
  {
    KeyPieces(ConfigurationOf(line), ConfigurationOf(incoming), lc);
  }

  /** A run is safe if all additions give their removed ingredients, or if no identifier holds a bar. */
  lemma {:induction false} OrderlySafe(ops: seq<Op>, lc: Collation)
    requires AllAcceptable(ops) && (AllGiveRemoved(ops) || AllBarless(ops))
    ensures AllSafe(ops, lc)
  {
    hide Acceptable, KeyOf, Run, BarlessLine;
    if AllBarless(ops) {
      BarlessSafe(ops, lc);
    }
  }

  const PIPED := Line("m", [Modifier(None, "a", 0)], "|", Some([Removed("b", "B")]), None, 1, None, "M", 0)

  const BARRED := Line("m", [Modifier(None, "a|b", 0)], "", None, None, 1, None, "M", 0)

  /** Where an addition leaves its removed ingredients out, bars do harm: the second line is merged into
      the first, takes over its removed ingredients, and computes another key than it is stored under. */
  lemma {:induction false} BarsLoseKey(lc: Collation)
    ensures AllAcceptable([Add(PIPED), Add(BARRED)])
    ensures var cart := Run([Add(PIPED), Add(BARRED)], lc);
            |cart| == 1 && cart[0].key == "m|a|b|||" && KeyOf(cart[0].line, lc) == "m|a|b|b||"
  {
    BarsConfigured(lc);
    hide KeyOf, Merge, Run, Fresh, ConfigurationOf;
    BarInOptionNameCollides(lc);
    TwoAdded(PIPED, BARRED, lc);
    MergedKey(lc);
  }

  lemma {:induction false} BarsConfigured(lc: Collation)
    ensures KeyOf(PIPED, lc) == CartItemKey(Configuration("m", [Modifier(None, "a", 0)], "|", [Removed("b", "B")], None), lc)
    ensures KeyOf(BARRED, lc) == CartItemKey(Configuration("m", [Modifier(None, "a|b", 0)], "", [], None), lc)
    ensures KeyOf(Merge(Fresh(PIPED, lc).line, BARRED), lc)
         == CartItemKey(Configuration("m", [Modifier(None, "a|b", 0)], "", [Removed("b", "B")], None), lc)
  {
    hide CartItemKey;
    assert NormalizeRemoved(PIPED) == [Removed("b", "B")] && NormalizeRemoved(BARRED) == [];
  }

  lemma {:induction false} TwoAdded(first: Line, second: Line, lc: Collation)
    requires KeyOf(first, lc) == KeyOf(second, lc)
    ensures Run([Add(first), Add(second)], lc) == [Keyed(KeyOf(first, lc), Merge(Fresh(first, lc).line, second))]
  {
    hide KeyOf, Merge;
    var item := Fresh(first, lc);
    assert [Add(first), Add(second)][..1] == [Add(first)] && [Add(first)][..0] == [];
    assert Run([Add(first)], lc) == [item] by {
      assert Run([], lc) == [] && FindByRecomputed([], KeyOf(first, lc), lc).None?;
    }
    FreshComputesSame(first, lc);
    assert FindByRecomputed([item], KeyOf(second, lc), lc) == Some(0);
    MergeAtOne([item], 0, second);
    assert [item][0 := Keyed(item.key, Merge(item.line, second))] == [Keyed(item.key, Merge(item.line, second))];
  }

  lemma {:induction false} MergedKey(lc: Collation)
    ensures CartItemKey(Configuration("m", [Modifier(None, "a|b", 0)], "", [Removed("b", "B")], None), lc) == "m|a|b|b||"
  {
    OneId("a|b");
    OneId("b");
    assert ModifierIds([Modifier(None, "a|b", 0)]) == ["a|b"] && RemovedIds([Removed("b", "B")]) == ["b"];
    assert Trim("") == "";
  }

  /** In every reachable cart, two lines are never the same configuration. */
  lemma {:induction false} OneLinePerConfiguration(ops: seq<Op>, lc: Collation, i: nat, j: nat)
    requires AllAcceptable(ops) && AllSafe(ops, lc)
    requires i < j < |Run(ops, lc)| && UntiedPayload(Run(ops, lc)[i].line.payload, lc)
    ensures !SameConfiguration(ConfigurationOf(Run(ops, lc)[i].line), ConfigurationOf(Run(ops, lc)[j].line))
  {
    RunRefines(ops, lc);
    var x, y := Run(ops, lc)[i], Run(ops, lc)[j];
    assert x in Run(ops, lc) && y in Run(ops, lc);
    if SameConfiguration(ConfigurationOf(x.line), ConfigurationOf(y.line)) {
      SameConfigurationSameKey(ConfigurationOf(x.line), ConfigurationOf(y.line), lc);
    }
  }

  /** Adding the same configuration again, however it is written down, ends on one line
      holding both quantities. */
  lemma {:induction false} AddTwice(ops: seq<Op>, a: Line, b: Line, lc: Collation)
    requires UntiedPayload(a.payload, lc) && SameConfiguration(ConfigurationOf(a), ConfigurationOf(b))
    requires AllAcceptable(ops + [Add(a), Add(b)]) && AllSafe(ops + [Add(a), Add(b)], lc)
    ensures var m := MapRun(ops, lc);
            Quantities(Run(ops + [Add(a), Add(b)], lc)) == MapAdd(m, KeyOf(a, lc), a.quantity + b.quantity)
  {
    hide KeyOf, Sellable, AllSafe, AllAcceptable, ConfigurationOf, SameConfiguration, Valid, Run, Quantities, MapRun;
    LastTwoSellable(ops, a, b);
    SameKey(a, b, lc);
    RunRefines(ops + [Add(a), Add(b)], lc);
    assert ops + [Add(a), Add(b)] == (ops + [Add(a)]) + [Add(b)];
    MapRunExtend(ops, Add(a), lc);
    MapRunExtend(ops + [Add(a)], Add(b), lc);
  }

  lemma {:induction false} LastTwoSellable(ops: seq<Op>, a: Line, b: Line)
    requires AllAcceptable(ops + [Add(a), Add(b)])
    ensures Sellable(a) && Sellable(b)
  {
    hide Sellable;
    var all := ops + [Add(a), Add(b)];
    assert all[|ops|] == Add(a) && all[|ops| + 1] == Add(b);
    assert Acceptable(all[|ops|]) && Acceptable(all[|ops| + 1]);
  }

  lemma {:induction false} SameKey(a: Line, b: Line, lc: Collation)
    requires UntiedPayload(a.payload, lc) && Sellable(a) && Sellable(b) && SameConfiguration(ConfigurationOf(a), ConfigurationOf(b))
    ensures KeyOf(a, lc) == KeyOf(b, lc)
  {
    hide SameConfiguration;
    SameConfigurationSameKey(ConfigurationOf(a), ConfigurationOf(b), lc);
  }

  lemma {:induction false} MapRunExtend(ops: seq<Op>, op: Op, lc: Collation)
    ensures MapRun(ops + [op], lc) == MapStep(MapRun(ops, lc), op, lc)
  {
    hide MapStep;
    assert (ops + [op])[..|ops|] == ops;
  }

  // ----- the number of items

  function ItemCount(items: seq<CartItem>): int {
    if items == [] then 0 else items[0].line.quantity + ItemCount(items[1..])
  }

  lemma {:induction false} CountConcat(xs: seq<CartItem>, ys: seq<CartItem>)
    ensures ItemCount(xs + ys) == ItemCount(xs) + ItemCount(ys)
  {
    if xs == [] {
      assert xs + ys == ys;
    } else {
      assert (xs + ys)[1..] == xs[1..] + ys;
      CountConcat(xs[1..], ys);
    }
  }

  lemma {:induction false} CountAround(items: seq<CartItem>, n: nat)
    requires n < |items|
    ensures ItemCount(items) == ItemCount(items[..n]) + items[n].line.quantity + ItemCount(items[n + 1..])
  {
    assert items == items[..n] + items[n..] && items[n..][1..] == items[n + 1..];
    CountConcat(items[..n], items[n..]);
  }

  lemma {:induction false} CountChanged(items: seq<CartItem>, n: nat, item: CartItem)
    requires n < |items|
    ensures ItemCount(items[n := item]) == ItemCount(items) - items[n].line.quantity + item.line.quantity
  {
    CountAround(items, n);
    CountAround(items[n := item], n);
    assert items[n := item][..n] == items[..n] && items[n := item][n + 1..] == items[n + 1..];
  }

  lemma {:induction false} CountInserted(items: seq<CartItem>, n: nat, item: CartItem)
    requires n <= |items|
    ensures ItemCount(items[..n] + [item] + items[n..]) == ItemCount(items) + item.line.quantity
  {
    var r := items[..n] + [item] + items[n..];
    CountAround(r, n);
    assert r[..n] == items[..n] && r[n + 1..] == items[n..];
    assert items == items[..n] + items[n..];
    CountConcat(items[..n], items[n..]);
  }

  /** The entry a key has in the map, as a number of items. */
  function EntryOf(m: map<string, int>, key: string): int {
    if key in m then m[key] else 0
  }

  lemma {:induction false} CountFiltered(items: seq<CartItem>, key: string, lc: Collation)
    requires Valid(items, lc)
    ensures ItemCount(FilterOut(items, key)) == ItemCount(items) - EntryOf(Quantities(items), key)
  {
    var found := FindByKey(items, key);
    if found.Some? {
      FilterOutAt(items, found.value);
      CountAround(items, found.value);
      CountConcat(items[..found.value], items[found.value + 1..]);
      ContentsAt(items, found.value);
    } else {
      FilterOutKeeps(items, key);
    }
  }

  /** No item is lost or invented: adding raises the count by the added quantity, and
      replacing trades the old line's quantity for the new one, merged or not. */
  lemma {:induction false} CountConserved(items: seq<CartItem>, op: Op, lc: Collation)
    requires Valid(items, lc)
    ensures ItemCount(Step(items, op, lc)) ==
            match op
            case Add(line) => ItemCount(items) + line.quantity
            case Replace(existingKey, line) => ItemCount(items) - EntryOf(Quantities(items), existingKey) + line.quantity
            case Remove(key) => ItemCount(items) - EntryOf(Quantities(items), key)
            case UpdateQuantity(key, quantity) =>
              if key in Quantities(items) then ItemCount(items) - Quantities(items)[key] + (if quantity > 0 then quantity else 0)
              else ItemCount(items)
  {
    hide KeyOf, Sellable, Canonised, Valid, Added, Replaced, Quantities;
    match op
    case Add(line) => CountAdded(items, line, lc);
    case Replace(existingKey, line) => CountReplaced(items, existingKey, line, lc);
    case Remove(key) => CountFiltered(items, key, lc);
    case UpdateQuantity(key, quantity) => CountUpdated(items, key, quantity, lc);
  }

  lemma {:induction false} CountAdded(items: seq<CartItem>, line: Line, lc: Collation)
    requires Valid(items, lc)
    ensures ItemCount(Added(items, line, lc)) == ItemCount(items) + line.quantity
  {
    hide KeyOf, Sellable, Canonised;
    var existing := FindByRecomputed(items, KeyOf(line, lc), lc);
    if existing.Some? {
      var e := existing.value;
      MergeAtOne(items, e, line);
      CountChanged(items, e, Keyed(items[e].key, Merge(items[e].line, line)));
    } else {
      CountInserted(items, |items|, Fresh(line, lc));
      assert Added(items, line, lc) == items[..|items|] + [Fresh(line, lc)] + items[|items|..];
    }
  }

  lemma {:induction false} CountUpdated(items: seq<CartItem>, key: string, quantity: int, lc: Collation)
    requires Valid(items, lc)
    ensures ItemCount(Step(items, UpdateQuantity(key, quantity), lc)) ==
              if key in Quantities(items) then ItemCount(items) - Quantities(items)[key] + (if quantity > 0 then quantity else 0)
              else ItemCount(items)
  {
    hide KeyOf, Sellable, Quantities, Canonised, Valid;
    ValidDistinct(items, lc);
    CountFiltered(items, key, lc);
    var found := FindByKey(items, key);
    if found.None? {
      AbsentKey(items, key);
      assert quantity > 0 ==> WithQuantity(items, key, quantity) == items;
    } else {
      var n := found.value;
      LineAt(items, n, lc);
      if quantity > 0 {
        var item := items[n].(line := items[n].line.(quantity := quantity));
        assert WithQuantity(items, key, quantity) == items[n := item];
        CountChanged(items, n, item);
      }
    }
  }

  lemma {:induction false} CountReplaced(items: seq<CartItem>, existingKey: string, line: Line, lc: Collation)
    requires Valid(items, lc)
    ensures ItemCount(Replaced(items, existingKey, line, lc))
            == ItemCount(items) - EntryOf(Quantities(items), existingKey) + line.quantity
  {
    hide KeyOf;
    var others := FilterOut(items, existingKey);
    CountFiltered(items, existingKey, lc);
    var collision := FindByKey(others, KeyOf(line, lc));
    if collision.Some? {
      var hit := others[collision.value];
      CountChanged(others, collision.value, Keyed(hit.key, Absorb(hit.line, line)));
    } else {
      var original := FindByKey(items, existingKey);
      var at := if original.None? || original.value > |others| then |others| else original.value;
      CountInserted(others, at, Fresh(line, lc));
      assert others + [Fresh(line, lc)] == others[..|others|] + [Fresh(line, lc)] + others[|others|..];
    }
  }

  // ----- stored keys that were not recomputed

  /** No two lines compute one key, whatever keys they are stored under. */
  ghost predicate DistinctComputed(items: seq<CartItem>, lc: Collation) {
    forall i, j :: 0 <= i < j < |items| ==> KeyOf(items[i].line, lc) != KeyOf(items[j].line, lc)
  }

  lemma {:induction false} FreshComputesSame(incoming: Line, lc: Collation)
    ensures KeyOf(Fresh(incoming, lc).line, lc) == KeyOf(incoming, lc)
  {
    assert ConfigurationOf(Fresh(incoming, lc).line) == ConfigurationOf(incoming);
  }

  lemma {:induction false} AbsorbComputesSame(line: Line, incoming: Line, lc: Collation)
    ensures KeyOf(Absorb(line, incoming), lc) == KeyOf(line, lc)
  {
    assert ConfigurationOf(Absorb(line, incoming)) == ConfigurationOf(line);
  }

  lemma {:induction false} ChangedComputed(items: seq<CartItem>, n: nat, item: CartItem, lc: Collation)
    requires DistinctComputed(items, lc) && n < |items| && KeyOf(item.line, lc) == KeyOf(items[n].line, lc)
    ensures DistinctComputed(items[n := item], lc)
  {
    hide KeyOf;
  }

  /** Inserting a line keeps computed keys distinct exactly when none of the lines has its key. */
  lemma {:induction false} InsertedComputed(items: seq<CartItem>, n: nat, item: CartItem, lc: Collation)
    requires DistinctComputed(items, lc) && n <= |items|
    ensures DistinctComputed(items[..n] + [item] + items[n..], lc)
            <==> forall i :: 0 <= i < |items| ==> KeyOf(items[i].line, lc) != KeyOf(item.line, lc)
  {
    hide KeyOf;
    var r := items[..n] + [item] + items[n..];
    assert r[n] == item;
    assert forall i :: 0 <= i < n ==> r[i] == items[i];
    assert forall i :: n <= i < |items| ==> r[i + 1] == items[i];
    if DistinctComputed(r, lc) {
      forall i | 0 <= i < |items| ensures KeyOf(items[i].line, lc) != KeyOf(item.line, lc) {
        assert if i < n then KeyOf(r[i].line, lc) != KeyOf(r[n].line, lc) else KeyOf(r[n].line, lc) != KeyOf(r[i + 1].line, lc);
      }
    } else {
      var i, j :| 0 <= i < j < |r| && KeyOf(r[i].line, lc) == KeyOf(r[j].line, lc);
      var k, l := if i < n then i else i - 1, if j < n then j else j - 1;
      assert i != n ==> r[i] == items[k];
      assert j != n ==> r[j] == items[l];
    }
  }

  /** Rewriting a line keeps computed keys distinct exactly when none of the others has the new key. */
  lemma {:induction false} RewrittenComputed(items: seq<CartItem>, n: nat, item: CartItem, lc: Collation)
    requires DistinctComputed(items, lc) && n < |items|
    ensures DistinctComputed(items[n := item], lc)
            <==> forall i :: 0 <= i < |items| && i != n ==> KeyOf(items[i].line, lc) != KeyOf(item.line, lc)
  {
    hide KeyOf;
    var r := items[n := item];
    if DistinctComputed(r, lc) {
      forall i | 0 <= i < |items| && i != n ensures KeyOf(items[i].line, lc) != KeyOf(item.line, lc) {
        assert r[i] == items[i] && r[n] == item;
        assert if i < n then KeyOf(r[i].line, lc) != KeyOf(r[n].line, lc) else KeyOf(r[n].line, lc) != KeyOf(r[i].line, lc);
      }
    }
  }

  /** Adding looks for the computed key. Whatever keys the lines are stored under, it leaves them of
      different configurations exactly when it finds no line, or a compatible one, or no other line
      computes the key of the merged one. */
  lemma {:induction false} AddKeepsComputedExactly(items: seq<CartItem>, incoming: Line, lc: Collation)
    requires Distinct(items) && DistinctComputed(items, lc)
    requires PayloadIsObject(incoming.payload) && forall i :: 0 <= i < |items| ==> PayloadIsObject(items[i].line.payload)
    ensures var existing := FindByRecomputed(items, KeyOf(incoming, lc), lc);
            DistinctComputed(Added(items, incoming, lc), lc)
            <==> existing.None?
                 || Compatible(items[existing.value].line, incoming)
                 || forall i :: 0 <= i < |items| && i != existing.value ==>
                      KeyOf(items[i].line, lc) != KeyOf(Merge(items[existing.value].line, incoming), lc)
  {
    hide KeyOf, PayloadIsObject, DistinctComputed, Fresh, Merge, Compatible;
    var existing := FindByRecomputed(items, KeyOf(incoming, lc), lc);
    if existing.Some? {
      var e := existing.value;
      var merged := Merge(items[e].line, incoming);
      MergeAtOne(items, e, incoming);
      MergeKeepsKeyExactly(items[e].line, incoming, lc);
      RewrittenComputed(items, e, Keyed(items[e].key, merged), lc);
      if Compatible(items[e].line, incoming) {
        ChangedComputed(items, e, Keyed(items[e].key, merged), lc);
      }
    } else {
      FreshComputesSame(incoming, lc);
      InsertedComputed(items, |items|, Fresh(incoming, lc), lc);
      assert items + [Fresh(incoming, lc)] == items[..|items|] + [Fresh(incoming, lc)] + items[|items|..];
    }
  }

  /** Replacing looks for the stored key. It leaves the lines of different configurations exactly when
      the new line's key is stored on another line, or no other line computes it. */
  lemma {:induction false} ReplaceKeepsComputedExactly(items: seq<CartItem>, existingKey: string, incoming: Line, lc: Collation)
    requires DistinctComputed(FilterOut(items, existingKey), lc)
    ensures var others := FilterOut(items, existingKey);
            DistinctComputed(Replaced(items, existingKey, incoming, lc), lc)
            <==> FindByKey(others, KeyOf(incoming, lc)).Some?
                 || forall i :: 0 <= i < |others| ==> KeyOf(others[i].line, lc) != KeyOf(incoming, lc)
  {
    hide KeyOf, DistinctComputed, Fresh, Absorb;
    var others := FilterOut(items, existingKey);
    var collision := FindByKey(others, KeyOf(incoming, lc));
    if collision.Some? {
      var hit := others[collision.value];
      AbsorbComputesSame(hit.line, incoming, lc);
      ChangedComputed(others, collision.value, Keyed(hit.key, Absorb(hit.line, incoming)), lc);
    } else {
      var original := FindByKey(items, existingKey);
      var at := if original.None? || original.value > |others| then |others| else original.value;
      FreshComputesSame(incoming, lc);
      InsertedComputed(others, at, Fresh(incoming, lc), lc);
      assert others + [Fresh(incoming, lc)] == others[..|others|] + [Fresh(incoming, lc)] + others[|others|..];
    }
  }

  /** A saved cart keeps whatever keys it was stored with. Where one is stale, editing another line
      into its configuration makes two lines of one configuration out of two different ones. */
  lemma {:induction false} StaleKeyDuplicates(a: Line, b: Line, lc: Collation)
    requires KeyOf(a, lc) != KeyOf(b, lc)
    ensures var hydrated := [Keyed("stale", a), Keyed(KeyOf(b, lc), b)];
            Distinct(hydrated) && DistinctComputed(hydrated, lc)
            && !DistinctComputed(Replaced(hydrated, KeyOf(b, lc), a, lc), lc)
  {
    KeyIsNoWord(a, lc);
    KeyIsNoWord(b, lc);
    hide KeyOf;
    var x, y := Keyed("stale", a), Keyed(KeyOf(b, lc), b);
    var hydrated := [x, y];
    assert hydrated[1..] == [y] && [y][1..] == [] && [x][1..] == [];
    assert FilterOut([y], y.key) == [];
    assert FilterOut(hydrated, y.key) == [x];
    assert FindByKey([x], KeyOf(a, lc)) == None;
    assert DistinctComputed([x], lc);
    ReplaceKeepsComputedExactly(hydrated, y.key, a, lc);
    assert KeyOf([x][0].line, lc) == KeyOf(a, lc);
  }

  /** A key holds bars, so a word is none. */
  lemma {:induction false} KeyIsNoWord(line: Line, lc: Collation)
    ensures KeyOf(line, lc) != "stale"
  {
    var id := line.menuItemId;
    assert KeyOf(line, lc)[|id|] == '|';
    assert Lacks("stale", '|');
  }
}
