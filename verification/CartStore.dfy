/** The cart provider as it runs: its state, and one method for each operation
    (apps/application/src/context/cart.tsx). */
module CartStore {
  import opened Sorting
  import opened Strings
  import opened JsonText
  import opened CanonicalPayload
  import opened CartKey
  import opened KeyedLists
  import opened Cart
  import opened CartLines

  class CartProvider {
    var items: seq<CartItem>
    var cartAddNonce: nat
    const lc: Collation

    ghost predicate Ready()
      reads this
    {
      Valid(items, lc)
    }

    constructor (lc: Collation)
      ensures Ready() && items == [] && cartAddNonce == 0 && this.lc == lc
    {
      this.lc := lc;
      items := [];
      cartAddNonce := 0;
    }

    method AddItem(incoming: Line)
      modifies this
      ensures items == Step(old(items), Add(incoming), lc)
      ensures AddLeaves(old(items), items, incoming, lc)
      ensures old(Ready()) && Sellable(incoming) ==> (Ready() <==> old(Safe(items, Add(incoming), lc)))
      ensures old(Ready() && Safe(items, Add(incoming), lc)) && Sellable(incoming) ==>
                Quantities(items) == MapAdd(old(Quantities(items)), KeyOf(incoming, lc), incoming.quantity)
      ensures cartAddNonce == old(cartAddNonce) + 1
    {
      hide Valid, Sellable, Safe, Quantities, AddLeaves;
      AddedLines(items, incoming, lc);
      if Ready() && Sellable(incoming) {
        AddKeepsExactly(items, incoming, lc);
        if Safe(items, Add(incoming), lc) {
          AddRefines(items, incoming, lc);
        }
      }
      var removedIngredients := NormalizeRemoved(incoming);
      var key := CartItemKey(
        Configuration(incoming.menuItemId, incoming.modifiers, incoming.instructions, removedIngredients, incoming.payload), lc);
      var existing := FindByRecomputed(items, key, lc);
      if existing.Some? {
        items := MergeAt(items, items[existing.value].key, incoming);
      } else {
        items := items + [Keyed(key, incoming.(removed := Some(removedIngredients)))];
      }
      cartAddNonce := cartAddNonce + 1;
    }

    method ReplaceItem(existingKey: string, incoming: Line)
      modifies this`items
      ensures items == Step(old(items), Replace(existingKey, incoming), lc)
      ensures old(Distinct(items)) ==> ReplaceLeaves(old(items), items, existingKey, incoming, lc)
      ensures old(Ready()) && Acceptable(Replace(existingKey, incoming)) ==>
                Ready()
                && Quantities(items) == MapAdd(old(Quantities(items)) - {existingKey}, KeyOf(incoming, lc), incoming.quantity)
    {
      hide ReplaceLeaves;
      if Distinct(items) {
        ReplacedLines(items, existingKey, incoming, lc);
      }
      if Ready() && Acceptable(Replace(existingKey, incoming)) {
        StepRefines(items, Replace(existingKey, incoming), lc);
      }
      var removedIngredients := NormalizeRemoved(incoming);
      var nextKey := CartItemKey(
        Configuration(incoming.menuItemId, incoming.modifiers, incoming.instructions, removedIngredients, incoming.payload), lc);
      var withoutExisting := FilterOut(items, existingKey);
      var collision := FindByKey(withoutExisting, nextKey);
      if collision.Some? {
        var item := withoutExisting[collision.value];
        items := withoutExisting[collision.value := item.(line := Absorb(item.line, incoming))];
        return;
      }
      var replacement := Keyed(nextKey, incoming.(removed := Some(removedIngredients)));
      var original := FindByKey(items, existingKey);
      if original.None? {
        items := withoutExisting + [replacement];
        return;
      }
      items := Spliced(withoutExisting, original.value, replacement);
    }

    method RemoveItem(key: string)
      modifies this`items
      ensures items == Step(old(items), Remove(key), lc)
      ensures old(Ready()) ==> Ready() && Quantities(items) == old(Quantities(items)) - {key}
    {
      if Ready() {
        StepRefines(items, Remove(key), lc);
      }
      items := FilterOut(items, key);
    }

    method UpdateItemQuantity(key: string, quantity: int)
      modifies this`items
      ensures items == Step(old(items), UpdateQuantity(key, quantity), lc)
      ensures old(Ready()) ==>
                Ready() && Quantities(items) == MapStep(old(Quantities(items)), UpdateQuantity(key, quantity), lc)
    {
      if Ready() {
        StepRefines(items, UpdateQuantity(key, quantity), lc);
      }
      if quantity <= 0 {
        items := FilterOut(items, key);
      } else {
        items := WithQuantity(items, key, quantity);
      }
    }
  }
}
