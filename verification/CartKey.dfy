/** `cartItemKey` (apps/application/src/context/cart.tsx): the string that stands for a
    configuration in the cart. Main result: equal keys mean equal configurations. */
module CartKey {
  import opened Strings
  import opened Sorting
  import opened JsonText
  import opened CanonicalPayload

  datatype Modifier = Modifier(optionId: Option<string>, optionName: string, priceDeltaCents: int)

  datatype Removed = Removed(id: string, name: string)

  /** What the key is computed from. */
  datatype Configuration = Configuration(
    menuItemId: string,
    modifiers: seq<Modifier>,
    instructions: string,
    removed: seq<Removed>,
    payload: Option<Value>)

  function ModifierIds(ms: seq<Modifier>): (r: seq<string>)
    ensures |r| == |ms|
    ensures forall i :: 0 <= i < |ms| ==> r[i] == if ms[i].optionId.Some? then ms[i].optionId.value else ms[i].optionName
  {
    seq(|ms|, i requires 0 <= i < |ms| =>
      if ms[i].optionId.Some? then ms[i].optionId.value else ms[i].optionName)
  }

  function RemovedIds(rs: seq<Removed>): (r: seq<string>)
    ensures |r| == |rs| && forall i :: 0 <= i < |rs| ==> r[i] == rs[i].id
  {
    seq(|rs|, i requires 0 <= i < |rs| => rs[i].id)
  }

  function PayloadText(payload: Option<Value>, lc: Collation): string {
    if payload.Some? then Stringify(Canonical(payload.value, "", lc)) else ""
  }

  /** The identifiers as they stand in the key. */
  function IdsText(ids: seq<string>): string {
    Join(SortBy(ids, LexLe), ",")
  }

  function CartItemKey(c: Configuration, lc: Collation): string {
    c.menuItemId + "|" + (
    IdsText(ModifierIds(c.modifiers)) + "|" + (
    IdsText(RemovedIds(c.removed)) + "|" + (
    Trim(c.instructions) + "|" + PayloadText(c.payload, lc))))
  }

  /** What stands in a key before the payload, part by part. */
  function FrontParts(c: Configuration): seq<string> {
    [c.menuItemId, IdsText(ModifierIds(c.modifiers)), IdsText(RemovedIds(c.removed)), Trim(c.instructions)]
  }

  /** The two lines ask the kitchen for the same thing. */
  ghost predicate SameConfiguration(c: Configuration, d: Configuration) {
    && c.menuItemId == d.menuItemId
    && multiset(ModifierIds(c.modifiers)) == multiset(ModifierIds(d.modifiers))
    && multiset(RemovedIds(c.removed)) == multiset(RemovedIds(d.removed))
    && Trim(c.instructions) == Trim(d.instructions)
    && SameOptionalPayload(c.payload, d.payload)
  }

  /** The two lines agree in all but the identifiers, and these once they are sorted, joined
      and cut at commas. */
  ghost predicate SameAtCommas(c: Configuration, d: Configuration) {
    && c.menuItemId == d.menuItemId
    && Pieces(SortBy(ModifierIds(c.modifiers), LexLe), ',') == Pieces(SortBy(ModifierIds(d.modifiers), LexLe), ',')
    && Pieces(SortBy(RemovedIds(c.removed), LexLe), ',') == Pieces(SortBy(RemovedIds(d.removed), LexLe), ',')
    && Trim(c.instructions) == Trim(d.instructions)
    && SameOptionalPayload(c.payload, d.payload)
  }

  ghost predicate SameOptionalPayload(p: Option<Value>, q: Option<Value>) {
    p.Some? == q.Some? && (p.Some? ==> SamePayload(p.value, q.value, ""))
  }

  /** The collation ties nothing in the payload. */
  ghost predicate UntiedPayload(payload: Option<Value>, lc: Collation) {
    TotalPreorder(lc) && (payload.Some? ==> Untied(payload.value, "", lc))
  }

  ghost predicate PayloadIsObject(payload: Option<Value>) {
    payload.Some? ==> payload.value.Obj? && WellFormed(payload.value)
  }

  predicate AllLack(ids: seq<string>, c: char) {
    forall i :: 0 <= i < |ids| ==> Lacks(ids[i], c)
  }

  /** No identifier holds the bar that separates the parts of the key. */
  ghost predicate Barless(c: Configuration) {
    && Lacks(c.menuItemId, '|')
    && AllLack(ModifierIds(c.modifiers), '|')
    && AllLack(RemovedIds(c.removed), '|')
    && PayloadIsObject(c.payload)
  }

  predicate ProperIds(ids: seq<string>) {
    AllLack(ids, ',') && forall i :: 0 <= i < |ids| ==> ids[i] != ""
  }

  /** No identifier is empty or holds the comma that separates identifiers. */
  predicate Proper(c: Configuration) {
    ProperIds(ModifierIds(c.modifiers)) && ProperIds(RemovedIds(c.removed))
  }

  /** Where the customer's text ends and the payload begins can be told from the right,
      although the text may hold bars and braces of its own. */
  lemma {:induction false} TailSplit(s: string, p: Option<Value>, t: string, q: Option<Value>, lc: Collation)
    requires PayloadIsObject(p) && PayloadIsObject(q)
    requires s + "|" + PayloadText(p, lc) == t + "|" + PayloadText(q, lc)
    ensures s == t && PayloadText(p, lc) == PayloadText(q, lc)
  {
    var a, b := PayloadText(p, lc), PayloadText(q, lc);
    Overlap(s, a, t, b);
    Overlap(t, b, s, a);
    if |a| < |b| {
      NoShorterTail(p, q, b[..|b| - |a| - 1], lc);
    } else if |b| < |a| {
      NoShorterTail(q, p, a[..|a| - |b| - 1], lc);
    }
  }

  lemma {:induction false} Overlap(s: string, a: string, t: string, b: string)
    requires s + "|" + a == t + "|" + b
    ensures |a| < |b| ==> b == b[..|b| - |a| - 1] + ("|" + a)
    ensures |a| == |b| ==> s == t && a == b
  {
    var x := s + "|" + a;
    assert a == x[|x| - |a|..] && s == x[..|x| - |a| - 1] && x[|x| - |a| - 1] == '|';
    assert b == x[|x| - |b|..] && t == x[..|x| - |b| - 1];
  }

  lemma {:induction false} NoShorterTail(p: Option<Value>, q: Option<Value>, head: string, lc: Collation)
    requires PayloadIsObject(p) && PayloadIsObject(q)
    ensures PayloadText(q, lc) != head + ("|" + PayloadText(p, lc))
  {
    var a, b := PayloadText(p, lc), PayloadText(q, lc);
    if q.Some? {
      CanonicalIsJson(q.value, "", lc);
      assert b[|b| - 1] == '}';
      if p.Some? {
        CanonicalIsJson(p.value, "", lc);
        NoTextAfterBar(Canonical(q.value, "", lc), Canonical(p.value, "", lc), head);
        assert head + "|" + a == head + ("|" + a);
      } else {
        assert (head + ("|" + a))[|head|] == '|';
      }
    }
  }

  /** Sorting moves identifiers about and changes none. */
  lemma {:induction false} SortedIdsLack(ids: seq<string>, c: char)
    requires AllLack(ids, c)
    ensures AllLack(SortBy(ids, LexLe), c)
  {
    hide SortBy, Lacks;
    var sorted := SortBy(ids, LexLe);
    SameMembers(ids, sorted);
    forall i | 0 <= i < |sorted| ensures Lacks(sorted[i], c) {
      assert sorted[i] in ids;
    }
  }

  lemma {:induction false} IdsTextLacksBar(ids: seq<string>)
    requires AllLack(ids, '|')
    ensures Lacks(Join(SortBy(ids, LexLe), ","), '|')
  {
    hide SortBy;
    SortedIdsLack(ids, '|');
    JoinLacks(SortBy(ids, LexLe), ",", '|');
  }

  /** Identifiers that are nonempty and free of commas can be read off their text. */
  lemma {:induction false} IdsTextDecides(ids: seq<string>, jds: seq<string>)
    ensures multiset(ids) == multiset(jds) ==> Join(SortBy(ids, LexLe), ",") == Join(SortBy(jds, LexLe), ",")
    ensures ProperIds(ids) && ProperIds(jds) && Join(SortBy(ids, LexLe), ",") == Join(SortBy(jds, LexLe), ",") ==>
              multiset(ids) == multiset(jds)
  {
    hide SortBy, Join;
    LexSortDecides(ids, jds);
    if ProperIds(ids) && ProperIds(jds) && Join(SortBy(ids, LexLe), ",") == Join(SortBy(jds, LexLe), ",") {
      ProperSorted(ids);
      ProperSorted(jds);
      JoinInjective(SortBy(ids, LexLe), SortBy(jds, LexLe), ',');
    }
  }

  lemma {:induction false} ProperSorted(ids: seq<string>)
    requires ProperIds(ids)
    ensures ProperIds(SortBy(ids, LexLe))
  {
    hide SortBy, Lacks;
    SortedIdsLack(ids, ',');
    var sorted := SortBy(ids, LexLe);
    SameMembers(ids, sorted);
    forall i | 0 <= i < |sorted| ensures sorted[i] != "" {
      assert sorted[i] in ids;
    }
  }

  lemma {:induction false} PayloadDecides(p: Option<Value>, q: Option<Value>, lc: Collation)
    requires UntiedPayload(p, lc) && PayloadIsObject(p) && PayloadIsObject(q)
    ensures PayloadText(p, lc) == PayloadText(q, lc) <==> SameOptionalPayload(p, q)
  {
    if p.Some? { CanonicalIsJson(p.value, "", lc); }
    if q.Some? { CanonicalIsJson(q.value, "", lc); }
    if p.Some? && q.Some? {
      PayloadTextExact(p.value, q.value, lc);
    }
  }

  /** One configuration has one key, whatever its identifiers are. */
  lemma {:induction false} SameConfigurationSameKey(c: Configuration, d: Configuration, lc: Collation)
    requires UntiedPayload(c.payload, lc) && PayloadIsObject(c.payload) && PayloadIsObject(d.payload)
    requires SameConfiguration(c, d)
    ensures CartItemKey(c, lc) == CartItemKey(d, lc)
  {
    IdsTextDecides(ModifierIds(c.modifiers), ModifierIds(d.modifiers));
    IdsTextDecides(RemovedIds(c.removed), RemovedIds(d.removed));
    PayloadDecides(c.payload, d.payload, lc);
  }

  /** Without bars in identifiers, two lines have the same key exactly when they agree in all but
      the identifiers and these agree at commas, whatever the customer wrote into the instructions. */
  lemma {:induction false} BarlessKeyExact(c: Configuration, d: Configuration, lc: Collation)
    requires UntiedPayload(c.payload, lc) && Barless(c) && Barless(d)
    ensures CartItemKey(c, lc) == CartItemKey(d, lc) <==> SameAtCommas(c, d)
  {
    var m, n := SortBy(ModifierIds(c.modifiers), LexLe), SortBy(ModifierIds(d.modifiers), LexLe);
    var r, s := SortBy(RemovedIds(c.removed), LexLe), SortBy(RemovedIds(d.removed), LexLe);
    JoinPieces(m, n, ',');
    JoinPieces(r, s, ',');
    PayloadDecides(c.payload, d.payload, lc);
    hide SortBy, Join, Pieces, Trim, PayloadText, SameOptionalPayload;
    if CartItemKey(c, lc) == CartItemKey(d, lc) {
      KeyPieces(c, d, lc);
    }
  }

  /** If moreover no identifier is empty or holds a comma, as the catalogue's generated ones are,
      the key stands for the configuration. */
  lemma {:induction false} CartItemKeyExact(c: Configuration, d: Configuration, lc: Collation)
    requires UntiedPayload(c.payload, lc) && Barless(c) && Barless(d)
    ensures SameConfiguration(c, d) ==> CartItemKey(c, lc) == CartItemKey(d, lc)
    ensures Proper(c) && Proper(d) ==> (CartItemKey(c, lc) == CartItemKey(d, lc) <==> SameConfiguration(c, d))
  {
    IdsTextDecides(ModifierIds(c.modifiers), ModifierIds(d.modifiers));
    IdsTextDecides(RemovedIds(c.removed), RemovedIds(d.removed));
    PayloadDecides(c.payload, d.payload, lc);
    hide SortBy, Join, Trim, PayloadText, SameOptionalPayload;
    if CartItemKey(c, lc) == CartItemKey(d, lc) {
      KeyPieces(c, d, lc);
    }
  }

  lemma {:induction false} KeyPieces(c: Configuration, d: Configuration, lc: Collation)
    requires Barless(c) && Barless(d) && CartItemKey(c, lc) == CartItemKey(d, lc)
    ensures c.menuItemId == d.menuItemId
    ensures Join(SortBy(ModifierIds(c.modifiers), LexLe), ",") == Join(SortBy(ModifierIds(d.modifiers), LexLe), ",")
    ensures Join(SortBy(RemovedIds(c.removed), LexLe), ",") == Join(SortBy(RemovedIds(d.removed), LexLe), ",")
    ensures Trim(c.instructions) == Trim(d.instructions)
    ensures PayloadText(c.payload, lc) == PayloadText(d.payload, lc)
  {
    var m, n := Join(SortBy(ModifierIds(c.modifiers), LexLe), ","), Join(SortBy(ModifierIds(d.modifiers), LexLe), ",");
    var r, s := Join(SortBy(RemovedIds(c.removed), LexLe), ","), Join(SortBy(RemovedIds(d.removed), LexLe), ",");
    var x := Trim(c.instructions) + "|" + PayloadText(c.payload, lc);
    var y := Trim(d.instructions) + "|" + PayloadText(d.payload, lc);
    IdsTextLacksBar(ModifierIds(c.modifiers));
    IdsTextLacksBar(ModifierIds(d.modifiers));
    IdsTextLacksBar(RemovedIds(c.removed));
    IdsTextLacksBar(RemovedIds(d.removed));
    hide SortBy, Join, Trim, PayloadText, Lacks;
    FirstSeparator(c.menuItemId, d.menuItemId, '|', m + "|" + (r + "|" + x), n + "|" + (s + "|" + y));
    FirstSeparator(m, n, '|', r + "|" + x, s + "|" + y);
    FirstSeparator(r, s, '|', x, y);
    TailSplit(Trim(c.instructions), c.payload, Trim(d.instructions), d.payload, lc);
  }

  // ----- keys with bars in them

  lemma {:induction false} FrontAndPayload(c: Configuration, lc: Collation)
    ensures CartItemKey(c, lc) == Join(FrontParts(c), "|") + "|" + PayloadText(c.payload, lc)
  {
    hide IdsText, Trim, PayloadText;
    var a, b, d, e := c.menuItemId, IdsText(ModifierIds(c.modifiers)), IdsText(RemovedIds(c.removed)), Trim(c.instructions);
    FourJoined(a, b, d, e);
    assert a + "|" + (b + "|" + (d + "|" + (e + "|" + PayloadText(c.payload, lc))))
        == a + "|" + (b + "|" + (d + "|" + e)) + "|" + PayloadText(c.payload, lc);
  }

  lemma {:induction false} FourJoined(a: string, b: string, c: string, d: string)
    ensures Join([a, b, c, d], "|") == a + "|" + (b + "|" + (c + "|" + d))
  {
    assert [a, b, c, d][1..] == [b, c, d] && [b, c, d][1..] == [c, d] && [c, d][1..] == [d];
    assert Join([c, d], "|") == c + "|" + Join([d], "|");
    assert Join([b, c, d], "|") == b + "|" + Join([c, d], "|");
  }

  /** Equal keys agree before the payload and in it, whatever the identifiers hold. */
  lemma {:induction false} KeyTail(c: Configuration, d: Configuration, lc: Collation)
    requires PayloadIsObject(c.payload) && PayloadIsObject(d.payload)
    ensures CartItemKey(c, lc) == CartItemKey(d, lc)
       <==> Join(FrontParts(c), "|") == Join(FrontParts(d), "|") && PayloadText(c.payload, lc) == PayloadText(d.payload, lc)
  {
    hide FrontParts, Join, PayloadText, CartItemKey;
    FrontAndPayload(c, lc);
    FrontAndPayload(d, lc);
    if CartItemKey(c, lc) == CartItemKey(d, lc) {
      TailSplit(Join(FrontParts(c), "|"), c.payload, Join(FrontParts(d), "|"), d.payload, lc);
    }
  }

  /** For all identifiers: two lines have one key exactly when their payloads are the same and the
      four parts before it agree once they are joined and cut at bars. */
  lemma {:induction false} KeyExactAtBars(c: Configuration, d: Configuration, lc: Collation)
    requires UntiedPayload(c.payload, lc) && PayloadIsObject(c.payload) && PayloadIsObject(d.payload)
    ensures CartItemKey(c, lc) == CartItemKey(d, lc)
       <==> Pieces(FrontParts(c), '|') == Pieces(FrontParts(d), '|') && SameOptionalPayload(c.payload, d.payload)
  {
    KeyTail(c, d, lc);
    PayloadDecides(c.payload, d.payload, lc);
    JoinPieces(FrontParts(c), FrontParts(d), '|');
    hide FrontParts, Join, Pieces, PayloadText, CartItemKey, SameOptionalPayload;
  }

  /** The key changes with the removed ingredients exactly when their text does. */
  lemma {:induction false} KeyByRemoved(c: Configuration, removed: seq<Removed>, lc: Collation)
    ensures CartItemKey(c.(removed := removed), lc) == CartItemKey(c, lc)
       <==> IdsText(RemovedIds(removed)) == IdsText(RemovedIds(c.removed))
  {
    hide IdsText, Trim, PayloadText;
    var head := c.menuItemId + "|" + (IdsText(ModifierIds(c.modifiers)) + "|");
    var tail := "|" + (Trim(c.instructions) + "|" + PayloadText(c.payload, lc));
    var a, b := IdsText(RemovedIds(removed)), IdsText(RemovedIds(c.removed));
    assert CartItemKey(c.(removed := removed), lc) == head + a + tail;
    assert CartItemKey(c, lc) == head + b + tail;
    Cancelled(head, a, b, tail);
  }

  lemma {:induction false} Cancelled(head: string, a: string, b: string, tail: string)
    ensures head + a + tail == head + b + tail <==> a == b
  {
    if head + a + tail == head + b + tail {
      var s, t := head + a + tail, head + b + tail;
      assert |a| == |b|;
      assert a == s[|head|..|head| + |a|] && b == t[|head|..|head| + |b|];
    }
  }

  lemma {:induction false} PayloadTextOfObject(p: Option<Value>, lc: Collation)
    requires PayloadIsObject(p)
    ensures PayloadText(p, lc) == "" <==> p.None?
  {
  }

  /** A bar typed into the instructions reads like one between identifiers: two configurations,
      one key. */
  lemma {:induction false} BarInOptionNameCollides(lc: Collation)
    ensures var c := Configuration("m", [Modifier(None, "a", 0)], "|", [Removed("b", "B")], None);
            var d := Configuration("m", [Modifier(None, "a|b", 0)], "", [], None);
            CartItemKey(c, lc) == CartItemKey(d, lc) == "m|a|b|||" && !SameConfiguration(c, d)
  {
    OneId("a");
    OneId("b");
    OneId("a|b");
    assert ModifierIds([Modifier(None, "a", 0)]) == ["a"] && ModifierIds([Modifier(None, "a|b", 0)]) == ["a|b"];
    assert RemovedIds([Removed("b", "B")]) == ["b"] && RemovedIds([]) == [];
    assert Trim("|") == "|" && Trim("") == "";
  }

  lemma {:induction false} OneId(id: string)
    ensures IdsText([id]) == id && IdsText([]) == ""
  {
    assert [id][1..] == [];
  }

  // ----- keys with commas in them

  /** Commas do make a difference: an option known only by its name, with a comma in it,
      shares its key with two options. */
  lemma {:induction false} CommaInOptionNameCollides(lc: Collation)
    ensures var c := Configuration("m", [Modifier(None, "a,b", 0)], "", [], None);
            var d := Configuration("m", [Modifier(None, "a", 0), Modifier(None, "b", 0)], "", [], None);
            CartItemKey(c, lc) == CartItemKey(d, lc) && !SameConfiguration(c, d)
  {
    var ms, ns := [Modifier(None, "a,b", 0)], [Modifier(None, "a", 0), Modifier(None, "b", 0)];
    assert ModifierIds(ms) == ["a,b"] && ModifierIds(ns) == ["a", "b"];
    OneId("a,b");
    TwoIds();
    hide IdsText, PayloadText, Trim;
    assert |multiset(ModifierIds(ms))| == 1 && |multiset(ModifierIds(ns))| == 2;
  }

  lemma {:induction false} TwoIds()
    ensures IdsText(["a", "b"]) == "a,b"
  {
    assert ["a", "b"][1..] == ["b"] && ["b"][1..] == [];
    assert LexLe("a", "b");
    assert SortBy(["b"], LexLe) == ["b"];
    assert SortBy(["a", "b"], LexLe) == ["a", "b"];
    assert Join(["a", "b"], ",") == "a" + "," + Join(["b"], ",") == "a,b";
  }
}
