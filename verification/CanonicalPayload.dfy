/** The canonical form of a builder payload inside `cartItemKey`
    (apps/application/src/context/cart.tsx), and the independent relation it decides:
    when two payloads describe the same configuration. */
module CanonicalPayload {
  import opened Sorting
  import opened JsonText

  /** A collation that tells all strings apart. */
  ghost predicate Separating(lc: Collation) {
    TotalPreorder(lc) && Antisymmetric(lc)
  }

  const BAG_FIELDS: set<string> := {"child_addons", "removed_ingredients", "modifier_selections"}

  const DISPLAY_FIELDS: set<string> :=
    {"name", "flavour_name", "child_name", "child_slug", "salad_name", "salad_slug", "price_cents",
     "price_delta_cents"}

  predicate Kept(f: Field) {
    f.value != Undefined && f.key !in DISPLAY_FIELDS
  }

  // ----- property order of objects built from entries

  function NumericValue(k: string): nat {
    if k == [] then 0
    else
      var digit := k[|k| - 1] as int - '0' as int;
      NumericValue(k[..|k| - 1]) * 10 + if digit < 0 then 0 else digit
  }

  /** The keys that an object lists first, in numeric order. */
  predicate IsArrayIndex(k: string) {
    && k != []
    && (forall i :: 0 <= i < |k| ==> '0' <= k[i] <= '9')
    && (k[0] == '0' ==> |k| == 1)
    && NumericValue(k) < 0xFFFF_FFFF
  }

  predicate PropertyOrder(a: Field, b: Field) {
    if IsArrayIndex(a.key) && IsArrayIndex(b.key) then NumericValue(a.key) <= NumericValue(b.key)
    else IsArrayIndex(a.key) || !IsArrayIndex(b.key)
  }

  /** `Object.fromEntries` over entries with different keys. */
  function FromEntries(fs: seq<Field>): (r: seq<Field>)
    ensures multiset(r) == multiset(fs)
  {
    SortBy(fs, PropertyOrder)
  }

  function ByKey(lc: Collation): (Field, Field) -> bool {
    (a: Field, b: Field) => lc(a.key, b.key)
  }

  function ByText(lc: Collation): (Value, Value) -> bool {
    (a: Value, b: Value) => lc(Stringify(a), Stringify(b))
  }

  // ----- the canonical form

  function Canonical(v: Value, field: string, lc: Collation): Value
    decreases v
  {
    match v
    case Arr(items) =>
      var entries := CanonicalItems(items, lc);
      Arr(if field in BAG_FIELDS then SortBy(entries, ByText(lc)) else entries)
    case Obj(fs) => Obj(FromEntries(SortBy(CanonicalFields(fs, lc), ByKey(lc))))
    case _ => v
  }

  function CanonicalItems(items: seq<Value>, lc: Collation): (r: seq<Value>)
    ensures |r| == |items|
    ensures forall i :: 0 <= i < |items| ==> r[i] == Canonical(items[i], "", lc)
    decreases items
  {
    if items == [] then [] else [Canonical(items[0], "", lc)] + CanonicalItems(items[1..], lc)
  }

  /** Drops undefined and display-only properties and canonicalises the others. */
  function CanonicalFields(fs: seq<Field>, lc: Collation): seq<Field>
    decreases fs
  {
    if fs == [] then []
    else
      var rest := CanonicalFields(fs[1..], lc);
      if Kept(fs[0]) then [Field(fs[0].key, Canonical(fs[0].value, fs[0].key, lc))] + rest else rest
  }

  // ----- the same configuration, without canonical forms

  function RemovedAt<T>(xs: seq<T>, i: nat): seq<T>
    requires i < |xs|
  {
    xs[..i] + xs[i + 1..]
  }

  /** Equal up to property order, undefined and display-only properties, and the order
      inside the three unordered lists, at any depth. */
  ghost predicate SamePayload(v: Value, w: Value, field: string)
    decreases v
  {
    match v
    case Arr(items) => w.Arr? && if field in BAG_FIELDS then SameBag(items, w.items) else SameList(items, w.items)
    case Obj(fs) => w.Obj? && SameFields(fs, w.fields)
    case _ => v == w
  }

  ghost predicate SameList(xs: seq<Value>, ys: seq<Value>)
    decreases xs
  {
    |xs| == |ys| && (xs == [] || (SamePayload(xs[0], ys[0], "") && SameList(xs[1..], ys[1..])))
  }

  /** The items of one list can be paired off with those of the other. */
  ghost predicate SameBag(xs: seq<Value>, ys: seq<Value>)
    decreases xs
  {
    if xs == [] then ys == []
    else exists j :: 0 <= j < |ys| && SamePayload(xs[0], ys[j], "") && SameBag(xs[1..], RemovedAt(ys, j))
  }

  /** The properties that count can be paired off, key by key. */
  ghost predicate SameFields(fs: seq<Field>, gs: seq<Field>)
    decreases fs
  {
    if fs == [] then forall j :: 0 <= j < |gs| ==> !Kept(gs[j])
    else if !Kept(fs[0]) then SameFields(fs[1..], gs)
    else exists j :: && 0 <= j < |gs| && Kept(gs[j]) && gs[j].key == fs[0].key
                     && SamePayload(fs[0].value, gs[j].value, fs[0].key)
                     && SameFields(fs[1..], RemovedAt(gs, j))
  }

  // ----- lemmas about the pieces

  lemma {:induction false} OrdersLift(lc: Collation)
    requires TotalPreorder(lc)
    ensures TotalPreorder(ByKey(lc)) && TotalPreorder(ByText(lc))
  {
    var k, t := ByKey(lc), ByText(lc);
    forall a: Field, b: Field ensures k(a, b) || k(b, a) {
      assert lc(a.key, b.key) || lc(b.key, a.key);
    }
    forall a: Value, b: Value, c: Value | t(a, b) && t(b, c) ensures t(a, c) {
      assert lc(Stringify(a), Stringify(b)) && lc(Stringify(b), Stringify(c));
    }
    forall a: Field, b: Field, c: Field | k(a, b) && k(b, c) ensures k(a, c) {
      assert lc(a.key, b.key) && lc(b.key, c.key);
    }
    forall a: Value, b: Value ensures t(a, b) || t(b, a) {
      assert lc(Stringify(a), Stringify(b)) || lc(Stringify(b), Stringify(a));
    }
  }

  lemma {:induction false} RemovedAtElements<T>(xs: seq<T>, j: nat)
    requires j < |xs|
    ensures multiset(RemovedAt(xs, j)) == multiset(xs) - multiset{xs[j]}
  {
    assert xs == xs[..j] + [xs[j]] + xs[j + 1..];
  }

  lemma {:induction false} RemovedAtItems(items: seq<Value>, j: nat, lc: Collation)
    requires j < |items|
    ensures CanonicalItems(RemovedAt(items, j), lc) == RemovedAt(CanonicalItems(items, lc), j)
  {
    var l, r := CanonicalItems(RemovedAt(items, j), lc), RemovedAt(CanonicalItems(items, lc), j);
    assert |l| == |r|;
    forall k | 0 <= k < |l| ensures l[k] == r[k] {
      assert RemovedAt(items, j)[k] == items[if k < j then k else k + 1];
    }
  }

  lemma {:induction false} FieldsConcat(fs: seq<Field>, gs: seq<Field>, lc: Collation)
    ensures CanonicalFields(fs + gs, lc) == CanonicalFields(fs, lc) + CanonicalFields(gs, lc)
  {
    if fs == [] {
      assert fs + gs == gs;
    } else {
      assert (fs + gs)[1..] == fs[1..] + gs;
      FieldsConcat(fs[1..], gs, lc);
    }
  }

  function CanonicalField(f: Field, lc: Collation): Field {
    Field(f.key, Canonical(f.value, f.key, lc))
  }

  lemma {:induction false} FieldsAround(fs: seq<Field>, j: nat, lc: Collation)
    requires j < |fs| && Kept(fs[j])
    ensures CanonicalFields(fs, lc)
            == CanonicalFields(fs[..j], lc) + ([CanonicalField(fs[j], lc)] + CanonicalFields(fs[j + 1..], lc))
  {
    assert fs == fs[..j] + fs[j..];
    FieldsConcat(fs[..j], fs[j..], lc);
    assert fs[j..][1..] == fs[j + 1..];
  }

  lemma {:induction false} RemovedAtFields(fs: seq<Field>, j: nat, lc: Collation)
    requires j < |fs| && Kept(fs[j])
    ensures multiset(CanonicalFields(fs, lc))
            == multiset(CanonicalFields(RemovedAt(fs, j), lc)) + multiset{CanonicalField(fs[j], lc)}
  {
    FieldsAround(fs, j, lc);
    FieldsConcat(fs[..j], fs[j + 1..], lc);
  }

  /** Where the canonical properties come from. */
  lemma {:induction false} FieldsOrigin(fs: seq<Field>, lc: Collation)
    ensures forall g :: g in CanonicalFields(fs, lc) <==>
              exists j :: 0 <= j < |fs| && Kept(fs[j]) && g == CanonicalField(fs[j], lc)
  {
    if fs != [] {
      FieldsOrigin(fs[1..], lc);
      forall g
        ensures g in CanonicalFields(fs, lc) <==>
                  exists j :: 0 <= j < |fs| && Kept(fs[j]) && g == CanonicalField(fs[j], lc)
      {
        if j :| 0 <= j < |fs[1..]| && Kept(fs[1..][j]) && g == CanonicalField(fs[1..][j], lc) {
          assert fs[j + 1] == fs[1..][j];
        }
        if j :| 0 <= j < |fs| && Kept(fs[j]) && g == CanonicalField(fs[j], lc) {
          assert j > 0 ==> fs[j] == fs[1..][j - 1];
        }
      }
    }
  }

  /** Distinct keys stay distinct, so a key names one canonical property. */
  lemma {:induction false} FieldsByKey(fs: seq<Field>, lc: Collation, a: Field, b: Field)
    requires DistinctKeys(fs) && a in CanonicalFields(fs, lc) && b in CanonicalFields(fs, lc) && a.key == b.key
    ensures a == b
  {
    FieldsOrigin(fs, lc);
  }

  lemma {:induction false} SortKeepsJson(es: seq<Value>, le: (Value, Value) -> bool)
    requires forall e :: e in es ==> Json(e)
    ensures Json(Arr(es)) && Json(Arr(SortBy(es, le)))
  {
    SameMembers(es, SortBy(es, le));
  }

  lemma {:induction false} EntriesKeepJson(es: seq<Field>, le: (Field, Field) -> bool)
    requires forall e :: e in es ==> Json(e.value)
    ensures Json(Obj(FromEntries(SortBy(es, le))))
  {
    SameMembers(es, FromEntries(SortBy(es, le)));
  }

  lemma {:induction false} CanonicalIsJson(v: Value, field: string, lc: Collation)
    requires WellFormed(v) && v != Undefined
    ensures Json(Canonical(v, field, lc))
    decreases v
  {
    match v
    case Arr(items) =>
      var es := CanonicalItems(items, lc);
      forall i | 0 <= i < |items| ensures Json(es[i]) {
        CanonicalIsJson(items[i], "", lc);
      }
      SortKeepsJson(es, ByText(lc));
    case Obj(fs) =>
      FieldsOrigin(fs, lc);
      forall j | 0 <= j < |fs| && Kept(fs[j]) ensures Json(CanonicalField(fs[j], lc).value) {
        CanonicalIsJson(fs[j].value, fs[j].key, lc);
      }
      EntriesKeepJson(CanonicalFields(fs, lc), ByKey(lc));
    case _ =>
  }

  // ----- what the collation must tell apart

  ghost predicate NoTies<T(!new)>(xs: seq<T>, le: (T, T) -> bool) {
    forall a, b :: a in xs && b in xs && le(a, b) && le(b, a) ==> a == b
  }

  /** At no depth does the collation tie two names of one object that count, or the texts of two
      entries of an unordered list that differ. */
  ghost predicate Untied(v: Value, field: string, lc: Collation)
    decreases v
  {
    match v
    case Arr(items) =>
      && (forall i :: 0 <= i < |items| ==> Untied(items[i], "", lc))
      && (field in BAG_FIELDS ==> NoTies(CanonicalItems(items, lc), ByText(lc)))
    case Obj(fs) =>
      && (forall i :: 0 <= i < |fs| && Kept(fs[i]) ==> Untied(fs[i].value, fs[i].key, lc))
      && NoTies(CanonicalFields(fs, lc), ByKey(lc))
    case _ => true
  }

  /** A collation that tells all strings apart ties nothing. */
  lemma {:induction false} SeparatingUntied(v: Value, field: string, lc: Collation)
    requires Separating(lc) && WellFormed(v)
    ensures Untied(v, field, lc)
    decreases v
  {
    match v
    case Arr(items) =>
      forall i | 0 <= i < |items| ensures Untied(items[i], "", lc) {
        SeparatingUntied(items[i], "", lc);
      }
      TextsUntied(items, lc);
    case Obj(fs) =>
      forall i | 0 <= i < |fs| ensures Untied(fs[i].value, fs[i].key, lc) {
        SeparatingUntied(fs[i].value, fs[i].key, lc);
      }
      forall p, q | p in CanonicalFields(fs, lc) && q in CanonicalFields(fs, lc) && ByKey(lc)(p, q) && ByKey(lc)(q, p)
        ensures p == q
      {
        FieldsByKey(fs, lc, p, q);
      }
    case _ =>
  }

  lemma {:induction false} TextsUntied(items: seq<Value>, lc: Collation)
    requires Separating(lc) && AllItems(items)
    ensures NoTies(CanonicalItems(items, lc), ByText(lc))
  {
    var a := CanonicalItems(items, lc);
    forall p, q | p in a && q in a && ByText(lc)(p, q) && ByText(lc)(q, p) ensures p == q {
      var i, j :| 0 <= i < |a| && 0 <= j < |a| && a[i] == p && a[j] == q;
      CanonicalIsJson(items[i], "", lc);
      CanonicalIsJson(items[j], "", lc);
      StringifyInjective(p, q);
    }
  }

  ghost predicate UntiedItems(items: seq<Value>, lc: Collation) {
    TotalPreorder(lc) && AllItems(items) && forall i :: 0 <= i < |items| ==> Untied(items[i], "", lc)
  }

  ghost predicate UntiedFields(fs: seq<Field>, lc: Collation) {
    TotalPreorder(lc) && AllFields(fs) && forall i :: 0 <= i < |fs| && Kept(fs[i]) ==> Untied(fs[i].value, fs[i].key, lc)
  }

  // ----- the canonical form decides SamePayload

  /** Two payloads have the same canonical form exactly when they are the same
      configuration, if the collation ties nothing in one of them. */
  lemma {:induction false} CanonicalExact(v: Value, w: Value, field: string, lc: Collation)
    requires TotalPreorder(lc) && Untied(v, field, lc) && WellFormed(v) && WellFormed(w)
    ensures SamePayload(v, w, field) <==> Canonical(v, field, lc) == Canonical(w, field, lc)
    decreases v, 2
  {
    if v.Arr? && w.Arr? {
      if field in BAG_FIELDS {
        BagExact(v.items, w.items, lc);
        BagSort(v.items, w.items, lc);
      } else {
        ListExact(v.items, w.items, lc);
      }
    } else if v.Obj? && w.Obj? {
      FieldsExact(v.fields, w.fields, lc);
      FieldsSort(v.fields, w.fields, lc);
    }
  }

  ghost predicate AllItems(items: seq<Value>) {
    forall i :: 0 <= i < |items| ==> items[i] != Undefined && WellFormed(items[i])
  }

  ghost predicate AllFields(fs: seq<Field>) {
    forall i :: 0 <= i < |fs| ==> WellFormed(fs[i].value)
  }

  lemma {:induction false} ListExact(xs: seq<Value>, ys: seq<Value>, lc: Collation)
    requires UntiedItems(xs, lc) && AllItems(ys)
    ensures SameList(xs, ys) <==> CanonicalItems(xs, lc) == CanonicalItems(ys, lc)
    decreases xs, 0
  {
    var a, b := CanonicalItems(xs, lc), CanonicalItems(ys, lc);
    if |xs| == |ys| && xs != [] {
      CanonicalExact(xs[0], ys[0], "", lc);
      ListExact(xs[1..], ys[1..], lc);
      assert a == [a[0]] + a[1..] && b == [b[0]] + b[1..];
      assert a[1..] == CanonicalItems(xs[1..], lc) && b[1..] == CanonicalItems(ys[1..], lc);
    }
  }

  lemma {:induction false} BagExact(xs: seq<Value>, ys: seq<Value>, lc: Collation)
    requires UntiedItems(xs, lc) && AllItems(ys)
    ensures SameBag(xs, ys) <==> multiset(CanonicalItems(xs, lc)) == multiset(CanonicalItems(ys, lc))
    decreases xs, 1
  {
    var a, b := CanonicalItems(xs, lc), CanonicalItems(ys, lc);
    if xs != [] {
      forall j | 0 <= j < |ys|
        ensures SamePayload(xs[0], ys[j], "") && SameBag(xs[1..], RemovedAt(ys, j)) <==> Partner(a, b, j)
      {
        BagStep(xs, ys, j, lc);
      }
      PickPartner(a, b);
    } else if ys != [] {
      assert b[0] in multiset(b);
    }
  }

  /** The first element of `a` may be paired off with `b[j]`. */
  ghost predicate Partner<T>(a: seq<T>, b: seq<T>, j: nat)
    requires a != [] && j < |b|
  {
    a[0] == b[j] && multiset(a[1..]) == multiset(b) - multiset{b[j]}
  }

  lemma {:induction false} BagStep(xs: seq<Value>, ys: seq<Value>, j: nat, lc: Collation)
    requires UntiedItems(xs, lc) && AllItems(ys) && xs != [] && j < |ys|
    ensures SamePayload(xs[0], ys[j], "") && SameBag(xs[1..], RemovedAt(ys, j)) <==>
              Partner(CanonicalItems(xs, lc), CanonicalItems(ys, lc), j)
    decreases xs, 0
  {
    var a, b := CanonicalItems(xs, lc), CanonicalItems(ys, lc);
    assert a[1..] == CanonicalItems(xs[1..], lc);
    CanonicalExact(xs[0], ys[j], "", lc);
    BagExact(xs[1..], RemovedAt(ys, j), lc);
    RemovedAtItems(ys, j, lc);
    RemovedAtElements(b, j);
  }

  /** Equal bags: the first element of one is found in the other, and the rests agree. */
  lemma {:induction false} PickPartner<T>(a: seq<T>, b: seq<T>)
    requires a != []
    ensures multiset(a) == multiset(b) <==>
              exists j :: 0 <= j < |b| && Partner(a, b, j)
  {
    TailElements(a);
    if multiset(a) == multiset(b) {
      SameMembers(a, b);
      assert a[0] in b;
      var j :| 0 <= j < |b| && b[j] == a[0];
      assert Partner(a, b, j);
    }
    if j :| 0 <= j < |b| && Partner(a, b, j) {
      assert b[j] in multiset(b);
      assert multiset(a) == multiset{a[0]} + multiset(a[1..]);
    }
  }

  lemma {:induction false} BagSort(xs: seq<Value>, ys: seq<Value>, lc: Collation)
    requires TotalPreorder(lc) && NoTies(CanonicalItems(xs, lc), ByText(lc))
    ensures multiset(CanonicalItems(xs, lc)) == multiset(CanonicalItems(ys, lc)) <==>
              SortBy(CanonicalItems(xs, lc), ByText(lc)) == SortBy(CanonicalItems(ys, lc), ByText(lc))
  {
    var a, b := CanonicalItems(xs, lc), CanonicalItems(ys, lc);
    OrdersLift(lc);
    if multiset(a) == multiset(b) {
      SortOfPermutation(a, b, ByText(lc));
    }
  }

  lemma {:induction false} FieldsExact(fs: seq<Field>, gs: seq<Field>, lc: Collation)
    requires UntiedFields(fs, lc) && AllFields(gs)
    ensures SameFields(fs, gs) <==> multiset(CanonicalFields(fs, lc)) == multiset(CanonicalFields(gs, lc))
    decreases fs, 1
  {
    var a, b := CanonicalFields(fs, lc), CanonicalFields(gs, lc);
    FieldsOrigin(gs, lc);
    if fs == [] {
      assert multiset(a) == multiset(b) <==> b == [] by {
        if b != [] { assert b[0] in multiset(b); }
      }
      if b != [] { assert b[0] in b; }
      forall j | 0 <= j < |gs| && Kept(gs[j]) ensures CanonicalField(gs[j], lc) in b { }
    } else if !Kept(fs[0]) {
      FieldsExact(fs[1..], gs, lc);
    } else {
      forall j | 0 <= j < |gs| && Kept(gs[j])
        ensures FieldPartner(fs, gs, j) <==> CanonicalField(fs[0], lc) == CanonicalField(gs[j], lc) && multiset(a) == multiset(b)
      {
        FieldsStep(fs, gs, j, lc);
      }
      assert SameFields(fs, gs) <==> exists j :: 0 <= j < |gs| && Kept(gs[j]) && FieldPartner(fs, gs, j);
      if multiset(a) == multiset(b) {
        SameMembers(a, b);
        assert a[0] in b;
      }
    }
  }

  ghost predicate FieldPartner(fs: seq<Field>, gs: seq<Field>, j: nat)
    requires fs != [] && j < |gs|
  {
    && gs[j].key == fs[0].key && SamePayload(fs[0].value, gs[j].value, fs[0].key)
    && SameFields(fs[1..], RemovedAt(gs, j))
  }

  lemma {:induction false} FieldsStep(fs: seq<Field>, gs: seq<Field>, j: nat, lc: Collation)
    requires UntiedFields(fs, lc) && AllFields(gs) && fs != [] && Kept(fs[0]) && j < |gs| && Kept(gs[j])
    ensures FieldPartner(fs, gs, j) <==>
              && CanonicalField(fs[0], lc) == CanonicalField(gs[j], lc)
              && multiset(CanonicalFields(fs, lc)) == multiset(CanonicalFields(gs, lc))
    decreases fs, 0
  {
    hide WellFormed, Untied, SamePayload, Canonical, TotalPreorder;
    var head, rest := CanonicalField(fs[0], lc), CanonicalFields(fs[1..], lc);
    assert CanonicalFields(fs, lc) == [head] + rest;
    assert multiset([head] + rest) == multiset(rest) + multiset{head};
    CanonicalExact(fs[0].value, gs[j].value, fs[0].key, lc);
    FieldsExact(fs[1..], RemovedAt(gs, j), lc);
    RemovedAtFields(gs, j, lc);
    CancelOne(rest, CanonicalFields(RemovedAt(gs, j), lc), head);
  }

  lemma {:induction false} CancelOne<T>(xs: seq<T>, ys: seq<T>, x: T)
    ensures multiset(xs) + multiset{x} == multiset(ys) + multiset{x} <==> multiset(xs) == multiset(ys)
  {
    assert (multiset(xs) + multiset{x}) - multiset{x} == multiset(xs);
    assert (multiset(ys) + multiset{x}) - multiset{x} == multiset(ys);
  }

  lemma {:induction false} FieldsSort(fs: seq<Field>, gs: seq<Field>, lc: Collation)
    requires TotalPreorder(lc) && NoTies(CanonicalFields(fs, lc), ByKey(lc))
    ensures multiset(CanonicalFields(fs, lc)) == multiset(CanonicalFields(gs, lc)) <==>
              FromEntries(SortBy(CanonicalFields(fs, lc), ByKey(lc)))
              == FromEntries(SortBy(CanonicalFields(gs, lc), ByKey(lc)))
  {
    var a, b := CanonicalFields(fs, lc), CanonicalFields(gs, lc);
    OrdersLift(lc);
    if multiset(a) == multiset(b) {
      SortOfPermutation(a, b, ByKey(lc));
    }
  }

  /** The text stored in a cart key tells payloads apart exactly when they differ as
      configurations. */
  lemma {:induction false} PayloadTextExact(v: Value, w: Value, lc: Collation)
    requires TotalPreorder(lc) && Untied(v, "", lc) && WellFormed(v) && WellFormed(w) && v != Undefined && w != Undefined
    ensures SamePayload(v, w, "") <==> Stringify(Canonical(v, "", lc)) == Stringify(Canonical(w, "", lc))
  {
    CanonicalExact(v, w, "", lc);
    CanonicalIsJson(v, "", lc);
    CanonicalIsJson(w, "", lc);
    if Stringify(Canonical(v, "", lc)) == Stringify(Canonical(w, "", lc)) {
      StringifyInjective(Canonical(v, "", lc), Canonical(w, "", lc));
    }
  }

  // ----- canonical forms are fixed points

  lemma {:induction false} FixedItems(items: seq<Value>, lc: Collation)
    requires forall x :: x in items ==> Canonical(x, "", lc) == x
    ensures CanonicalItems(items, lc) == items
  {
  }

  lemma {:induction false} FixedFields(fs: seq<Field>, lc: Collation)
    requires forall f :: f in fs ==> Kept(f) && CanonicalField(f, lc) == f
    ensures CanonicalFields(fs, lc) == fs
  {
    if fs != [] {
      assert fs[0] in fs;
      FixedFields(fs[1..], lc);
    }
  }

  /** Canonicalising twice changes nothing more. */
  lemma {:induction false} CanonicalIdempotent(v: Value, field: string, lc: Collation)
    requires TotalPreorder(lc) && Untied(v, field, lc) && WellFormed(v)
    ensures Canonical(Canonical(v, field, lc), field, lc) == Canonical(v, field, lc)
    decreases v
  {
    match v
    case Arr(items) =>
      var es := CanonicalItems(items, lc);
      var sorted := SortBy(es, ByText(lc));
      forall i | 0 <= i < |items| ensures Canonical(es[i], "", lc) == es[i] {
        CanonicalIdempotent(items[i], "", lc);
      }
      SameMembers(es, sorted);
      FixedItems(es, lc);
      FixedItems(sorted, lc);
      OrdersLift(lc);
      SortBySorted(es, ByText(lc));
      SortOfSorted(sorted, ByText(lc));
    case Obj(fs) =>
      var es := CanonicalFields(fs, lc);
      FieldsOrigin(fs, lc);
      forall f | f in es ensures Kept(f) && CanonicalField(f, lc) == f {
        var j :| 0 <= j < |fs| && Kept(fs[j]) && f == CanonicalField(fs[j], lc);
        CanonicalIdempotent(fs[j].value, fs[j].key, lc);
      }
      ResortEntries(fs, lc);
    case _ =>
  }

  lemma {:induction false} ResortEntries(fs: seq<Field>, lc: Collation)
    requires TotalPreorder(lc) && NoTies(CanonicalFields(fs, lc), ByKey(lc))
    requires forall f :: f in CanonicalFields(fs, lc) ==> Kept(f) && CanonicalField(f, lc) == f
    ensures var r := FromEntries(SortBy(CanonicalFields(fs, lc), ByKey(lc)));
            FromEntries(SortBy(CanonicalFields(r, lc), ByKey(lc))) == r
  {
    var es, le := CanonicalFields(fs, lc), ByKey(lc);
    var r := FromEntries(SortBy(es, le));
    SameMembers(es, r);
    FixedFields(r, lc);
    OrdersLift(lc);
    SortOfPermutation(es, r, le);
  }

  // ----- the source sorts the entries before it canonicalises their values

  function KeptFields(fs: seq<Field>): seq<Field> {
    if fs == [] then []
    else if Kept(fs[0]) then [fs[0]] + KeptFields(fs[1..])
    else KeptFields(fs[1..])
  }

  lemma {:induction false} InsertCommutes(x: Field, ys: seq<Field>, lc: Collation)
    requires Kept(x) && forall y :: y in ys ==> Kept(y)
    ensures CanonicalFields(Insert(x, ys, ByKey(lc)), lc)
            == Insert(CanonicalField(x, lc), CanonicalFields(ys, lc), ByKey(lc))
  {
    if ys != [] {
      assert ys[0] in ys;
      assert ([x] + ys)[1..] == ys;
      var tail := Insert(x, ys[1..], ByKey(lc));
      assert ([ys[0]] + tail)[1..] == tail;
      InsertCommutes(x, ys[1..], lc);
    } else {
      assert ([x] + ys)[1..] == [];
    }
  }

  /** Filter, sort, then canonicalise gives what filter, canonicalise, then sort gives. */
  lemma {:induction false} SortBeforeCanonicalising(fs: seq<Field>, lc: Collation)
    ensures CanonicalFields(SortBy(KeptFields(fs), ByKey(lc)), lc) == SortBy(CanonicalFields(fs, lc), ByKey(lc))
    ensures forall f :: f in KeptFields(fs) ==> Kept(f)
  {
    if fs != [] {
      SortBeforeCanonicalising(fs[1..], lc);
      if Kept(fs[0]) {
        var rest := SortBy(KeptFields(fs[1..]), ByKey(lc));
        SameMembers(rest, KeptFields(fs[1..]));
        InsertCommutes(fs[0], rest, lc);
      }
    }
  }

  // ----- the collation must tell keys and entries apart

  /** Two entries whose texts the collation ties make the form depend on the order of an unordered
      list: the same configuration then gets two forms. */
  lemma {:induction false} TiedTextsBreakCanonicalForm(x: Value, y: Value, field: string, lc: Collation)
    requires field in BAG_FIELDS && UntiedItems([x, y], lc)
    requires var a, b := Canonical(x, "", lc), Canonical(y, "", lc); a != b && ByText(lc)(a, b) && ByText(lc)(b, a)
    ensures SamePayload(Arr([x, y]), Arr([y, x]), field)
    ensures Canonical(Arr([x, y]), field, lc) != Canonical(Arr([y, x]), field, lc)
  {
    hide Canonical, CanonicalItems, UntiedItems, SamePayload;
    SwappedEntries(x, y, field, lc);
    SwappedForms(x, y, field, lc);
  }

  lemma {:induction false} SwappedEntries(x: Value, y: Value, field: string, lc: Collation)
    requires field in BAG_FIELDS && UntiedItems([x, y], lc)
    ensures SamePayload(Arr([x, y]), Arr([y, x]), field)
  {
    PairItems(x, y, lc);
    PairItems(y, x, lc);
    hide Canonical, CanonicalItems, WellFormed, Untied, TotalPreorder;
    assert [x, y][0] == x && [x, y][1] == y;
    BagExact([x, y], [y, x], lc);
  }

  lemma {:induction false} PairItems(x: Value, y: Value, lc: Collation)
    ensures CanonicalItems([x, y], lc) == [Canonical(x, "", lc), Canonical(y, "", lc)]
  {
    hide Canonical;
  }

  lemma {:induction false} SwappedForms(x: Value, y: Value, field: string, lc: Collation)
    requires field in BAG_FIELDS
    requires var a, b := Canonical(x, "", lc), Canonical(y, "", lc); a != b && ByText(lc)(a, b) && ByText(lc)(b, a)
    ensures Canonical(Arr([x, y]), field, lc) != Canonical(Arr([y, x]), field, lc)
  {
    var a, b := Canonical(x, "", lc), Canonical(y, "", lc);
    PairItems(x, y, lc);
    PairItems(y, x, lc);
    TiedTexts(a, b, lc);
    TiedTexts(b, a, lc);
    assert [a, b][0] != [b, a][0];
    hide CanonicalItems, ByText, SortBy;
    ListForm([x, y], field, lc);
    ListForm([y, x], field, lc);
  }

  lemma {:induction false} ListForm(items: seq<Value>, field: string, lc: Collation)
    requires field in BAG_FIELDS
    ensures Canonical(Arr(items), field, lc) == Arr(SortBy(CanonicalItems(items, lc), ByText(lc)))
  {
  }

  lemma {:induction false} TiedTexts(a: Value, b: Value, lc: Collation)
    requires ByText(lc)(a, b)
    ensures SortBy([a, b], ByText(lc)) == [a, b]
  {
    assert [a, b][1..] == [b] && [b][1..] == [];
    assert SortBy([b], ByText(lc)) == [b];
  }

  /** Two distinct keys the collation ties make the canonical form depend on property
      order: the same configuration then gets two forms. */
  lemma {:induction false} TiedKeysBreakCanonicalForm(a: string, b: string, lc: Collation)
    requires TotalPreorder(lc) && a != b && lc(a, b) && lc(b, a)
    requires a !in DISPLAY_FIELDS && b !in DISPLAY_FIELDS && !IsArrayIndex(a) && !IsArrayIndex(b)
    ensures var f, g := Field(a, Null), Field(b, Null);
            && SamePayload(Obj([f, g]), Obj([g, f]), "")
            && Canonical(Obj([f, g]), "", lc) != Canonical(Obj([g, f]), "", lc)
  {
    var f, g := Field(a, Null), Field(b, Null);
    TiedPair(f, g, lc);
    TiedPair(g, f, lc);
    assert [f, g][0] != [g, f][0];
    SwappedPair(f, g);
  }

  lemma {:induction false} SwappedPair(f: Field, g: Field)
    requires Kept(f) && Kept(g) && f.value == g.value == Null
    ensures SameFields([f, g], [g, f])
  {
    SingleField(g);
    var fs, gs := [f, g], [g, f];
    assert fs[1..] == [g] && RemovedAt(gs, 1) == [g];
    assert gs[1].key == fs[0].key && Kept(gs[1]) && SamePayload(fs[0].value, gs[1].value, fs[0].key);
  }

  lemma {:induction false} SingleField(g: Field)
    requires Kept(g) && g.value == Null
    ensures SameFields([g], [g])
  {
    var gs := [g];
    assert gs[1..] == [] && RemovedAt(gs, 0) == [];
    assert gs[0].key == g.key && Kept(gs[0]) && SamePayload(g.value, gs[0].value, g.key) && SameFields([], []);
  }

  lemma {:induction false} TiedPair(f: Field, g: Field, lc: Collation)
    requires lc(f.key, g.key) && Kept(f) && Kept(g) && f.value == g.value == Null
    requires !IsArrayIndex(f.key) && !IsArrayIndex(g.key)
    ensures Canonical(Obj([f, g]), "", lc) == Obj([f, g])
  {
    assert [f, g][1..] == [g] && [g][1..] == [];
    assert CanonicalFields([g], lc) == [g];
    assert CanonicalFields([f, g], lc) == [f, g];
    assert SortBy([g], ByKey(lc)) == [g] && SortBy([g], PropertyOrder) == [g];
  }
}
