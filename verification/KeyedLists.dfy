/** Lists of keyed entries, and the map such a list stands for when no key occurs twice. */
module KeyedLists {
  import opened Strings

  datatype Keyed<T> = Keyed(key: string, line: T)

  ghost predicate Distinct<T>(items: seq<Keyed<T>>) {
    forall i, j :: 0 <= i < j < |items| ==> items[i].key != items[j].key
  }

  /** `findIndex(item => item.key === key)`. */
  function FindByKey<T>(items: seq<Keyed<T>>, key: string): (r: Option<nat>)
    ensures r.Some? ==> r.value < |items| && items[r.value].key == key
    ensures r.Some? ==> forall i :: 0 <= i < r.value ==> items[i].key != key
    ensures r.None? ==> forall i :: 0 <= i < |items| ==> items[i].key != key
  {
    if items == [] then None
    else if items[0].key == key then Some(0)
    else
      var r := FindByKey(items[1..], key);
      if r.Some? then Some(r.value + 1) else None
  }

  /** `filter(item => item.key !== key)`. */
  function FilterOut<T>(items: seq<Keyed<T>>, key: string): seq<Keyed<T>> {
    if items == [] then []
    else if items[0].key == key then FilterOut(items[1..], key)
    else [items[0]] + FilterOut(items[1..], key)
  }

  /** `splice(i, 0, item)` on a copy. */
  function Spliced<T>(items: seq<Keyed<T>>, i: nat, item: Keyed<T>): seq<Keyed<T>> {
    var at := if i <= |items| then i else |items|;
    items[..at] + [item] + items[at..]
  }

  function Keys<T>(items: seq<Keyed<T>>): set<string> {
    set i | 0 <= i < |items| :: items[i].key
  }

  function Contents<T>(items: seq<Keyed<T>>): (m: map<string, T>)
    ensures m.Keys == Keys(items)
  {
    map k | k in Keys(items) :: items[FindByKey(items, k).value].line
  }

  /** The map has exactly the entries of the list. */
  ghost predicate Represents<T>(items: seq<Keyed<T>>, m: map<string, T>) {
    && (forall k :: k in m ==> exists i :: 0 <= i < |items| && items[i].key == k)
    && (forall i :: 0 <= i < |items| ==> items[i].key in m && m[items[i].key] == items[i].line)
  }

  lemma {:induction false} ContentsRepresents<T>(items: seq<Keyed<T>>)
    requires Distinct(items)
    ensures Represents(items, Contents(items))
  {
    forall i | 0 <= i < |items| ensures items[i].key in Contents(items) && Contents(items)[items[i].key] == items[i].line {
      assert items[i].key in Keys(items);
    }
  }

  lemma {:induction false} RepresentsUnique<T>(items: seq<Keyed<T>>, m: map<string, T>)
    requires Distinct(items) && Represents(items, m)
    ensures Contents(items) == m
  {
  }

  lemma {:induction false} ContentsAt<T>(items: seq<Keyed<T>>, i: nat)
    requires Distinct(items) && i < |items|
    ensures items[i].key in Contents(items) && Contents(items)[items[i].key] == items[i].line
  {
    ContentsRepresents(items);
  }

  lemma {:induction false} FilterOutKeeps<T>(items: seq<Keyed<T>>, key: string)
    ensures forall x :: x in FilterOut(items, key) <==> x in items && x.key != key
    ensures (forall i :: 0 <= i < |items| ==> items[i].key != key) ==> FilterOut(items, key) == items
  {
    if items != [] {
      FilterOutKeeps(items[1..], key);
    }
  }

  /** Removing the one entry with a key takes out just its position. */
  lemma {:induction false} FilterOutAt<T>(items: seq<Keyed<T>>, n: nat)
    requires n < |items| && Distinct(items)
    ensures FilterOut(items, items[n].key) == items[..n] + items[n + 1..]
  {
    if n == 0 {
      FilterOutKeeps(items[1..], items[0].key);
      assert items[1..] == items[..0] + items[1..];
    } else {
      FilterOutAt(items[1..], n - 1);
      assert items[1..][..n - 1] == items[1..n] && items[1..][n..] == items[n + 1..];
      assert [items[0]] + items[1..n] == items[..n];
    }
  }

  lemma {:induction false} FilterOutRefines<T>(items: seq<Keyed<T>>, key: string)
    requires Distinct(items)
    ensures Distinct(FilterOut(items, key))
    ensures Contents(FilterOut(items, key)) == Contents(items) - {key}
    ensures forall x :: x in FilterOut(items, key) <==> x in items && x.key != key
  {
    var found := FindByKey(items, key);
    FilterOutKeeps(items, key);
    ContentsRepresents(items);
    if found.Some? {
      FilterOutAt(items, found.value);
      CutEntry(items, found.value, Contents(items));
    }
    RepresentsUnique(FilterOut(items, key), Contents(items) - {key});
  }

  lemma {:induction false} CutEntry<T>(items: seq<Keyed<T>>, n: nat, m: map<string, T>)
    requires Distinct(items) && n < |items| && Represents(items, m)
    ensures var r := items[..n] + items[n + 1..];
            Distinct(r) && Represents(r, m - {items[n].key})
  {
    var r := items[..n] + items[n + 1..];
    assert forall i :: 0 <= i < |r| ==> r[i] == items[if i < n then i else i + 1];
    forall k | k in m && k != items[n].key ensures exists i :: 0 <= i < |r| && r[i].key == k {
      var j :| 0 <= j < |items| && items[j].key == k;
      assert r[if j < n then j else j - 1].key == k;
    }
  }

  /** Rewriting an entry under its key updates that key in the map. */
  lemma {:induction false} ChangeRefines<T>(items: seq<Keyed<T>>, n: nat, line: T)
    requires Distinct(items) && n < |items|
    ensures var r := items[n := Keyed(items[n].key, line)];
            Distinct(r) && Contents(r) == Contents(items)[items[n].key := line]
  {
    ContentsRepresents(items);
    ChangeEntry(items, n, line, Contents(items));
    RepresentsUnique(items[n := Keyed(items[n].key, line)], Contents(items)[items[n].key := line]);
  }

  lemma {:induction false} ChangeEntry<T>(items: seq<Keyed<T>>, n: nat, line: T, m: map<string, T>)
    requires Distinct(items) && n < |items| && Represents(items, m)
    ensures var r := items[n := Keyed(items[n].key, line)];
            Distinct(r) && Represents(r, m[items[n].key := line])
  {
    var r := items[n := Keyed(items[n].key, line)];
    forall k | k in m ensures exists i :: 0 <= i < |r| && r[i].key == k {
      var j :| 0 <= j < |items| && items[j].key == k;
      assert r[j].key == k;
    }
  }

  lemma {:induction false} ChangedMembers<T>(items: seq<Keyed<T>>, n: nat, item: Keyed<T>)
    requires n < |items|
    ensures forall x :: x in items[n := item] ==> x in items || x == item
  {
  }

  lemma {:induction false} InsertedMembers<T>(items: seq<Keyed<T>>, n: nat, item: Keyed<T>)
    requires n <= |items|
    ensures forall x :: x in items[..n] + [item] + items[n..] ==> x in items || x == item
  {
  }

  /** An entry with a new key adds that key to the map, wherever it is put. */
  lemma {:induction false} InsertRefines<T>(items: seq<Keyed<T>>, n: nat, item: Keyed<T>)
    requires Distinct(items) && n <= |items|
    requires forall i :: 0 <= i < |items| ==> items[i].key != item.key
    ensures var r := items[..n] + [item] + items[n..];
            Distinct(r) && Contents(r) == Contents(items)[item.key := item.line]
  {
    ContentsRepresents(items);
    InsertEntry(items, n, item, Contents(items));
    RepresentsUnique(items[..n] + [item] + items[n..], Contents(items)[item.key := item.line]);
  }

  lemma {:induction false} InsertEntry<T>(items: seq<Keyed<T>>, n: nat, item: Keyed<T>, m: map<string, T>)
    requires Distinct(items) && n <= |items| && Represents(items, m)
    requires forall i :: 0 <= i < |items| ==> items[i].key != item.key
    ensures var r := items[..n] + [item] + items[n..];
            Distinct(r) && Represents(r, m[item.key := item.line])
  {
    var r, m' := items[..n] + [item] + items[n..], m[item.key := item.line];
    forall i | 0 <= i < |r| ensures r[i].key in m' && m'[r[i].key] == r[i].line {
      InsertedAt(items, n, item, i);
    }
    forall i, j | 0 <= i < j < |r| ensures r[i].key != r[j].key {
      InsertedAt(items, n, item, i);
      InsertedAt(items, n, item, j);
    }
    forall k | k in m' ensures exists i :: 0 <= i < |r| && r[i].key == k {
      InsertedKey(items, n, item, m, k);
    }
  }

  lemma {:induction false} InsertedAt<T>(items: seq<Keyed<T>>, n: nat, item: Keyed<T>, i: nat)
    requires n <= |items| && i <= |items|
    ensures (items[..n] + [item] + items[n..])[i] == if i < n then items[i] else if i == n then item else items[i - 1]
  {
  }

  lemma {:induction false} InsertedKey<T>(items: seq<Keyed<T>>, n: nat, item: Keyed<T>, m: map<string, T>, k: string)
    requires n <= |items| && Represents(items, m) && (k in m || k == item.key)
    ensures exists i :: 0 <= i <= |items| && (items[..n] + [item] + items[n..])[i].key == k
  {
    var r := items[..n] + [item] + items[n..];
    if k == item.key {
      assert r[n].key == k;
    } else {
      var j :| 0 <= j < |items| && items[j].key == k;
      InsertedAt(items, n, item, if j < n then j else j + 1);
      assert r[if j < n then j else j + 1].key == k;
    }
  }
}
