/** The "recent sources" list: noise-source names kept, most recent first,
    under one key of a preference store whose values are string lists. A
    name is added only if no entry already equals it ignoring case, so the
    list never holds two names that differ only in case. */
module SourceListKeeper {
  import opened Jvm

  const KEY_SOURCE_LIST: string := "edu.mtu.src.list"

  /** The list-valued preference store behind `recallList`/`preserveList`/`clearAll`. */
  type Store = map<string, seq<string>>

  /** `list()`: the stored list, empty when nothing has been stored. */
  function List(store: Store): seq<string> {
    if KEY_SOURCE_LIST in store then store[KEY_SOURCE_LIST] else []
  }

  /** No two entries of `l` are equal ignoring case. */
  predicate Unique(l: seq<string>) {
    forall i, j :: 0 <= i < j < |l| ==> !EqualsIgnoreCase(l[i], l[j])
  }

  /** Some entry of `l` equals `s` ignoring case. */
  function AnyEqualIgnoreCase(l: seq<string>, s: string): (r: bool)
    ensures r <==> exists i :: 0 <= i < |l| && EqualsIgnoreCase(l[i], s)
  {
    if l == [] then false
    else EqualsIgnoreCase(l[0], s) || AnyEqualIgnoreCase(l[1..], s)
  }

  /** `contains(s)`: a case-insensitive scan of the stored list. */
  function Contains(store: Store, s: string): (r: bool)
    ensures r <==> exists i :: 0 <= i < |List(store)| && EqualsIgnoreCase(List(store)[i], s)
  {
    AnyEqualIgnoreCase(List(store), s)
  }

  /** `add(s)`: prepends `s` and stores the list, unless an entry already
      equals `s` ignoring case, in which case nothing is written. */
  function Add(store: Store, s: string): (r: Store)
    ensures r - {KEY_SOURCE_LIST} == store - {KEY_SOURCE_LIST}
    ensures Contains(store, s) ==> r == store
    ensures !Contains(store, s) ==>
              |List(r)| == |List(store)| + 1 && List(r)[0] == s
              && forall i :: 0 <= i < |List(store)| ==> List(r)[i + 1] == List(store)[i]
    ensures Contains(r, s)
  {
    var recalled := List(store);
    if !Contains(store, s) then store[KEY_SOURCE_LIST := [s] + recalled] else store
  }

  /** `getCount()`. */
  function GetCount(store: Store): nat {
    |List(store)|
  }

  /** `getItem(i)`: entry `i`, or null outside `0 <= i < getCount()`. */
  function GetItem(store: Store, i: int): (r: Option<string>)
    ensures r.Some? <==> 0 <= i < GetCount(store)
    ensures r.Some? ==> r.value == List(store)[i]
  {
    var el := List(store);
    if i >= 0 && i < |el| then Some(el[i]) else None
  }

  /** `clear()`: `clearAll` empties the whole store. */
  function Clear(store: Store): (r: Store)
    ensures List(r) == [] && GetCount(r) == 0
    ensures forall s :: !Contains(r, s)
  {
    map[]
  }

  // ---------------------------------------------------------------------
  // Properties
  // ---------------------------------------------------------------------

  /** `list()` is what `preserveList` last stored under the list key; other
      keys do not affect it, and `getCount()` is its length. */
  lemma ListReadsStore(store: Store, k: string, l: seq<string>)
    ensures List(store[KEY_SOURCE_LIST := l]) == l && GetCount(store[KEY_SOURCE_LIST := l]) == |l|
    ensures k != KEY_SOURCE_LIST ==> List(store[k := l]) == List(store)
    ensures List(map[]) == []
  {
  }

  /** `getCount()` is 0 exactly when no name at all is contained. */
  lemma CountZeroIffNothingContained(store: Store)
    ensures GetCount(store) == 0 <==> forall s :: !Contains(store, s)
  {
    if GetCount(store) != 0 {
      var first := List(store)[0];
      assert EqualsIgnoreCase(List(store)[0], first);
      assert Contains(store, first);
    }
  }

  /** Adding keeps the list free of case-insensitive duplicates. */
  lemma AddPreservesUnique(store: Store, s: string)
    requires Unique(List(store))
    ensures Unique(List(Add(store, s)))
  {
    var l := List(store);
    if !Contains(store, s) {
      var l' := List(Add(store, s));
      assert l' == [s] + l;
      forall i, j | 0 <= i < j < |l'|
        ensures !EqualsIgnoreCase(l'[i], l'[j])
      {
        if i == 0 {
          assert l'[j] == l[j - 1];
          assert !EqualsIgnoreCase(l[j - 1], s);
        } else {
          assert l'[i] == l[i - 1] && l'[j] == l[j - 1];
        }
      }
    }
  }

  /** The list grows by one exactly when no entry matched `s` ignoring case,
      and otherwise keeps its size. */
  lemma AddCount(store: Store, s: string)
    ensures GetCount(Add(store, s)) == GetCount(store) + (if Contains(store, s) then 0 else 1)
    ensures GetCount(Add(store, s)) <= GetCount(store) + 1
  {
  }

  /** Adding a name twice, in any letter case, is the same as adding it once. */
  lemma AddIdempotent(store: Store, s: string, t: string)
    requires EqualsIgnoreCase(s, t)
    ensures Add(Add(store, s), t) == Add(store, s)
  {
    var r := Add(store, s);
    assert Contains(r, s);
    var i :| 0 <= i < |List(r)| && EqualsIgnoreCase(List(r)[i], s);
    assert EqualsIgnoreCase(List(r)[i], t);
  }

  /** Indexed access after an insertion: the new name at 0, old entry `i` at `i + 1`. */
  lemma GetItemAfterAdd(store: Store, s: string, i: nat)
    requires !Contains(store, s)
    ensures GetItem(Add(store, s), 0) == Some(s)
    ensures GetItem(Add(store, s), i + 1) == GetItem(store, i)
  {
  }

  /** A cleared store accepts any first name: it lands alone at index 0. */
  lemma AddAfterClear(store: Store, s: string)
    ensures List(Add(Clear(store), s)) == [s]
  {
  }

  /** Adding "C", "B", "A" to a cleared store lists ["A", "B", "C"]. */
  lemma PreserveOrderExample(store: Store)
    ensures List(Add(Add(Add(Clear(store), "C"), "B"), "A")) == ["A", "B", "C"]
  {
    var s1 := Add(Clear(store), "C");
    assert List(s1) == ["C"];
    assert Lower("C"[0]) != Lower("B"[0]);
    var s2 := Add(s1, "B");
    assert List(s2) == ["B", "C"];
    assert Lower("C"[0]) != Lower("A"[0]) && Lower("B"[0]) != Lower("A"[0]);
  }

  /** Adding "Fan", "Fan", "Lawnmower" to a cleared store leaves two entries. */
  lemma IgnoreDuplicateAddExample(store: Store)
    ensures GetCount(Add(Add(Add(Clear(store), "Fan"), "Fan"), "Lawnmower")) == 2
  {
    var s1 := Add(Clear(store), "Fan");
    AddIdempotent(Clear(store), "Fan", "Fan");
    assert |"Fan"| != |"Lawnmower"|;
  }
}
