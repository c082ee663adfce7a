/** Lists looked up by key through a map built in list order, as the loops that
    fill a `byID` map do: of two entries with the same key the later one wins. */
module Lookup {
  import opened Ordering

  /** The map after the first `n` entries. */
  function Filled<T>(key: T -> string, items: seq<T>, n: nat): map<string, T>
    requires n <= |items|
  {
    if n == 0 then map[] else Filled(key, items, n - 1)[key(items[n - 1]) := items[n - 1]]
  }

  function Index<T>(key: T -> string, items: seq<T>): map<string, T> {
    Filled(key, items, |items|)
  }

  lemma {:induction false} FilledSound<T>(key: T -> string, items: seq<T>, n: nat)
    requires n <= |items|
    ensures forall k :: k in Filled(key, items, n) ==>
      key(Filled(key, items, n)[k]) == k && Filled(key, items, n)[k] in items
    ensures forall i :: 0 <= i < n ==> key(items[i]) in Filled(key, items, n)
  {
    if n > 0 { FilledSound(key, items, n - 1); }
  }

  /** The map finds entries of the list, under their own keys, and every key. */
  lemma IndexSound<T>(key: T -> string, items: seq<T>)
    ensures forall k :: k in Index(key, items) ==> key(Index(key, items)[k]) == k && Index(key, items)[k] in items
    ensures forall x :: x in items ==> key(x) in Index(key, items)
  {
    FilledSound(key, items, |items|);
  }

  ghost predicate DistinctKeys<T>(key: T -> string, items: seq<T>) {
    forall i, j :: 0 <= i < j < |items| ==> key(items[i]) != key(items[j])
  }

  lemma {:induction false} FilledFinds<T>(key: T -> string, items: seq<T>, i: nat, n: nat)
    requires DistinctKeys(key, items) && i < n <= |items|
    ensures key(items[i]) in Filled(key, items, n) && Filled(key, items, n)[key(items[i])] == items[i]
  {
    if i < n - 1 {
      FilledFinds(key, items, i, n - 1);
      assert key(items[i]) != key(items[n - 1]);
    }
  }

  lemma IndexFinds<T>(key: T -> string, items: seq<T>, x: T)
    requires DistinctKeys(key, items) && x in items
    ensures key(x) in Index(key, items) && Index(key, items)[key(x)] == x
  {
    var i :| 0 <= i < |items| && items[i] == x;
    FilledFinds(key, items, i, |items|);
  }

  /** With distinct keys the order of the list does not matter. */
  lemma IndexIgnoresOrder<T(!new)>(key: T -> string, a: seq<T>, b: seq<T>)
    requires DistinctKeys(key, a) && DistinctKeys(key, b)
    requires forall x :: x in a <==> x in b
    ensures Index(key, a) == Index(key, b)
  {
    var m, n := Index(key, a), Index(key, b);
    IndexSound(key, a);
    IndexSound(key, b);
    hide DistinctKeys, Filled, Index;
    forall k | k in m ensures k in n && n[k] == m[k] {
      assert m[k] in b;
      IndexFinds(key, b, m[k]);
    }
    forall k | k in n ensures k in m { assert n[k] in a; }
  }

  /** Distinct keys, said without positions. */
  lemma DistinctKeysWithoutOrder<T(!new)>(key: T -> string, xs: seq<T>)
    ensures DistinctKeys(key, xs) <==>
      Distinct(xs) && forall x, y :: x in xs && y in xs && key(x) == key(y) ==> x == y
  {
    if DistinctKeys(key, xs) {
      forall i, j | 0 <= i < j < |xs| ensures xs[i] != xs[j] { assert key(xs[i]) != key(xs[j]); }
    }
  }

  lemma DistinctKeysIgnoreOrder<T(!new)>(key: T -> string, a: seq<T>, b: seq<T>)
    requires multiset(a) == multiset(b)
    ensures DistinctKeys(key, a) <==> DistinctKeys(key, b)
  {
    DistinctKeysWithoutOrder(key, a);
    DistinctKeysWithoutOrder(key, b);
    SameBag(a, b);
    DistinctBag(a, b);
    hide DistinctKeys, Distinct;
  }
}
