/** Lists whose elements carry a key: replacing and removing by key, and what a
    key finds. With distinct keys a list is a finite map that remembers an order. */
module KeyedLists {
  import opened Options
  import opened Lookup

  /** What a key finds among the first `n` elements. */
  function Find<T>(key: T -> string, xs: seq<T>, k: string, n: nat): Option<T>
    requires n <= |xs|
  {
    Get(Filled(key, xs, n), k)
  }

  /** The first `n` elements without those under `k`. */
  function Kept<T>(key: T -> string, xs: seq<T>, k: string, n: nat): seq<T>
    requires n <= |xs|
  {
    if n == 0 then [] else Kept(key, xs, k, n - 1) + if key(xs[n - 1]) == k then [] else [xs[n - 1]]
  }

  /** The first `n` elements with `v` for the first under `k` and no other under it. */
  function Swapped<T>(key: T -> string, xs: seq<T>, k: string, v: T, n: nat): seq<T>
    requires n <= |xs|
  {
    if n == 0 then []
    else Swapped(key, xs, k, v, n - 1)
         + if key(xs[n - 1]) != k then [xs[n - 1]] else if Find(key, xs, k, n - 1).Some? then [] else [v]
  }

  function Remove<T>(key: T -> string, xs: seq<T>, k: string): seq<T> {
    Kept(key, xs, k, |xs|)
  }

  function Replace<T>(key: T -> string, xs: seq<T>, k: string, v: T): seq<T> {
    Swapped(key, xs, k, v, |xs|) + if Find(key, xs, k, |xs|).Some? then [] else [v]
  }

  function At<T>(key: T -> string, xs: seq<T>, k: string): Option<T> {
    Find(key, xs, k, |xs|)
  }

  method RemoveByKey<T>(key: T -> string, xs: seq<T>, k: string) returns (out: seq<T>)
    ensures out == Remove(key, xs, k)
  {
    out := [];
    for i := 0 to |xs|
      invariant out == Kept(key, xs, k, i)
    {
      if key(xs[i]) != k { out := out + [xs[i]]; }
    }
  }

  method ReplaceByKey<T>(key: T -> string, xs: seq<T>, k: string, v: T) returns (out: seq<T>)
    ensures out == Replace(key, xs, k, v)
  {
    out := [];
    var replaced := false;
    for i := 0 to |xs|
      invariant out == Swapped(key, xs, k, v, i)
      invariant replaced == Find(key, xs, k, i).Some?
    {
      if key(xs[i]) == k {
        if !replaced {
          out := out + [v];
          replaced := true;
        }
      } else {
        out := out + [xs[i]];
      }
    }
    if !replaced { out := out + [v]; }
  }

  /** The first position of a key from the i-th on, or the length of the list. */
  function Position<T>(key: T -> string, xs: seq<T>, k: string, i: nat): (p: nat)
    requires i <= |xs|
    ensures i <= p <= |xs|
    ensures p < |xs| ==> key(xs[p]) == k
    ensures forall j :: i <= j < p ==> key(xs[j]) != k
    decreases |xs| - i
  {
    if i == |xs| || key(xs[i]) == k then i else Position(key, xs, k, i + 1)
  }

  method IndexOfKey<T>(key: T -> string, xs: seq<T>, k: string) returns (index: int)
    ensures index == if Position(key, xs, k, 0) < |xs| then Position(key, xs, k, 0) else -1
  {
    for i := 0 to |xs|
      invariant Position(key, xs, k, 0) == Position(key, xs, k, i)
    {
      if key(xs[i]) == k { return i; }
    }
    return -1;
  }

  lemma PositionFinds<T>(key: T -> string, xs: seq<T>, k: string)
    ensures Position(key, xs, k, 0) < |xs| <==> At(key, xs, k).Some?
    ensures DistinctKeys(key, xs) && Position(key, xs, k, 0) < |xs| ==>
      At(key, xs, k) == Some(xs[Position(key, xs, k, 0)])
  {
    var p := Position(key, xs, k, 0);
    if p < |xs| {
      FindsSomething(key, xs, k, p, |xs|);
      if DistinctKeys(key, xs) { FindsAt(key, xs, p, |xs|); }
    } else {
      FindsNothing(key, xs, k, |xs|);
    }
  }

  lemma {:induction false} FindsSomething<T>(key: T -> string, xs: seq<T>, k: string, i: nat, n: nat)
    requires i < n <= |xs| && key(xs[i]) == k
    ensures Find(key, xs, k, n).Some?
  {
    if i < n - 1 { FindsSomething(key, xs, k, i, n - 1); }
  }

  lemma {:induction false} FindsNothing<T>(key: T -> string, xs: seq<T>, k: string, n: nat)
    requires n <= |xs| && forall i :: 0 <= i < n ==> key(xs[i]) != k
    ensures Find(key, xs, k, n) == None
  {
    if n > 0 { FindsNothing(key, xs, k, n - 1); }
  }

  lemma {:induction false} FindsKey<T>(key: T -> string, xs: seq<T>, k: string, n: nat)
    requires n <= |xs|
    ensures Find(key, xs, k, n).Some? ==> key(Find(key, xs, k, n).value) == k && Find(key, xs, k, n).value in xs
    ensures Find(key, xs, k, n).Some? <==> Find(key, xs, k, n).Some?
  {
    if n > 0 { FindsKey(key, xs, k, n - 1); }
  }

  /** With distinct keys, a key finds the element under it. */
  lemma {:induction false} FindsAt<T>(key: T -> string, xs: seq<T>, i: nat, n: nat)
    requires DistinctKeys(key, xs) && i < n <= |xs|
    ensures Find(key, xs, key(xs[i]), n) == Some(xs[i])
  {
    if i < n - 1 {
      FindsAt(key, xs, i, n - 1);
      assert key(xs[i]) != key(xs[n - 1]);
    }
  }

  /** Finding in what another list adds one element to. */
  lemma {:induction false} FindPrefix<T>(key: T -> string, xs: seq<T>, ys: seq<T>, k: string, n: nat)
    requires n <= |xs| && xs <= ys
    ensures Find(key, ys, k, n) == Find(key, xs, k, n)
  {
    if n > 0 { FindPrefix(key, xs, ys, k, n - 1); }
  }

  lemma FindAdded<T>(key: T -> string, xs: seq<T>, x: T, k: string)
    ensures At(key, xs + [x], k) == if key(x) == k then Some(x) else At(key, xs, k)
  {
    FindPrefix(key, xs, xs + [x], k, |xs|);
  }

  /** Removing forgets the key and nothing else. */
  lemma {:induction false} KeptFinds<T>(key: T -> string, xs: seq<T>, k: string, j: string, n: nat)
    requires n <= |xs|
    ensures At(key, Kept(key, xs, k, n), j) == if j == k then None else Find(key, xs, j, n)
  {
    if n > 0 {
      KeptFinds(key, xs, k, j, n - 1);
      if key(xs[n - 1]) != k {
        FindAdded(key, Kept(key, xs, k, n - 1), xs[n - 1], j);
      } else {
        assert Kept(key, xs, k, n) == Kept(key, xs, k, n - 1);
      }
    }
  }

  lemma RemoveFinds<T>(key: T -> string, xs: seq<T>, k: string, j: string)
    ensures At(key, Remove(key, xs, k), j) == if j == k then None else At(key, xs, j)
  {
    KeptFinds(key, xs, k, j, |xs|);
  }

  lemma {:induction false} SwappedFinds<T>(key: T -> string, xs: seq<T>, k: string, v: T, j: string, n: nat)
    requires n <= |xs| && key(v) == k
    ensures At(key, Swapped(key, xs, k, v, n), j)
      == if j != k then Find(key, xs, j, n) else if Find(key, xs, k, n).Some? then Some(v) else None
  {
    if n > 0 {
      var before := Swapped(key, xs, k, v, n - 1);
      SwappedFinds(key, xs, k, v, j, n - 1);
      if key(xs[n - 1]) != k {
        FindAdded(key, before, xs[n - 1], j);
      } else if Find(key, xs, k, n - 1).Some? {
        assert Swapped(key, xs, k, v, n) == before;
      } else {
        FindAdded(key, before, v, j);
      }
    }
  }

  /** Replacing gives the key its new value and changes nothing else. */
  lemma ReplaceFinds<T>(key: T -> string, xs: seq<T>, k: string, v: T, j: string)
    requires key(v) == k
    ensures At(key, Replace(key, xs, k, v), j) == if j == k then Some(v) else At(key, xs, j)
  {
    SwappedFinds(key, xs, k, v, j, |xs|);
    if !Find(key, xs, k, |xs|).Some? {
      FindAdded(key, Swapped(key, xs, k, v, |xs|), v, j);
      FindsKey(key, xs, k, |xs|);
    } else {
      assert Replace(key, xs, k, v) == Swapped(key, xs, k, v, |xs|);
    }
  }

  lemma {:induction false} KeptAppend<T>(key: T -> string, xs: seq<T>, ys: seq<T>, k: string, n: nat)
    requires n <= |xs| && xs <= ys
    ensures Kept(key, ys, k, n) == Kept(key, xs, k, n)
  {
    if n > 0 { KeptAppend(key, xs, ys, k, n - 1); }
  }

  lemma RemoveAdded<T>(key: T -> string, xs: seq<T>, x: T, k: string)
    ensures Remove(key, xs + [x], k) == Remove(key, xs, k) + if key(x) == k then [] else [x]
  {
    KeptAppend(key, xs, xs + [x], k, |xs|);
  }

  lemma {:induction false} SwappedKeeps<T>(key: T -> string, xs: seq<T>, k: string, v: T, n: nat)
    requires n <= |xs| && key(v) == k
    ensures Remove(key, Swapped(key, xs, k, v, n), k) == Kept(key, xs, k, n)
  {
    if n > 0 {
      var before := Swapped(key, xs, k, v, n - 1);
      SwappedKeeps(key, xs, k, v, n - 1);
      if key(xs[n - 1]) != k {
        RemoveAdded(key, before, xs[n - 1], k);
      } else if Find(key, xs, k, n - 1).Some? {
        assert Swapped(key, xs, k, v, n) == before;
      } else {
        RemoveAdded(key, before, v, k);
      }
    }
  }

  /** All other elements keep their values and their order. */
  lemma ReplaceKeepsOthers<T>(key: T -> string, xs: seq<T>, k: string, v: T)
    requires key(v) == k
    ensures Remove(key, Replace(key, xs, k, v), k) == Remove(key, xs, k)
  {
    SwappedKeeps(key, xs, k, v, |xs|);
    if !Find(key, xs, k, |xs|).Some? {
      RemoveAdded(key, Swapped(key, xs, k, v, |xs|), v, k);
    } else {
      assert Replace(key, xs, k, v) == Swapped(key, xs, k, v, |xs|);
    }
  }

  lemma {:induction false} KeptClean<T>(key: T -> string, xs: seq<T>, k: string, n: nat)
    requires n <= |xs| && forall i :: 0 <= i < n ==> key(xs[i]) != k
    ensures Kept(key, xs, k, n) == xs[..n]
  {
    if n > 0 { KeptClean(key, xs, k, n - 1); }
  }

  lemma {:induction false} KeptMembers<T>(key: T -> string, xs: seq<T>, k: string, n: nat)
    requires n <= |xs|
    ensures forall i :: 0 <= i < |Kept(key, xs, k, n)| ==>
      key(Kept(key, xs, k, n)[i]) != k && Kept(key, xs, k, n)[i] in xs[..n]
  {
    if n > 0 {
      KeptMembers(key, xs, k, n - 1);
      assert xs[..n] == xs[..n - 1] + [xs[n - 1]];
    }
  }

  lemma RemoveTwice<T>(key: T -> string, xs: seq<T>, k: string)
    ensures Remove(key, Remove(key, xs, k), k) == Remove(key, xs, k)
  {
    KeptMembers(key, xs, k, |xs|);
    var out := Remove(key, xs, k);
    KeptClean(key, out, k, |out|);
  }

  /** Distinct keys stay distinct. */
  lemma {:induction false} KeptDistinct<T>(key: T -> string, xs: seq<T>, k: string, n: nat)
    requires n <= |xs| && DistinctKeys(key, xs)
    ensures DistinctKeys(key, Kept(key, xs, k, n))
  {
    if n > 0 {
      KeptDistinct(key, xs, k, n - 1);
      KeptMembers(key, xs, k, n - 1);
      var before := Kept(key, xs, k, n - 1);
      forall i | 0 <= i < |before| ensures key(before[i]) != key(xs[n - 1]) {
        var j :| 0 <= j < n - 1 && xs[..n - 1][j] == before[i];
        assert key(xs[j]) != key(xs[n - 1]);
      }
    }
  }

  lemma {:induction false} SwappedMembers<T>(key: T -> string, xs: seq<T>, k: string, v: T, n: nat)
    requires n <= |xs| && key(v) == k
    ensures forall i :: 0 <= i < |Swapped(key, xs, k, v, n)| ==>
      var x := Swapped(key, xs, k, v, n)[i]; (x == v && Find(key, xs, k, n).Some?) || (key(x) != k && x in xs[..n])
  {
    if n > 0 {
      SwappedMembers(key, xs, k, v, n - 1);
      assert xs[..n] == xs[..n - 1] + [xs[n - 1]];
    }
  }

  lemma {:induction false} SwappedDistinct<T>(key: T -> string, xs: seq<T>, k: string, v: T, n: nat)
    requires n <= |xs| && key(v) == k && DistinctKeys(key, xs)
    ensures DistinctKeys(key, Swapped(key, xs, k, v, n))
  {
    if n > 0 {
      SwappedDistinct(key, xs, k, v, n - 1);
      SwappedMembers(key, xs, k, v, n - 1);
      var before := Swapped(key, xs, k, v, n - 1);
      var x := xs[n - 1];
      forall i | 0 <= i < |before| && key(x) != k ensures key(before[i]) != key(x) {
        if before[i] != v || key(before[i]) != k {
          var j :| 0 <= j < n - 1 && xs[..n - 1][j] == before[i];
          assert key(xs[j]) != key(xs[n - 1]);
        }
      }
    }
  }

  lemma ReplaceDistinct<T>(key: T -> string, xs: seq<T>, k: string, v: T)
    requires key(v) == k && DistinctKeys(key, xs)
    ensures DistinctKeys(key, Replace(key, xs, k, v))
  {
    SwappedDistinct(key, xs, k, v, |xs|);
    SwappedMembers(key, xs, k, v, |xs|);
  }

  lemma RemoveDistinct<T>(key: T -> string, xs: seq<T>, k: string)
    requires DistinctKeys(key, xs)
    ensures DistinctKeys(key, Remove(key, xs, k))
  {
    KeptDistinct(key, xs, k, |xs|);
  }

  /** Writing one element in place, under the key it has. */
  lemma {:induction false} WriteFinds<T>(key: T -> string, xs: seq<T>, i: nat, x: T, j: string, n: nat)
    requires i < |xs| && n <= |xs| && key(x) == key(xs[i]) && DistinctKeys(key, xs)
    ensures Find(key, xs[i := x], j, n) == if j == key(x) && i < n then Some(x) else Find(key, xs, j, n)
  {
    if n > 0 {
      WriteFinds(key, xs, i, x, j, n - 1);
      if n - 1 != i {
        assert key(xs[n - 1]) != key(xs[i]) by {
          if n - 1 < i { assert key(xs[n - 1]) != key(xs[i]); }
        }
      }
    }
  }

  lemma WriteDistinct<T>(key: T -> string, xs: seq<T>, i: nat, x: T)
    requires i < |xs| && key(x) == key(xs[i]) && DistinctKeys(key, xs)
    ensures DistinctKeys(key, xs[i := x])
  {
    var ys := xs[i := x];
    forall a, b | 0 <= a < b < |ys| ensures key(ys[a]) != key(ys[b]) {
      assert key(xs[a]) != key(xs[b]);
    }
  }
}
