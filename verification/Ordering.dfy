/** String order and sorting, as Go's `<` on strings, `sort.Strings`,
    `sort.Slice` and `sort.SliceStable` provide them. Code-point order of
    strings is byte order of their UTF-8 encodings. */
module Ordering {

  predicate StringLe(a: string, b: string) {
    a == "" || (b != "" && (a[0] < b[0] || (a[0] == b[0] && StringLe(a[1..], b[1..]))))
  }

  predicate StringLess(a: string, b: string) {
    a != b && StringLe(a, b)
  }

  lemma {:induction false} StringLeTotal(a: string, b: string)
    ensures StringLe(a, a)
    ensures StringLe(a, b) || StringLe(b, a)
    ensures StringLe(a, b) && StringLe(b, a) ==> a == b
    decreases |a| + |b|
  {
    if a != [] {
      StringLeTotal(a[1..], []);
    }
    if a != [] && b != [] {
      StringLeTotal(a[1..], b[1..]);
      assert a == [a[0]] + a[1..] && b == [b[0]] + b[1..];
    }
  }

  lemma {:induction false} StringLeTransitive(a: string, b: string, c: string)
    requires StringLe(a, b) && StringLe(b, c)
    ensures StringLe(a, c)
    decreases a
  {
    if a != [] && a[0] == b[0] && b[0] == c[0] {
      StringLeTransitive(a[1..], b[1..], c[1..]);
    }
  }

  /** Sorting needs an order in which any two elements compare, transitively.
      Elements that compare both ways need not be equal. */
  ghost predicate Ranking<T(!new)>(le: (T, T) -> bool) {
    && (forall x, y :: le(x, y) || le(y, x))
    && (forall x, y, z :: le(x, y) && le(y, z) ==> le(x, z))
  }

  lemma StringLeRanks()
    ensures Ranking(StringLe)
  {
    forall x, y ensures StringLe(x, y) || StringLe(y, x) { StringLeTotal(x, y); }
    forall x, y, z | StringLe(x, y) && StringLe(y, z) ensures StringLe(x, z) { StringLeTransitive(x, y, z); }
  }

  ghost predicate SortedBy<T>(le: (T, T) -> bool, s: seq<T>) {
    forall i, j :: 0 <= i < j < |s| ==> le(s[i], s[j])
  }

  function Insert<T>(le: (T, T) -> bool, x: T, s: seq<T>): seq<T> {
    if s == [] || le(x, s[0]) then [x] + s else [s[0]] + Insert(le, x, s[1..])
  }

  /** Stable sorting: elements that compare both ways keep their order. */
  function Sort<T>(le: (T, T) -> bool, s: seq<T>): seq<T> {
    if s == [] then [] else Insert(le, s[0], Sort(le, s[1..]))
  }

  lemma {:induction false} InsertBag<T>(le: (T, T) -> bool, x: T, s: seq<T>)
    ensures multiset(Insert(le, x, s)) == multiset(s) + multiset{x}
    ensures forall y :: y in Insert(le, x, s) ==> y == x || y in s
  {
    if s != [] && !le(x, s[0]) {
      InsertBag(le, x, s[1..]);
      assert s == [s[0]] + s[1..];
    }
  }

  lemma {:induction false} InsertSorts<T(!new)>(le: (T, T) -> bool, x: T, s: seq<T>)
    requires Ranking(le) && SortedBy(le, s)
    ensures SortedBy(le, Insert(le, x, s))
    ensures multiset(Insert(le, x, s)) == multiset(s) + multiset{x}
  {
    InsertBag(le, x, s);
    if s != [] {
      if le(x, s[0]) {
        forall j | 0 <= j < |s| ensures le(x, s[j]) {
          if j > 0 { assert le(s[0], s[j]); }
        }
      } else {
        var t := Insert(le, x, s[1..]);
        InsertSorts(le, x, s[1..]);
        InsertBag(le, x, s[1..]);
        forall j | 0 <= j < |t| ensures le(s[0], t[j]) {
          assert t[j] == x || t[j] in s[1..];
        }
      }
    }
  }

  lemma {:induction false} SortSorts<T(!new)>(le: (T, T) -> bool, s: seq<T>)
    requires Ranking(le)
    ensures SortedBy(le, Sort(le, s))
    ensures multiset(Sort(le, s)) == multiset(s)
    ensures |Sort(le, s)| == |s|
    ensures forall x :: x in Sort(le, s) <==> x in s
  {
    if s != [] {
      SortSorts(le, s[1..]);
      InsertSorts(le, s[0], Sort(le, s[1..]));
      assert s == [s[0]] + s[1..];
    }
    SameBag(Sort(le, s), s);
  }

  lemma SameBag<T>(a: seq<T>, b: seq<T>)
    requires multiset(a) == multiset(b)
    ensures |a| == |b|
    ensures forall x :: x in a <==> x in b
  {
    assert |multiset(a)| == |a| && |multiset(b)| == |b|;
    forall x ensures x in a <==> x in b {
      assert x in a <==> x in multiset(a);
      assert x in b <==> x in multiset(b);
    }
  }

  /** A sorted list is determined by its elements when no two different
      elements compare both ways: the input order does not matter. */
  lemma {:induction false} SortedUnique<T(!new)>(le: (T, T) -> bool, a: seq<T>, b: seq<T>)
    requires Ranking(le)
    requires SortedBy(le, a) && SortedBy(le, b) && multiset(a) == multiset(b)
    requires forall x, y :: x in a && y in a && le(x, y) && le(y, x) ==> x == y
    ensures a == b
  {
    SameBag(a, b);
    hide Ranking;
    if a != [] {
      SameHead(le, a, b);
      SameTails(a, b);
      SortedUnique(le, a[1..], b[1..]);
    }
  }

  lemma SameTails<T>(a: seq<T>, b: seq<T>)
    requires a != [] && b != [] && a[0] == b[0] && multiset(a) == multiset(b)
    ensures a == [a[0]] + a[1..] && b == [b[0]] + b[1..]
    ensures multiset(a[1..]) == multiset(b[1..])
  {
    assert a == [a[0]] + a[1..] && b == [b[0]] + b[1..];
    assert multiset(a[1..]) == multiset(a) - multiset{a[0]};
    assert multiset(b[1..]) == multiset(b) - multiset{b[0]};
  }

  lemma SameHead<T(!new)>(le: (T, T) -> bool, a: seq<T>, b: seq<T>)
    requires Ranking(le)
    requires SortedBy(le, a) && SortedBy(le, b) && a != [] && b != []
    requires forall x :: x in a <==> x in b
    requires forall x, y :: x in a && y in a && le(x, y) && le(y, x) ==> x == y
    ensures a[0] == b[0]
  {
    assert a[0] in b && b[0] in a;
    assert le(a[0], a[0]) && le(b[0], b[0]);
  }

  /** Sorting a sorted list changes nothing. */
  lemma {:induction false} SortIdempotent<T(!new)>(le: (T, T) -> bool, s: seq<T>)
    requires SortedBy(le, s)
    ensures Sort(le, s) == s
  {
    if s != [] {
      SortIdempotent(le, s[1..]);
      assert s == [s[0]] + s[1..];
    }
  }

  /** Some enumeration of a finite set: the order in which a Go map is ranged
      over is not specified. */
  ghost function Listing<T(!new)>(s: set<T>): (r: seq<T>)
    ensures multiset(r) == multiset(s)
    ensures forall x :: x in r <==> x in s
  {
    if s == {} then []
    else
      var x :| x in s;
      var rest := Listing(s - {x});
      assert multiset(s) == multiset(s - {x}) + multiset{x};
      [x] + rest
  }

  /** The sorted keys of a map, whatever order the map is ranged over. */
  ghost function SortedKeys(s: set<string>): seq<string> {
    Sort(StringLe, Listing(s))
  }

  lemma SortedKeysUnique(s: set<string>, keys: seq<string>)
    requires multiset(keys) == multiset(s)
    ensures Sort(StringLe, keys) == SortedKeys(s)
  {
    StringLeRanks();
    SortSorts(StringLe, keys);
    SortSorts(StringLe, Listing(s));
    var a, b := Sort(StringLe, keys), SortedKeys(s);
    forall x, y | x in a && y in a && StringLe(x, y) && StringLe(y, x) ensures x == y { StringLeTotal(x, y); }
    SortedUnique(StringLe, a, b);
  }

  lemma SortedKeysFacts(s: set<string>)
    ensures SortedBy(StringLe, SortedKeys(s))
    ensures multiset(SortedKeys(s)) == multiset(s)
    ensures forall x :: x in SortedKeys(s) <==> x in s
  {
    StringLeRanks();
    SortSorts(StringLe, Listing(s));
  }

  ghost predicate Distinct<T>(s: seq<T>) {
    forall i, j :: 0 <= i < j < |s| ==> s[i] != s[j]
  }

  /** A list without repeats holds every element once, and the other way round. */
  lemma {:induction false} DistinctMeansOnce<T(!new)>(s: seq<T>)
    ensures Distinct(s) <==> forall x :: multiset(s)[x] <= 1
  {
    if s != [] {
      var n := |s| - 1;
      var rest, last := s[..n], s[n];
      DistinctMeansOnce(rest);
      assert s == rest + [last];
      assert last in rest <==> last in multiset(rest);
      if Distinct(s) {
        assert last !in rest;
      } else if last !in rest {
        assert !Distinct(rest);
        var x :| multiset(rest)[x] > 1;
        assert multiset(s)[x] > 1;
      } else {
        assert multiset(s)[last] > 1;
      }
    }
  }

  lemma DistinctBag<T(!new)>(a: seq<T>, b: seq<T>)
    requires multiset(a) == multiset(b)
    ensures Distinct(a) <==> Distinct(b)
  {
    DistinctMeansOnce(a);
    DistinctMeansOnce(b);
  }

  /** Lists without repeats that hold the same elements are permutations. */
  lemma SameMembers<T(!new)>(a: seq<T>, b: seq<T>)
    requires Distinct(a) && Distinct(b) && forall x :: x in a <==> x in b
    ensures multiset(a) == multiset(b)
  {
    DistinctMeansOnce(a);
    DistinctMeansOnce(b);
    forall x ensures multiset(a)[x] == multiset(b)[x] {
      assert x in multiset(a) <==> x in a;
      assert x in multiset(b) <==> x in b;
    }
  }
}
