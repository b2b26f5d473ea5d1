/** A stable sort by a real-valued key: the ordering that
    `Array.prototype.sort` with the comparator `(a, b) => key(a) - key(b)`
    produces, and the ordering a SQL `ORDER BY` over a single key produces
    when ties keep insertion order.

    The sort is specified by three properties (sorted, a permutation,
    and stable: the elements of each key keep their input order), and
    `StableSortUnique` shows these three properties determine the result, so
    any stable sorting algorithm agrees with this one. */
module Sorting {

  ghost predicate SortedBy<T>(s: seq<T>, key: T -> real) {
    forall i, j :: 0 <= i < j < |s| ==> key(s[i]) <= key(s[j])
  }

  /** The elements of `s` whose key is `k`, in their order in `s`. */
  function WithKey<T>(s: seq<T>, key: T -> real, k: real): seq<T>
  {
    if s == [] then []
    else (if key(s[0]) == k then [s[0]] else []) + WithKey(s[1..], key, k)
  }

  /** Inserts `x` before the first element whose key is not smaller. */
  function Insert<T>(x: T, s: seq<T>, key: T -> real): (r: seq<T>)
    ensures |r| == |s| + 1
    ensures multiset(r) == multiset(s) + multiset{x}
  {
    if s == [] then [x]
    else if key(x) <= key(s[0]) then [x] + s
    else
      assert s == [s[0]] + s[1..];
      [s[0]] + Insert(x, s[1..], key)
  }

  function SortBy<T>(s: seq<T>, key: T -> real): (r: seq<T>)
    ensures |r| == |s|
    ensures multiset(r) == multiset(s)
  {
    if s == [] then []
    else
      assert s == [s[0]] + s[1..];
      Insert(s[0], SortBy(s[1..], key), key)
  }

  lemma {:induction false} InsertSorted<T>(x: T, s: seq<T>, key: T -> real)
    requires SortedBy(s, key)
    ensures SortedBy(Insert(x, s, key), key)
    ensures Insert(x, s, key)[0] == x || (s != [] && Insert(x, s, key)[0] == s[0])
    decreases |s|
  {
    if s != [] && key(x) > key(s[0]) {
      InsertSorted(x, s[1..], key);
    }
  }

  lemma {:induction false} InsertWithKey<T>(x: T, s: seq<T>, key: T -> real, k: real)
    requires SortedBy(s, key)
    ensures WithKey(Insert(x, s, key), key, k)
         == (if key(x) == k then [x] else []) + WithKey(s, key, k)
    decreases |s|
  {
    if s == [] {
    } else if key(x) <= key(s[0]) {
      WithKeyCons(x, s, key, k);
    } else {
      InsertWithKey(x, s[1..], key, k);
      InsertPastHead(x, s, key, k);
    }
  }

  /** The step of `InsertWithKey` where `x` goes past the head of `s`. */
  lemma InsertPastHead<T>(x: T, s: seq<T>, key: T -> real, k: real)
    requires s != [] && key(x) > key(s[0])
    requires WithKey(Insert(x, s[1..], key), key, k)
          == (if key(x) == k then [x] else []) + WithKey(s[1..], key, k)
    ensures WithKey(Insert(x, s, key), key, k)
         == (if key(x) == k then [x] else []) + WithKey(s, key, k)
  {
    var r := Insert(x, s[1..], key);
    assert Insert(x, s, key) == [s[0]] + r;
    WithKeyCons(s[0], r, key, k);
    assert s == [s[0]] + s[1..];
    WithKeyCons(s[0], s[1..], key, k);
    if key(x) == k {
      assert key(s[0]) != k;
    }
  }

  /** The result of `SortBy` is non-decreasing by key. */
  lemma {:induction false} SortBySorted<T>(s: seq<T>, key: T -> real)
    ensures SortedBy(SortBy(s, key), key)
    decreases |s|
  {
    if s != [] {
      SortBySorted(s[1..], key);
      InsertSorted(s[0], SortBy(s[1..], key), key);
    }
  }

  /** `SortBy` is stable: for every key, the elements with that key appear in
      the result in the same order as in the input. */
  lemma {:induction false} SortByStable<T>(s: seq<T>, key: T -> real, k: real)
    ensures WithKey(SortBy(s, key), key, k) == WithKey(s, key, k)
    decreases |s|
  {
    if s != [] {
      SortBySorted(s[1..], key);
      SortByStable(s[1..], key, k);
      InsertWithKey(s[0], SortBy(s[1..], key), key, k);
    }
  }

  lemma {:induction false} WithKeyElements<T>(s: seq<T>, key: T -> real, k: real)
    ensures forall i :: 0 <= i < |WithKey(s, key, k)| ==>
              WithKey(s, key, k)[i] in s && key(WithKey(s, key, k)[i]) == k
    decreases |s|
  {
    if s != [] {
      WithKeyElements(s[1..], key, k);
    }
  }

  lemma WithKeyOfHead<T>(s: seq<T>, key: T -> real)
    requires s != []
    ensures WithKey(s, key, key(s[0])) == [s[0]] + WithKey(s[1..], key, key(s[0]))
  {
  }

  lemma WithKeyCons<T>(x: T, s: seq<T>, key: T -> real, k: real)
    ensures WithKey([x] + s, key, k) == (if key(x) == k then [x] else []) + WithKey(s, key, k)
  {
    assert ([x] + s)[0] == x;
    assert ([x] + s)[1..] == s;
  }

  /** A sorted sequence is determined by its per-key subsequences: two sorted
      sequences that agree on every key's elements, in order, are equal.
      Hence `SortBy` is the unique stable sort of its input. */
  lemma {:induction false} StableSortUnique<T>(a: seq<T>, b: seq<T>, key: T -> real)
    requires SortedBy(a, key) && SortedBy(b, key)
    requires forall k :: WithKey(a, key, k) == WithKey(b, key, k)
    ensures a == b
    decreases |a| + |b|
  {
    if a == [] && b == [] {
    } else if a == [] {
      WithKeyOfHead(b, key);
    } else if b == [] {
      WithKeyOfHead(a, key);
    } else {
      var ka, kb := key(a[0]), key(b[0]);
      WithKeyOfHead(a, key);
      WithKeyOfHead(b, key);
      // a[0] has key ka, so b holds an element with key ka, hence kb <= ka.
      assert WithKey(b, key, ka) == WithKey(a, key, ka);
      WithKeyElements(b, key, ka);
      assert WithKey(b, key, ka)[0] in b;
      assert kb <= ka by {
        var i :| 0 <= i < |b| && b[i] == WithKey(b, key, ka)[0];
        assert key(b[0]) <= key(b[i]);
      }
      assert WithKey(a, key, kb) == WithKey(b, key, kb);
      WithKeyElements(a, key, kb);
      assert WithKey(a, key, kb)[0] in a;
      assert ka <= kb by {
        var i :| 0 <= i < |a| && a[i] == WithKey(a, key, kb)[0];
        assert key(a[0]) <= key(a[i]);
      }
      assert a[0] == b[0];
      forall k
        ensures WithKey(a[1..], key, k) == WithKey(b[1..], key, k)
      {
        var h: seq<T> := if ka == k then [a[0]] else [];
        assert a == [a[0]] + a[1..] && b == [b[0]] + b[1..];
        WithKeyCons(a[0], a[1..], key, k);
        WithKeyCons(b[0], b[1..], key, k);
        var wa, wb := WithKey(a, key, k), WithKey(b, key, k);
        assert wa == wb;
        assert wa == h + WithKey(a[1..], key, k);
        assert wb == h + WithKey(b[1..], key, k);
        assert wa[|h|..] == WithKey(a[1..], key, k);
        assert wb[|h|..] == WithKey(b[1..], key, k);
      }
      StableSortUnique(a[1..], b[1..], key);
      assert a == [a[0]] + a[1..] && b == [b[0]] + b[1..];
    }
  }

  /** The stable sort is the only stable sort: every sequence that is sorted
      and keeps each key's elements in input order is `SortBy` of the input. */
  lemma SortByCharacterized<T>(s: seq<T>, r: seq<T>, key: T -> real)
    requires SortedBy(r, key)
    requires forall k :: WithKey(r, key, k) == WithKey(s, key, k)
    ensures r == SortBy(s, key)
  {
    SortBySorted(s, key);
    forall k ensures WithKey(r, key, k) == WithKey(SortBy(s, key), key, k) {
      SortByStable(s, key, k);
    }
    StableSortUnique(r, SortBy(s, key), key);
  }
}
