/** Go's string order and the sort by ID that the migrator applies to its definitions and reports. */
module Ordering {

  /** a < b in Go: the first differing character decides, a proper prefix is smaller. */
  predicate StrLess(a: string, b: string) {
    if b == [] then false
    else if a == [] then true
    else a[0] < b[0] || (a[0] == b[0] && StrLess(a[1..], b[1..]))
  }

  lemma {:induction false} StrIrreflexive(a: string)
    ensures !StrLess(a, a)
  {
    if a != [] { StrIrreflexive(a[1..]); }
  }

  lemma {:induction false} StrTotal(a: string, b: string)
    ensures a == b || StrLess(a, b) || StrLess(b, a)
  {
    if a == [] || b == [] {
    } else if a[0] == b[0] {
      StrTotal(a[1..], b[1..]);
      assert a == [a[0]] + a[1..] && b == [b[0]] + b[1..];
    }
  }

  lemma {:induction false} StrTransitive(a: string, b: string, c: string)
    requires StrLess(a, b) && StrLess(b, c)
    ensures StrLess(a, c)
  {
    if a != [] && a[0] == b[0] == c[0] {
      StrTransitive(a[1..], b[1..], c[1..]);
    }
  }

  lemma StrAsymmetric(a: string, b: string)
    requires StrLess(a, b)
    ensures a != b && !StrLess(b, a)
  {
    StrIrreflexive(a);
    if StrLess(b, a) { StrTransitive(a, b, a); }
  }

  // ----- sorting by a string key

  predicate Sorted<T(!new)>(key: T -> string, xs: seq<T>) {
    forall i, j :: 0 <= i < j < |xs| ==> !StrLess(key(xs[j]), key(xs[i]))
  }

  predicate StrictlySorted<T(!new)>(key: T -> string, xs: seq<T>) {
    forall i, j :: 0 <= i < j < |xs| ==> StrLess(key(xs[i]), key(xs[j]))
  }

  predicate DistinctKeys<T(!new)>(key: T -> string, xs: seq<T>) {
    forall i, j :: 0 <= i < j < |xs| ==> key(xs[i]) != key(xs[j])
  }

  function Insert<T(!new)>(key: T -> string, x: T, xs: seq<T>): seq<T> {
    if xs == [] || StrLess(key(x), key(xs[0])) then [x] + xs
    else [xs[0]] + Insert(key, x, xs[1..])
  }

  function SortBy<T(!new)>(key: T -> string, xs: seq<T>): seq<T> {
    if xs == [] then [] else Insert(key, xs[0], SortBy(key, xs[1..]))
  }

  lemma {:induction false} InsertPermutes<T(!new)>(key: T -> string, x: T, xs: seq<T>)
    ensures multiset(Insert(key, x, xs)) == multiset{x} + multiset(xs)
  {
    if xs != [] && !StrLess(key(x), key(xs[0])) {
      InsertPermutes(key, x, xs[1..]);
      assert xs == [xs[0]] + xs[1..];
    }
  }

  /** Nothing in xs sorts before k. */
  predicate NoneBefore<T(!new)>(key: T -> string, k: string, xs: seq<T>) {
    forall i :: 0 <= i < |xs| ==> !StrLess(key(xs[i]), k)
  }

  lemma ConsSorted<T(!new)>(key: T -> string, x: T, xs: seq<T>)
    requires Sorted(key, xs) && NoneBefore(key, key(x), xs)
    ensures Sorted(key, [x] + xs)
  {
  }

  lemma {:induction false} InsertKeepsBound<T(!new)>(key: T -> string, k: string, x: T, xs: seq<T>)
    requires NoneBefore(key, k, xs) && !StrLess(key(x), k)
    ensures NoneBefore(key, k, Insert(key, x, xs))
  {
    if xs != [] && !StrLess(key(x), key(xs[0])) {
      InsertKeepsBound(key, k, x, xs[1..]);
    }
  }

  lemma {:induction false} InsertSorts<T(!new)>(key: T -> string, x: T, xs: seq<T>)
    requires Sorted(key, xs)
    ensures Sorted(key, Insert(key, x, xs))
  {
    if xs == [] {
    } else if StrLess(key(x), key(xs[0])) {
      forall i | 0 <= i < |xs| ensures !StrLess(key(xs[i]), key(x)) {
        if StrLess(key(xs[i]), key(x)) {
          StrTransitive(key(xs[i]), key(x), key(xs[0]));
          StrIrreflexive(key(xs[0]));
        }
      }
      ConsSorted(key, x, xs);
    } else {
      StrIrreflexive(key(xs[0]));
      InsertSorts(key, x, xs[1..]);
      InsertKeepsBound(key, key(xs[0]), x, xs[1..]);
      ConsSorted(key, xs[0], Insert(key, x, xs[1..]));
    }
  }

  /** The sort orders by key and rearranges only. */
  lemma {:induction false} SortBySorts<T(!new)>(key: T -> string, xs: seq<T>)
    ensures Sorted(key, SortBy(key, xs)) && multiset(SortBy(key, xs)) == multiset(xs)
    ensures |SortBy(key, xs)| == |xs|
  {
    if xs != [] {
      SortBySorts(key, xs[1..]);
      InsertSorts(key, xs[0], SortBy(key, xs[1..]));
      InsertPermutes(key, xs[0], SortBy(key, xs[1..]));
      assert xs == [xs[0]] + xs[1..];
    }
    assert |multiset(SortBy(key, xs))| == |multiset(xs)|;
  }

  /** With distinct keys, the sorted result is strictly increasing and has the same elements. */
  lemma {:induction false} SortByStrict<T(!new)>(key: T -> string, xs: seq<T>)
    requires DistinctKeys(key, xs)
    ensures StrictlySorted(key, SortBy(key, xs))
    ensures forall x :: x in SortBy(key, xs) <==> x in xs
  {
    if xs != [] {
      var tail := xs[1..];
      var s := SortBy(key, tail);
      SortByStrict(key, tail);
      forall y | y in s ensures key(y) != key(xs[0]) {
        var k :| 0 <= k < |tail| && tail[k] == y;
        assert xs[k + 1] == y;
      }
      InsertStrict(key, xs[0], s);
      assert xs == [xs[0]] + xs[1..];
    }
  }

  lemma {:induction false} InsertStrict<T(!new)>(key: T -> string, x: T, xs: seq<T>)
    requires StrictlySorted(key, xs) && forall y :: y in xs ==> key(y) != key(x)
    ensures StrictlySorted(key, Insert(key, x, xs))
    ensures forall y :: y in Insert(key, x, xs) <==> y == x || y in xs
  {
    if xs == [] {
    } else if StrLess(key(x), key(xs[0])) {
      forall j | 0 < j < |xs| ensures StrLess(key(x), key(xs[j])) {
        StrTransitive(key(x), key(xs[0]), key(xs[j]));
      }
    } else {
      StrTotal(key(x), key(xs[0]));
      InsertStrict(key, x, xs[1..]);
      var tail := xs[1..];
      var rest := Insert(key, x, tail);
      forall y | y in rest ensures StrLess(key(xs[0]), key(y)) {
        if y != x {
          var k :| 0 <= k < |tail| && tail[k] == y;
          assert xs[k + 1] == y;
        }
      }
      assert xs == [xs[0]] + xs[1..];
    }
  }

  /** A strictly increasing list is determined by its elements. */
  lemma {:induction false} StrictlySortedUnique<T(!new)>(key: T -> string, xs: seq<T>, ys: seq<T>)
    requires StrictlySorted(key, xs) && StrictlySorted(key, ys)
    requires forall x :: x in xs <==> x in ys
    ensures xs == ys
  {
    assert xs != [] ==> xs[0] in ys;
    assert ys != [] ==> ys[0] in xs;
    if xs != [] {
      var i :| 0 <= i < |ys| && ys[i] == xs[0];
      var j :| 0 <= j < |xs| && xs[j] == ys[0];
      if i > 0 && j > 0 {
        StrTransitive(key(xs[0]), key(xs[j]), key(xs[0]));
        StrIrreflexive(key(xs[0]));
      }
      assert xs[0] == ys[0];
      forall x ensures x in xs[1..] <==> x in ys[1..] {
        StrIrreflexive(key(xs[0]));
        if x in xs[1..] {
          var k :| 1 <= k < |xs| && xs[k] == x;
          assert StrLess(key(xs[0]), key(x)) && x in xs;
          var m :| 0 <= m < |ys| && ys[m] == x;
          assert m > 0 && ys[1..][m - 1] == x;
        }
        if x in ys[1..] {
          var k :| 1 <= k < |ys| && ys[k] == x;
          assert StrLess(key(ys[0]), key(x)) && x in ys;
          var m :| 0 <= m < |xs| && xs[m] == x;
          assert m > 0 && xs[1..][m - 1] == x;
        }
      }
      StrictlySortedUnique(key, xs[1..], ys[1..]);
      assert xs == [xs[0]] + xs[1..] && ys == [ys[0]] + ys[1..];
    }
  }
}
