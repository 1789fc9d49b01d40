// Text order, tuple order and the uniqueness of a sorted arrangement.
// SQLite compares TEXT, and Python compares str and tuple, lexicographically.
module Ordering {

  predicate TextLess(a: string, b: string)
  {
    b != "" && (a == "" || a[0] < b[0] || (a[0] == b[0] && TextLess(a[1..], b[1..])))
  }

  // The texts agree up to place k, where one ends or has the smaller character.
  predicate DifferAt(a: string, b: string, k: nat)
  {
    && k <= |a| && k < |b| && (forall i :: 0 <= i < k ==> a[i] == b[i])
    && (k == |a| || a[k] < b[k])
  }

  lemma {:induction false} TextLessAtFirstDifference(a: string, b: string)
    ensures TextLess(a, b) <==> exists k: nat :: DifferAt(a, b, k)
  {
    if a == "" || b == "" || a[0] != b[0] {
      if a != "" && b != "" && a[0] < b[0] { assert DifferAt(a, b, 0); }
      if a == "" && b != "" { assert DifferAt(a, b, 0); }
    } else {
      TextLessAtFirstDifference(a[1..], b[1..]);
      if k: nat :| DifferAt(a[1..], b[1..], k) {
        forall i | 0 <= i < k + 1 ensures a[i] == b[i] { if i > 0 { assert a[1..][i - 1] == b[1..][i - 1]; } }
        assert DifferAt(a, b, k + 1);
      }
      if k: nat :| DifferAt(a, b, k) { assert DifferAt(a[1..], b[1..], k - 1); }
    }
  }

  predicate TextLeq(a: string, b: string)
  {
    a == b || TextLess(a, b)
  }

  lemma {:induction false} TextLessTotal(a: string, b: string)
    ensures TextLess(a, b) || a == b || TextLess(b, a)
    ensures !(TextLess(a, b) && TextLess(b, a)) && !TextLess(a, a)
  {
    if a != "" {
      TextLessTotal(a[1..], a[1..]);
      if b != "" {
        TextLessTotal(a[1..], b[1..]);
        assert a[0] == b[0] && a[1..] == b[1..] ==> a == [a[0]] + a[1..] == b;
      }
    }
  }

  lemma {:induction false} TextLessTransitive(a: string, b: string, c: string)
    requires TextLess(a, b) && TextLess(b, c)
    ensures TextLess(a, c)
  {
    if a != "" && a[0] == b[0] == c[0] {
      TextLessTransitive(a[1..], b[1..], c[1..]);
    }
  }

  // Equal-length prefixes decide the comparison, unless they are equal.
  lemma {:induction false} TextLessConcat(x: string, y: string, u: string, v: string)
    requires |x| == |y|
    ensures TextLess(x + u, y + v) <==> TextLess(x, y) || (x == y && TextLess(u, v))
  {
    if x == "" {
      assert x + u == u && y + v == v;
    } else {
      TextLessConcat(x[1..], y[1..], u, v);
      assert (x + u)[1..] == x[1..] + u && (y + v)[1..] == y[1..] + v;
      assert x == [x[0]] + x[1..] && y == [y[0]] + y[1..];
    }
  }

  predicate TupleLess(a: seq<string>, b: seq<string>)
  {
    b != [] && (a == [] || TextLess(a[0], b[0]) || (a[0] == b[0] && TupleLess(a[1..], b[1..])))
  }

  lemma {:induction false} TupleLessTotal(a: seq<string>, b: seq<string>)
    ensures TupleLess(a, b) || a == b || TupleLess(b, a)
    ensures !(TupleLess(a, b) && TupleLess(b, a)) && !TupleLess(a, a)
  {
    if a != [] {
      TextLessTotal(a[0], a[0]);
      TupleLessTotal(a[1..], a[1..]);
      if b != [] {
        TextLessTotal(a[0], b[0]);
        TupleLessTotal(a[1..], b[1..]);
        assert a[0] == b[0] && a[1..] == b[1..] ==> a == [a[0]] + a[1..] == b;
      }
    }
  }

  lemma {:induction false} TupleLessTransitive(a: seq<string>, b: seq<string>, c: seq<string>)
    requires TupleLess(a, b) && TupleLess(b, c)
    ensures TupleLess(a, c)
  {
    if a != [] {
      if TextLess(a[0], b[0]) && TextLess(b[0], c[0]) {
        TextLessTransitive(a[0], b[0], c[0]);
      } else if a[0] == b[0] == c[0] {
        TupleLessTransitive(a[1..], b[1..], c[1..]);
      }
    }
  }

  ghost predicate StrictTotalOrder<K(!new)>(less: (K, K) -> bool)
  {
    && (forall a, b :: less(a, b) || a == b || less(b, a))
    && (forall a, b :: !(less(a, b) && less(b, a)))
    && (forall a, b, c :: less(a, b) && less(b, c) ==> less(a, c))
  }

  lemma TextOrder()
    ensures StrictTotalOrder(TextLess)
  {
    forall a, b { TextLessTotal(a, b); }
    forall a, b, c | TextLess(a, b) && TextLess(b, c) { TextLessTransitive(a, b, c); }
  }

  predicate IsLeast(name: string, names: set<string>)
  {
    name in names && forall other :: other in names && other != name ==> TextLess(name, other)
  }

  lemma {:induction false} LeastExists(names: set<string>)
    requires names != {}
    ensures exists name :: IsLeast(name, names)
    decreases |names|
  {
    var some :| some in names;
    var rest := names - {some};
    if rest == {} {
      assert names == {some};
      assert IsLeast(some, names);
    } else {
      LeastExists(rest);
      var least :| IsLeast(least, rest);
      TextOrder();
      assert IsLeast(if TextLess(some, least) then some else least, names);
    }
  }

  lemma LeastIsUnique(a: string, b: string, names: set<string>)
    requires IsLeast(a, names) && IsLeast(b, names)
    ensures a == b
  {
    TextLessTotal(a, b);
  }

  lemma LeastIsDetermined(names: set<string>)
    requires names != {}
    ensures exists name :: IsLeast(name, names)
    ensures forall a, b :: IsLeast(a, names) && IsLeast(b, names) ==> a == b
  {
    LeastExists(names);
    forall a, b | IsLeast(a, names) && IsLeast(b, names) { LeastIsUnique(a, b, names); }
  }

  // sorted() of a set of strings.
  function Ascending(names: set<string>): seq<string>
    decreases |names|
  {
    if names == {} then []
    else
      LeastIsDetermined(names);
      var least :| IsLeast(least, names);
      [least] + Ascending(names - {least})
  }

  lemma {:induction false} AscendingHasAll(names: set<string>, name: string)
    ensures name in Ascending(names) <==> name in names
    decreases |names|
  {
    if names != {} {
      var least := Ascending(names)[0];
      assert IsLeast(least, names);
      AscendingHasAll(names - {least}, name);
    }
  }

  lemma AscendingIsTheSet(names: set<string>)
    ensures forall name :: name in Ascending(names) <==> name in names
  {
    forall name { AscendingHasAll(names, name); }
  }

  lemma {:induction false} AscendingSorts(names: set<string>, i: nat, j: nat)
    requires i < j < |Ascending(names)|
    ensures TextLess(Ascending(names)[i], Ascending(names)[j])
    decreases |names|
  {
    var least := Ascending(names)[0];
    assert IsLeast(least, names);
    var rest := Ascending(names - {least});
    if i > 0 {
      AscendingSorts(names - {least}, i - 1, j - 1);
    } else {
      assert rest[j - 1] in rest;
      AscendingHasAll(names - {least}, rest[j - 1]);
    }
  }

  lemma TupleOrder()
    ensures StrictTotalOrder(TupleLess)
  {
    forall a, b { TupleLessTotal(a, b); }
    forall a, b, c | TupleLess(a, b) && TupleLess(b, c) { TupleLessTransitive(a, b, c); }
  }

  // A stable sort by key, as list.sort(key=...) computes it.
  function Insert<T, K>(x: T, xs: seq<T>, key: T -> K, less: (K, K) -> bool): seq<T>
  {
    if xs == [] || !less(key(xs[0]), key(x)) then [x] + xs
    else [xs[0]] + Insert(x, xs[1..], key, less)
  }

  function SortBy<T, K>(xs: seq<T>, key: T -> K, less: (K, K) -> bool): seq<T>
  {
    if xs == [] then [] else Insert(xs[0], SortBy(xs[1..], key, less), key, less)
  }

  ghost predicate SortedBy<T, K>(xs: seq<T>, key: T -> K, less: (K, K) -> bool)
  {
    forall i, j :: 0 <= i < j < |xs| ==> !less(key(xs[j]), key(xs[i]))
  }

  predicate DistinctBy<T, K(==)>(xs: seq<T>, key: T -> K)
  {
    forall i, j :: 0 <= i < j < |xs| ==> key(xs[i]) != key(xs[j])
  }

  lemma {:induction false} InsertKeepsItems<T, K(!new)>(x: T, xs: seq<T>, key: T -> K, less: (K, K) -> bool)
    ensures multiset(Insert(x, xs, key, less)) == multiset{x} + multiset(xs)
  {
    if xs != [] {
      assert xs == [xs[0]] + xs[1..];
      if less(key(xs[0]), key(x)) { InsertKeepsItems(x, xs[1..], key, less); }
    }
  }

  lemma {:induction false} InsertSorted<T, K(!new)>(x: T, xs: seq<T>, key: T -> K, less: (K, K) -> bool)
    requires StrictTotalOrder(less) && SortedBy(xs, key, less)
    ensures SortedBy(Insert(x, xs, key, less), key, less)
  {
    if xs != [] && less(key(xs[0]), key(x)) {
      var rest := Insert(x, xs[1..], key, less);
      InsertSorted(x, xs[1..], key, less);
      InsertKeepsItems(x, xs[1..], key, less);
      forall j | 0 <= j < |rest| ensures !less(key(rest[j]), key(xs[0])) {
        assert rest[j] in multiset(rest);
        assert rest[j] == x || rest[j] in multiset(xs[1..]);
      }
    }
  }

  lemma {:induction false} SortBySorts<T, K(!new)>(xs: seq<T>, key: T -> K, less: (K, K) -> bool)
    requires StrictTotalOrder(less)
    ensures SortedBy(SortBy(xs, key, less), key, less)
    ensures multiset(SortBy(xs, key, less)) == multiset(xs)
  {
    if xs != [] {
      SortBySorts(xs[1..], key, less);
      InsertSorted(xs[0], SortBy(xs[1..], key, less), key, less);
      InsertKeepsItems(xs[0], SortBy(xs[1..], key, less), key, less);
      assert xs == [xs[0]] + xs[1..];
    }
  }

  lemma DistinctIsPermutationInvariant<T, K>(xs: seq<T>, ys: seq<T>, key: T -> K)
    requires multiset(xs) == multiset(ys) && DistinctBy(xs, key)
    ensures DistinctBy(ys, key)
  {
    forall i, j | 0 <= i < j < |ys| ensures key(ys[i]) != key(ys[j]) {
      if ys[i] == ys[j] {
        assert ys == ys[..i] + [ys[i]] + ys[i + 1..j] + [ys[j]] + ys[j + 1..];
        assert multiset(xs)[ys[i]] >= 2;
        DuplicateHasTwoPlaces(xs, ys[i], key);
      } else {
        assert ys[i] in multiset(xs) && ys[j] in multiset(xs);
      }
    }
  }

  lemma {:induction false} DuplicateHasTwoPlaces<T, K>(xs: seq<T>, x: T, key: T -> K)
    requires multiset(xs)[x] >= 2
    ensures !DistinctBy(xs, key)
  {
    assert xs == [xs[0]] + xs[1..];
    if xs[0] == x {
      assert x in multiset(xs[1..]);
      var j :| 0 <= j < |xs[1..]| && xs[1..][j] == x;
      assert xs[0] == xs[j + 1];
    } else {
      DuplicateHasTwoPlaces(xs[1..], x, key);
      var i, j :| 0 <= i < j < |xs[1..]| && key(xs[1..][i]) == key(xs[1..][j]);
      assert key(xs[i + 1]) == key(xs[j + 1]);
    }
  }

  // Two sorted arrangements of the same items with distinct keys start with the same item.
  lemma SortedHeads<T, K(!new)>(xs: seq<T>, ys: seq<T>, key: T -> K, less: (K, K) -> bool)
    requires StrictTotalOrder(less) && SortedBy(xs, key, less) && SortedBy(ys, key, less)
    requires multiset(xs) == multiset(ys) && DistinctBy(xs, key) && xs != [] && ys != []
    ensures xs[0] == ys[0]
  {
    assert xs[0] in multiset(ys) && ys[0] in multiset(xs);
    var i :| 0 <= i < |xs| && xs[i] == ys[0];
    var j :| 0 <= j < |ys| && ys[j] == xs[0];
    assert i == 0;
  }

  lemma SortedTails<T, K(!new)>(xs: seq<T>, key: T -> K, less: (K, K) -> bool)
    requires SortedBy(xs, key, less) && DistinctBy(xs, key) && xs != []
    ensures SortedBy(xs[1..], key, less) && DistinctBy(xs[1..], key)
    ensures multiset(xs[1..]) == multiset(xs) - multiset{xs[0]}
  {
    assert xs == [xs[0]] + xs[1..];
  }

  lemma SameFirst<T>(xs: seq<T>, ys: seq<T>)
    requires xs != [] && ys != [] && xs[0] == ys[0] && xs[1..] == ys[1..]
    ensures xs == ys
  {
    assert xs == [xs[0]] + xs[1..] && ys == [ys[0]] + ys[1..];
  }

  // ... and so are the same list.
  lemma {:induction false} SortedUnique<T, K(!new)>(xs: seq<T>, ys: seq<T>, key: T -> K, less: (K, K) -> bool)
    requires StrictTotalOrder(less) && SortedBy(xs, key, less) && SortedBy(ys, key, less)
    requires multiset(xs) == multiset(ys) && DistinctBy(xs, key) && DistinctBy(ys, key)
    ensures xs == ys
  {
    assert |xs| == |multiset(xs)| == |multiset(ys)| == |ys|;
    if xs != [] {
      SortedHeads(xs, ys, key, less);
      SortedTails(xs, key, less);
      SortedTails(ys, key, less);
      SortedUnique(xs[1..], ys[1..], key, less);
      SameFirst(xs, ys);
    }
  }

  // Sorting by a distinct key forgets the arrangement it started from.
  lemma SortForgetsOrder<T, K(!new)>(xs: seq<T>, ys: seq<T>, key: T -> K, less: (K, K) -> bool)
    requires StrictTotalOrder(less) && multiset(xs) == multiset(ys) && DistinctBy(xs, key)
    ensures SortBy(xs, key, less) == SortBy(ys, key, less)
  {
    SortBySorts(xs, key, less);
    SortBySorts(ys, key, less);
    DistinctIsPermutationInvariant(xs, SortBy(xs, key, less), key);
    DistinctIsPermutationInvariant(xs, SortBy(ys, key, less), key);
    SortedUnique(SortBy(xs, key, less), SortBy(ys, key, less), key, less);
  }
}
