// How request arguments become part of a cache key.
module CacheKeys {
  import opened Ordering

  datatype Scalar = Null | Flag(b: bool) | Integer(i: int) | Float(r: real) | Text(t: string)

  // A Python dict keeps insertion order and has distinct keys; tuples behave like lists.
  datatype Arg = Leaf(s: Scalar) | Mapping(entries: seq<(string, Arg)>) | List(items: seq<Arg>)

  predicate WellFormed(a: Arg)
  {
    match a
    case Leaf(_) => true
    case Mapping(es) => DistinctBy(es, EntryKey) && forall i :: 0 <= i < |es| ==> WellFormed(es[i].1)
    case List(items) => forall i :: 0 <= i < |items| ==> WellFormed(items[i])
  }

  function EntryKey(e: (string, Arg)): string { e.0 }

  // Python compares True, 1 and 1.0 as equal, so a key holds scalars only up to that equality.
  datatype Atom = NullAtom | Number(n: real) | TextAtom(t: string)

  datatype Key = One(a: Atom) | Many(ks: seq<Key>)

  function AtomOf(s: Scalar): Atom
  {
    match s
    case Null => NullAtom
    case Flag(b) => Number(if b then 1.0 else 0.0)
    case Integer(i) => Number(i as real)
    case Float(r) => Number(r)
    case Text(t) => TextAtom(t)
  }

  function PairKey(p: (string, Key)): string { p.0 }

  function PairOf(p: (string, Key)): Key { Many([One(TextAtom(p.0)), p.1]) }

  function Pairs(es: seq<(string, Arg)>): (ps: seq<(string, Key)>)
    ensures |ps| == |es| && forall i :: 0 <= i < |es| ==> ps[i] == (es[i].0, Normalize(es[i].1))
    decreases Mapping(es), 0
  {
    seq(|es|, i requires 0 <= i < |es| => (es[i].0, Normalize(es[i].1)))
  }

  function AsTuple(ps: seq<(string, Key)>): Key
  {
    Many(seq(|ps|, i requires 0 <= i < |ps| => PairOf(ps[i])))
  }

  function Normalize(a: Arg): Key
    decreases a, 1
  {
    match a
    case Leaf(s) => One(AtomOf(s))
    case Mapping(es) => AsTuple(SortBy(Pairs(es), PairKey, TextLess))
    case List(items) => Many(seq(|items|, i requires 0 <= i < |items| => Normalize(items[i])))
  }

  // Equality of Python scalars: True and 1.0 equal 1, and False and 0.0 equal 0.
  predicate SameScalar(s: Scalar, t: Scalar)
  {
    match s
    case Null => t.Null?
    case Text(x) => t.Text? && t.t == x
    case Flag(b) =>
      || (t.Flag? && t.b == b)
      || (t.Integer? && ((b && t.i == 1) || (!b && t.i == 0)))
      || (t.Float? && ((b && t.r == 1.0) || (!b && t.r == 0.0)))
    case Integer(i) =>
      || (t.Flag? && ((t.b && i == 1) || (!t.b && i == 0)))
      || (t.Integer? && t.i == i)
      || (t.Float? && t.r == i as real)
    case Float(r) =>
      || (t.Flag? && ((t.b && r == 1.0) || (!t.b && r == 0.0)))
      || (t.Integer? && t.i as real == r)
      || (t.Float? && t.r == r)
  }

  // Two scalars share a key exactly when they are equal; integers, when they are the same integer.
  lemma ScalarsShareKeyIffEqual(s: Scalar, t: Scalar)
    ensures Normalize(Leaf(s)) == Normalize(Leaf(t)) <==> SameScalar(s, t)
  {
  }

  // Equality of Python values: dicts ignore insertion order at every depth.
  ghost predicate Same(v: Arg, w: Arg)
  {
    match v
    case Leaf(s) => w.Leaf? && SameScalar(s, w.s)
    case Mapping(es) => w.Mapping? && |es| == |w.entries| &&
      forall i :: 0 <= i < |es| ==>
        exists j :: 0 <= j < |w.entries| && es[i].0 == w.entries[j].0 && Same(es[i].1, w.entries[j].1)
    case List(xs) => w.List? && |xs| == |w.items| && forall i :: 0 <= i < |xs| ==> Same(xs[i], w.items[i])
  }

  // The normal form of some mapping: name-value pairs in strictly increasing order of names.
  predicate IsPairs(k: Key)
  {
    && k.Many?
    && (forall i :: 0 <= i < |k.ks| ==> IsPair(k.ks[i]))
    && (forall i, j :: 0 <= i < j < |k.ks| ==> TextLess(k.ks[i].ks[0].a.t, k.ks[j].ks[0].a.t))
  }

  predicate IsPair(k: Key)
  {
    k.Many? && |k.ks| == 2 && k.ks[0].One? && k.ks[0].a.TextAtom?
  }

  // No list inside reads like a sorted list of name-value pairs; the empty list does.
  predicate Unambiguous(a: Arg)
  {
    match a
    case Leaf(_) => true
    case Mapping(es) => forall i :: 0 <= i < |es| ==> Unambiguous(es[i].1)
    case List(items) => !IsPairs(Normalize(a)) && forall i :: 0 <= i < |items| ==> Unambiguous(items[i])
  }

  lemma MappingIsPairs(es: seq<(string, Arg)>)
    requires WellFormed(Mapping(es))
    ensures IsPairs(Normalize(Mapping(es)))
  {
    var ps := Pairs(es);
    var sorted := SortBy(ps, PairKey, TextLess);
    TextOrder();
    assert DistinctBy(ps, PairKey) by { assert forall i :: 0 <= i < |ps| ==> PairKey(ps[i]) == EntryKey(es[i]); }
    SortBySorts(ps, PairKey, TextLess);
    DistinctIsPermutationInvariant(ps, sorted, PairKey);
    var k := Normalize(Mapping(es));
    forall i, j | 0 <= i < j < |k.ks| ensures TextLess(k.ks[i].ks[0].a.t, k.ks[j].ks[0].a.t) {
      assert PairKey(sorted[i]) != PairKey(sorted[j]) && !TextLess(PairKey(sorted[j]), PairKey(sorted[i]));
    }
  }

  lemma {:induction false} CountOfDistinct<T, K>(xs: seq<T>, key: T -> K, x: T)
    requires DistinctBy(xs, key)
    ensures multiset(xs)[x] <= 1
  {
    if multiset(xs)[x] >= 2 { DuplicateHasTwoPlaces(xs, x, key); }
  }

  lemma SameElements<T, K>(xs: seq<T>, ys: seq<T>, key: T -> K)
    requires DistinctBy(xs, key) && |xs| == |ys|
    requires forall i :: 0 <= i < |xs| ==> xs[i] in ys
    ensures multiset(xs) == multiset(ys)
  {
    forall x | x in multiset(xs) ensures multiset(xs)[x] <= multiset(ys)[x] {
      CountOfDistinct(xs, key, x);
    }
    assert |multiset(ys) - multiset(xs)| == 0;
  }

  // A sequence of pairs is what its tuple shows.
  lemma AsTupleInjective(ps: seq<(string, Key)>, qs: seq<(string, Key)>)
    ensures AsTuple(ps) == AsTuple(qs) <==> ps == qs
  {
    if AsTuple(ps) == AsTuple(qs) {
      assert |AsTuple(ps).ks| == |ps| && |AsTuple(qs).ks| == |qs|;
      forall i | 0 <= i < |ps| ensures ps[i] == qs[i] {
        assert AsTuple(ps).ks[i] == PairOf(ps[i]) && AsTuple(qs).ks[i] == PairOf(qs[i]);
        assert PairOf(ps[i]).ks[0] == PairOf(qs[i]).ks[0] && PairOf(ps[i]).ks[1] == PairOf(qs[i]).ks[1];
      }
    }
  }

  lemma MappingKeys(es: seq<(string, Arg)>, fs: seq<(string, Arg)>)
    requires WellFormed(Mapping(es)) && WellFormed(Mapping(fs))
    ensures Normalize(Mapping(es)) == Normalize(Mapping(fs)) <==> multiset(Pairs(es)) == multiset(Pairs(fs))
  {
    var ps, qs := Pairs(es), Pairs(fs);
    TextOrder();
    assert DistinctBy(ps, PairKey) by { assert forall i :: 0 <= i < |ps| ==> PairKey(ps[i]) == EntryKey(es[i]); }
    AsTupleInjective(SortBy(ps, PairKey, TextLess), SortBy(qs, PairKey, TextLess));
    SortBySorts(ps, PairKey, TextLess);
    SortBySorts(qs, PairKey, TextLess);
    if multiset(ps) == multiset(qs) { SortForgetsOrder(ps, qs, PairKey, TextLess); }
  }

  // Equal arguments get equal keys: insertion order is forgotten at every depth, lists included.
  lemma {:induction false} SameArgumentsSameKey(v: Arg, w: Arg)
    requires WellFormed(v) && WellFormed(w) && Same(v, w)
    ensures Normalize(v) == Normalize(w)
    decreases v
  {
    match v
    case Leaf(_) =>
    case List(xs) =>
      forall i | 0 <= i < |xs| ensures Normalize(xs[i]) == Normalize(w.items[i]) {
        SameArgumentsSameKey(xs[i], w.items[i]);
      }
    case Mapping(es) =>
      var fs := w.entries;
      var ps, qs := Pairs(es), Pairs(fs);
      forall i | 0 <= i < |ps| ensures ps[i] in qs {
        var j :| 0 <= j < |fs| && es[i].0 == fs[j].0 && Same(es[i].1, fs[j].1);
        SameArgumentsSameKey(es[i].1, fs[j].1);
        assert ps[i] == qs[j];
      }
      assert DistinctBy(ps, PairKey) by { assert forall i :: 0 <= i < |ps| ==> PairKey(ps[i]) == EntryKey(es[i]); }
      SameElements(ps, qs, PairKey);
      MappingKeys(es, fs);
  }

  // Equal keys mean equal arguments, unless a list reads like a mapping.
  lemma {:induction false} SameKeySameArguments(v: Arg, w: Arg)
    requires WellFormed(v) && WellFormed(w) && Unambiguous(v) && Unambiguous(w)
    requires Normalize(v) == Normalize(w)
    ensures Same(v, w)
    decreases v
  {
    match v
    case Leaf(_) =>
    case List(xs) =>
      if w.Mapping? { MappingIsPairs(w.entries); }
      assert w.List?;
      assert |Normalize(v).ks| == |xs| && |Normalize(w).ks| == |w.items|;
      forall i | 0 <= i < |xs| ensures Same(xs[i], w.items[i]) {
        assert Normalize(v).ks[i] == Normalize(xs[i]) && Normalize(w).ks[i] == Normalize(w.items[i]);
        SameKeySameArguments(xs[i], w.items[i]);
      }
    case Mapping(es) =>
      MappingIsPairs(es);
      assert w.Mapping?;
      var fs := w.entries;
      var ps, qs := Pairs(es), Pairs(fs);
      MappingKeys(es, fs);
      assert |multiset(ps)| == |multiset(qs)|;
      forall i | 0 <= i < |es|
        ensures exists j :: 0 <= j < |fs| && es[i].0 == fs[j].0 && Same(es[i].1, fs[j].1)
      {
        assert ps[i] in multiset(qs);
        var j :| 0 <= j < |qs| && qs[j] == ps[i];
        SameKeySameArguments(es[i].1, fs[j].1);
      }
  }

  // For unambiguous arguments a cache key is exact.
  lemma KeysAreExact(v: Arg, w: Arg)
    requires WellFormed(v) && WellFormed(w) && Unambiguous(v) && Unambiguous(w)
    ensures Normalize(v) == Normalize(w) <==> Same(v, w)
  {
    if Same(v, w) { SameArgumentsSameKey(v, w); }
    if Normalize(v) == Normalize(w) { SameKeySameArguments(v, w); }
  }

  lemma IncreasingIsSorted(ps: seq<(string, Key)>)
    requires forall i, j :: 0 <= i < j < |ps| ==> TextLess(PairKey(ps[i]), PairKey(ps[j]))
    ensures SortBy(ps, PairKey, TextLess) == ps && DistinctBy(ps, PairKey)
  {
    TextOrder();
    SortBySorts(ps, PairKey, TextLess);
    SortedUnique(ps, SortBy(ps, PairKey, TextLess), PairKey, TextLess);
  }

  predicate IsNamedItem(a: Arg)
  {
    a.List? && |a.items| == 2 && a.items[0].Leaf? && a.items[0].s.Text?
  }

  function AsEntry(a: Arg): (string, Arg)
    requires IsNamedItem(a)
  {
    (a.items[0].s.t, a.items[1])
  }

  lemma NamedItemIsPair(a: Arg)
    requires WellFormed(a) && IsNamedItem(a)
    ensures Normalize(a) == PairOf((AsEntry(a).0, Normalize(AsEntry(a).1)))
  {
    assert Normalize(a).ks == [Normalize(a.items[0]), Normalize(a.items[1])];
  }

  lemma PairListIsMapping(items: seq<Arg>)
    requires WellFormed(List(items)) && IsPairs(Normalize(List(items)))
    requires forall i :: 0 <= i < |items| ==> IsNamedItem(items[i])
    ensures var es := seq(|items|, i requires 0 <= i < |items| => AsEntry(items[i]));
      WellFormed(Mapping(es)) && Normalize(Mapping(es)) == Normalize(List(items))
  {
    var es := seq(|items|, i requires 0 <= i < |items| => AsEntry(items[i]));
    var k, ps := Normalize(List(items)), Pairs(es);
    forall i | 0 <= i < |items| ensures k.ks[i] == PairOf(ps[i]) { NamedItemIsPair(items[i]); }
    forall i, j | 0 <= i < j < |ps| ensures TextLess(PairKey(ps[i]), PairKey(ps[j])) {
      assert TextLess(k.ks[i].ks[0].a.t, k.ks[j].ks[0].a.t);
    }
    IncreasingIsSorted(ps);
    assert DistinctBy(es, EntryKey) by { assert forall i :: 0 <= i < |ps| ==> PairKey(ps[i]) == EntryKey(es[i]); }
    assert k.ks == AsTuple(ps).ks;
  }

  // The condition is needed: a list collides with some mapping exactly when it reads like pairs.
  lemma ListCollidesWithMapping(items: seq<Arg>)
    requires WellFormed(List(items))
    ensures IsPairs(Normalize(List(items))) <==>
      exists es :: WellFormed(Mapping(es)) && Normalize(Mapping(es)) == Normalize(List(items))
  {
    var k := Normalize(List(items));
    if IsPairs(k) {
      forall i | 0 <= i < |items| ensures IsNamedItem(items[i]) {
        assert k.ks[i] == Normalize(items[i]);
        PairComesFromList(items[i]);
      }
      PairListIsMapping(items);
    }
    if es :| WellFormed(Mapping(es)) && Normalize(Mapping(es)) == k { MappingIsPairs(es); }
  }

  lemma PairComesFromList(a: Arg)
    requires WellFormed(a) && IsPair(Normalize(a))
    ensures IsNamedItem(a)
  {
    match a
    case Leaf(_) =>
    case Mapping(es) =>
      MappingIsPairs(es);
    case List(items) =>
      assert Normalize(a).ks[0] == Normalize(items[0]);
  }

  // ---- the condition is needed at every depth ----

  // Reading every list of name-value pairs as the mapping it looks like.
  function Reread(a: Arg): Arg
    requires WellFormed(a)
    decreases a
  {
    match a
    case Leaf(_) => a
    case Mapping(es) =>
      Mapping(seq(|es|, i requires 0 <= i < |es| => (es[i].0, Reread(es[i].1))))
    case List(items) =>
      if IsPairs(Normalize(a)) then
        PairsAreNamedItems(items);
        Mapping(seq(|items|, i requires 0 <= i < |items| => (items[i].items[0].s.t, Reread(items[i].items[1]))))
      else List(seq(|items|, i requires 0 <= i < |items| => Reread(items[i])))
  }

  lemma PairsAreNamedItems(items: seq<Arg>)
    requires WellFormed(List(items)) && IsPairs(Normalize(List(items)))
    ensures forall i :: 0 <= i < |items| ==> IsNamedItem(items[i]) && WellFormed(items[i].items[1])
  {
    forall i | 0 <= i < |items| ensures IsNamedItem(items[i]) && WellFormed(items[i].items[1]) {
      assert WellFormed(items[i]);
      assert Normalize(List(items)).ks[i] == Normalize(items[i]);
      PairComesFromList(items[i]);
    }
  }

  // Mappings with the same names and keys, entry by entry.
  lemma SamePairsSameKey(es: seq<(string, Arg)>, fs: seq<(string, Arg)>)
    requires |es| == |fs|
    requires forall i :: 0 <= i < |es| ==> es[i].0 == fs[i].0 && Normalize(es[i].1) == Normalize(fs[i].1)
    ensures Normalize(Mapping(es)) == Normalize(Mapping(fs))
    ensures DistinctBy(es, EntryKey) <==> DistinctBy(fs, EntryKey)
  {
    assert Pairs(es) == Pairs(fs);
    forall i | 0 <= i < |es| ensures EntryKey(es[i]) == EntryKey(fs[i]) {}
  }

  // Reading again keeps the key and leaves nothing ambiguous.
  lemma {:induction false} RereadKeepsKey(a: Arg)
    requires WellFormed(a)
    ensures WellFormed(Reread(a)) && Unambiguous(Reread(a)) && Normalize(Reread(a)) == Normalize(a)
    decreases a
  {
    match a
    case Leaf(_) =>
    case Mapping(es) =>
      forall i | 0 <= i < |es| { RereadKeepsKey(es[i].1); }
      SamePairsSameKey(es, Reread(a).entries);
    case List(items) =>
      if IsPairs(Normalize(a)) {
        PairsAreNamedItems(items);
        PairListIsMapping(items);
        forall i | 0 <= i < |items| { RereadKeepsKey(items[i].items[1]); }
        SamePairsSameKey(seq(|items|, i requires 0 <= i < |items| => AsEntry(items[i])), Reread(a).entries);
      } else {
        forall i | 0 <= i < |items| { RereadKeepsKey(items[i]); }
        assert Normalize(Reread(a)).ks == Normalize(a).ks;
      }
  }

  lemma EntryHasMatch(es: seq<(string, Arg)>, fs: seq<(string, Arg)>, i: nat) returns (j: nat)
    requires Same(Mapping(es), Mapping(fs)) && i < |es|
    ensures j < |fs| && es[i].0 == fs[j].0 && Same(es[i].1, fs[j].1)
  {
    j :| j < |fs| && es[i].0 == fs[j].0 && Same(es[i].1, fs[j].1);
  }

  lemma NamesMeet(es: seq<(string, Arg)>, i: nat, j: nat)
    requires DistinctBy(es, EntryKey) && i < |es| && j < |es| && es[i].0 == es[j].0
    ensures i == j
  {
    assert EntryKey(es[i]) == EntryKey(es[j]);
  }

  // It changes the meaning of anything ambiguous.
  lemma {:induction false} RereadIsAnother(a: Arg)
    requires WellFormed(a) && Same(a, Reread(a))
    ensures Unambiguous(a)
    decreases a
  {
    match a
    case Leaf(_) =>
    case Mapping(es) =>
      forall i | 0 <= i < |es| ensures Unambiguous(es[i].1) {
        var j := EntryHasMatch(es, Reread(a).entries, i);
        NamesMeet(es, i, j);
        RereadIsAnother(es[i].1);
      }
    case List(items) =>
      forall i | 0 <= i < |items| ensures Unambiguous(items[i]) { RereadIsAnother(items[i]); }
  }

  lemma AmbiguousHasADouble(v: Arg)
    requires WellFormed(v) && !Unambiguous(v)
    ensures var w := Reread(v);
      WellFormed(w) && Unambiguous(w) && Normalize(v) == Normalize(w) && !Same(v, w)
  {
    RereadKeepsKey(v);
    if Same(v, Reread(v)) { RereadIsAnother(v); }
  }

  // An argument is told apart from every unambiguous one that differs exactly when it is unambiguous
  // itself: one list of name-value pairs, at any depth, is enough for a collision.
  lemma KeyIsOwnIffUnambiguous(v: Arg)
    requires WellFormed(v)
    ensures (forall w :: WellFormed(w) && Unambiguous(w) && Normalize(v) == Normalize(w) ==> Same(v, w))
       <==> Unambiguous(v)
  {
    if Unambiguous(v) {
      forall w | WellFormed(w) && Unambiguous(w) && Normalize(v) == Normalize(w) ensures Same(v, w) {
        SameKeySameArguments(v, w);
      }
    } else {
      AmbiguousHasADouble(v);
    }
  }

  // ---- whole requests ----

  datatype Request = Request(baseUrl: string, device: string, endpoint: string, kwargs: Arg)

  datatype RequestKey = RequestKey(baseUrl: string, device: string, endpoint: string, kwargs: Key)

  function KeyOf(r: Request): RequestKey
  {
    RequestKey(r.baseUrl, r.device, r.endpoint, Normalize(r.kwargs))
  }

  // A cached response is shared exactly by requests for the same endpoint of the same device with equal
  // arguments.
  lemma RequestsShareKeyIffSame(q: Request, r: Request)
    requires WellFormed(q.kwargs) && WellFormed(r.kwargs) && Unambiguous(q.kwargs) && Unambiguous(r.kwargs)
    ensures KeyOf(q) == KeyOf(r)
      <==> q.baseUrl == r.baseUrl && q.device == r.device && q.endpoint == r.endpoint && Same(q.kwargs, r.kwargs)
  {
    KeysAreExact(q.kwargs, r.kwargs);
  }

  // Two different requests with one key: limit=1 and limit=true, and {} and [].
  lemma DifferentRequestsOneKey()
    ensures var one, yes := Mapping([("limit", Leaf(Integer(1)))]), Mapping([("limit", Leaf(Flag(true)))]);
      one != yes && Same(one, yes) && Normalize(one) == Normalize(yes)
    ensures Normalize(Mapping([])) == Normalize(List([])) && !Same(Mapping([]), List([]))
  {
    var one, yes := Mapping([("limit", Leaf(Integer(1)))]), Mapping([("limit", Leaf(Flag(true)))]);
    assert Same(one.entries[0].1, yes.entries[0].1) && one.entries[0].0 == yes.entries[0].0;
    SameArgumentsSameKey(one, yes);
    assert Pairs([]) == [];
    assert Normalize(Mapping([])).ks == Normalize(List([])).ks;
  }
}
