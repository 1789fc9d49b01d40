// JSON texts with the pairs of an object as they are written: in any order, and with repeated keys.
module JsonTexts {
  import opened Common
  import opened Json

  type Scalar = v: Json | !v.Arr? && !v.Obj? witness Null

  datatype Tree = Leaf(scalar: Scalar) | List(items: seq<Tree>) | Members(pairs: seq<(string, Tree)>)

  function Text(t: Tree): string
    decreases t, 1
  {
    match t
    case Leaf(v) => Print(v)
    case List(_) => "[" + Join(ItemTexts(t, 0)) + "]"
    case Members(_) => "{" + Join(PairTexts(t, 0)) + "}"
  }

  function ItemTexts(t: Tree, from: nat): (r: seq<string>)
    requires t.List? && from <= |t.items|
    ensures |r| == |t.items| - from
    decreases t, 0, |t.items| - from
  {
    if from == |t.items| then [] else [Text(t.items[from])] + ItemTexts(t, from + 1)
  }

  function PairTexts(t: Tree, from: nat): (r: seq<string>)
    requires t.Members? && from <= |t.pairs|
    ensures |r| == |t.pairs| - from
    decreases t, 0, |t.pairs| - from
  {
    if from == |t.pairs| then []
    else ["\"" + Escapes(t.pairs[from].0) + "\":" + Text(t.pairs[from].1)] + PairTexts(t, from + 1)
  }

  // What a text should load as: the first repeated key decides, in the order in which the objects end.
  function Meaning(t: Tree): (r: Parsed<Json>)
    ensures !r.Malformed? && (r.Ok? ==> r.rest == "")
    decreases t, 1
  {
    match t
    case Leaf(v) => Ok(v, "")
    case List(_) =>
      var items := ItemsMeaning(t, 0);
      if items.Ok? then Ok(Arr(items.value), "") else Duplicate(items.key)
    case Members(_) =>
      var pairs := PairsMeaning(t, 0);
      if pairs.Duplicate? then Duplicate(pairs.key)
      else if ToDict(pairs.value).Ok? then Ok(Obj(ToDict(pairs.value).value), "")
      else Duplicate(ToDict(pairs.value).key)
  }

  function ItemsMeaning(t: Tree, from: nat): (r: Parsed<seq<Json>>)
    requires t.List? && from <= |t.items|
    ensures !r.Malformed? && (r.Ok? ==> r.rest == "")
    decreases t, 0, |t.items| - from
  {
    if from == |t.items| then Ok([], "")
    else
      var first, others := Meaning(t.items[from]), ItemsMeaning(t, from + 1);
      if first.Duplicate? then Duplicate(first.key)
      else if others.Duplicate? then Duplicate(others.key)
      else Ok([first.value] + others.value, "")
  }

  function PairsMeaning(t: Tree, from: nat): (r: Parsed<seq<Pair>>)
    requires t.Members? && from <= |t.pairs|
    ensures !r.Malformed? && (r.Ok? ==> r.rest == "")
    decreases t, 0, |t.pairs| - from
  {
    if from == |t.pairs| then Ok([], "")
    else
      var first, others := Meaning(t.pairs[from].1), PairsMeaning(t, from + 1);
      if first.Duplicate? then Duplicate(first.key)
      else if others.Duplicate? then Duplicate(others.key)
      else Ok([Pair(t.pairs[from].0, first.value)] + others.value, "")
  }

  // The same with `w` left to read.
  function With<T>(r: Parsed<T>, w: string): Parsed<T>
  {
    if r.Ok? then r.(rest := w) else r
  }

  lemma TextOpens(t: Tree)
    ensures Opens(Text(t))
  {
    if t.Leaf? { PrintOpens(t.scalar); }
  }

  // ---- lists ----

  lemma ItemTextsSplit(t: Tree, from: nat, close: string)
    requires t.List? && from < |t.items|
    ensures var text, others := Join(ItemTexts(t, from)) + close, Join(ItemTexts(t, from + 1)) + close;
      text == Text(t.items[from]) + if from + 1 == |t.items| then close else "," + others
  {
    JoinSplits(ItemTexts(t, from), close);
    assert ItemTexts(t, from)[1..] == ItemTexts(t, from + 1);
  }

  lemma ItemTextsOpen(t: Tree, from: nat, w: string)
    requires t.List? && from < |t.items|
    ensures Opens(Join(ItemTexts(t, from)) + w)
  {
    TextOpens(t.items[from]);
    JoinOpens(ItemTexts(t, from), w);
  }

  lemma FailsAtItem(text: string, key: string)
    requires ParseValue(text) == Duplicate(key)
    ensures ParseItems(text) == Duplicate(key)
  {
  }

  lemma FailsAfterItem(text: string, v: Json, others: string, key: string)
    requires ParseValue(text) == Ok(v, "," + others) && Opens(others) && ParseItems(others) == Duplicate(key)
    ensures ParseItems(text) == Duplicate(key)
  {
    assert SkipSpace("," + others) == "," + others && ("," + others)[1..] == others && SkipSpace(others) == others;
  }

  lemma FirstItemReads(t: Tree, from: nat, close: string)
    requires t.List? && from < |t.items| && Ends(close)
    ensures var text, others := Join(ItemTexts(t, from)) + close, Join(ItemTexts(t, from + 1)) + close;
      ParseValue(text) == With(Meaning(t.items[from]), if from + 1 == |t.items| then close else "," + others)
    decreases t, 0
  {
    ItemTextsSplit(t, from, close);
    var others := Join(ItemTexts(t, from + 1)) + close;
    TreeReads(t.items[from], if from + 1 == |t.items| then close else "," + others);
  }

  lemma {:induction false} ItemsRead(t: Tree, from: nat, w: string)
    requires t.List? && from < |t.items|
    ensures ParseItems(Join(ItemTexts(t, from)) + ("]" + w)) == With(ItemsMeaning(t, from), w)
    decreases t, 1, |t.items| - from
  {
    var close := "]" + w;
    var text, others := Join(ItemTexts(t, from)) + close, Join(ItemTexts(t, from + 1)) + close;
    var first := Meaning(t.items[from]);
    FirstItemReads(t, from, close);
    if first.Duplicate? {
      FailsAtItem(text, first.key);
    } else if from + 1 == |t.items| {
      LastItem(text, first.value, w);
      assert [first.value] + [] == [first.value];
    } else {
      ItemsRead(t, from + 1, w);
      ItemTextsOpen(t, from + 1, close);
      var more := ItemsMeaning(t, from + 1);
      if more.Ok? {
        NextItem(text, first.value, others, more.value, w);
      } else {
        FailsAfterItem(text, first.value, others, more.key);
      }
    }
  }

  lemma ListFails(inside: string, key: string)
    requires Opens(inside) && ParseItems(inside) == Duplicate(key)
    ensures ParseValue("[" + inside) == Duplicate(key)
  {
    assert ("[" + inside)[1..] == inside && SkipSpace(inside) == inside;
  }

  lemma ListReads(t: Tree, w: string)
    requires t.List? && t.items != []
    requires ParseItems(Join(ItemTexts(t, 0)) + ("]" + w)) == With(ItemsMeaning(t, 0), w)
    ensures ParseValue(Text(t) + w) == With(Meaning(t), w)
  {
    var body, items := Join(ItemTexts(t, 0)), ItemsMeaning(t, 0);
    ItemTextsOpen(t, 0, "]" + w);
    Enclosed("[", body, "]", w);
    if items.Ok? {
      ArrayStep(items.value, body + ("]" + w), w);
    } else {
      ListFails(body + ("]" + w), items.key);
    }
  }

  // ---- objects ----

  lemma PairTextsSplit(t: Tree, from: nat, close: string)
    requires t.Members? && from < |t.pairs|
    ensures var text, others := Join(PairTexts(t, from)) + close, Join(PairTexts(t, from + 1)) + close;
      text == ("\"" + Escapes(t.pairs[from].0) + "\":" + Text(t.pairs[from].1))
              + if from + 1 == |t.pairs| then close else "," + others
  {
    JoinSplits(PairTexts(t, from), close);
    assert PairTexts(t, from)[1..] == PairTexts(t, from + 1);
  }

  lemma PairTextsOpen(t: Tree, from: nat, w: string)
    requires t.Members? && from < |t.pairs|
    ensures Opens(Join(PairTexts(t, from)) + w)
  {
    assert PairTexts(t, from)[0][0] == '\"';
    JoinOpens(PairTexts(t, from), w);
  }

  lemma PairFails(text: string, key: string, value: string, repeated: string)
    requires text != "" && text[0] == '\"' && ParseChars(text[1..]) == Ok(key, ":" + value)
    requires Opens(value) && ParseValue(value) == Duplicate(repeated)
    ensures ParsePair(text) == Duplicate(repeated)
  {
    var colon := ":" + value;
    assert colon[1..] == value && SkipSpace(value) == value && SkipSpace(colon) == colon;
  }

  lemma FailsAtPair(text: string, key: string)
    requires ParsePair(text) == Duplicate(key)
    ensures ParsePairs(text) == Duplicate(key)
  {
  }

  lemma FailsAfterPair(text: string, p: Pair, others: string, key: string)
    requires ParsePair(text) == Ok(p, "," + others) && Opens(others) && ParsePairs(others) == Duplicate(key)
    ensures ParsePairs(text) == Duplicate(key)
  {
    assert SkipSpace("," + others) == "," + others && ("," + others)[1..] == others && SkipSpace(others) == others;
  }

  // The meaning of a pair, when its value means `r`.
  function PairWith(key: string, r: Parsed<Json>): Parsed<Pair>
    requires !r.Malformed?
  {
    if r.Ok? then Ok(Pair(key, r.value), r.rest) else Duplicate(r.key)
  }

  lemma PairReads(key: string, t: Tree, tail: string)
    requires ParseValue(Text(t) + tail) == With(Meaning(t), tail)
    ensures ParsePair(("\"" + Escapes(key) + "\":" + Text(t)) + tail) == With(PairWith(key, Meaning(t)), tail)
  {
    var text, value := ("\"" + Escapes(key) + "\":" + Text(t)) + tail, Text(t) + tail;
    QuotedPair(Escapes(key), Text(t), tail);
    StringReadsBack(key, ":" + value);
    TextOpens(t);
    StillOpens(Text(t), tail);
    if Meaning(t).Ok? {
      PairParts(text, key, value, Meaning(t).value, tail);
    } else {
      PairFails(text, key, value, Meaning(t).key);
    }
  }

  lemma FirstPairReads(t: Tree, from: nat, close: string)
    requires t.Members? && from < |t.pairs| && Ends(close)
    ensures var text, others := Join(PairTexts(t, from)) + close, Join(PairTexts(t, from + 1)) + close;
      ParsePair(text) == With(PairWith(t.pairs[from].0, Meaning(t.pairs[from].1)),
                              if from + 1 == |t.pairs| then close else "," + others)
    decreases t, 0
  {
    PairTextsSplit(t, from, close);
    var others := Join(PairTexts(t, from + 1)) + close;
    var tail := if from + 1 == |t.pairs| then close else "," + others;
    TreeReads(t.pairs[from].1, tail);
    PairReads(t.pairs[from].0, t.pairs[from].1, tail);
  }

  lemma {:induction false} PairsRead(t: Tree, from: nat, w: string)
    requires t.Members? && from < |t.pairs|
    ensures ParsePairs(Join(PairTexts(t, from)) + ("}" + w)) == With(PairsMeaning(t, from), w)
    decreases t, 1, |t.pairs| - from
  {
    var close := "}" + w;
    var text, others := Join(PairTexts(t, from)) + close, Join(PairTexts(t, from + 1)) + close;
    var first := PairWith(t.pairs[from].0, Meaning(t.pairs[from].1));
    FirstPairReads(t, from, close);
    if first.Duplicate? {
      FailsAtPair(text, first.key);
    } else if from + 1 == |t.pairs| {
      LastPair(text, first.value, w);
      assert [first.value] + [] == [first.value];
    } else {
      PairsRead(t, from + 1, w);
      PairTextsOpen(t, from + 1, close);
      var more := PairsMeaning(t, from + 1);
      if more.Ok? {
        NextPair(text, first.value, others, more.value, w);
      } else {
        FailsAfterPair(text, first.value, others, more.key);
      }
    }
  }

  lemma ObjectFails(inside: string, key: string)
    requires Opens(inside) && ParsePairs(inside) == Duplicate(key)
    ensures ParseValue("{" + inside) == Duplicate(key)
  {
    assert ("{" + inside)[1..] == inside && SkipSpace(inside) == inside;
  }

  // A repeated key is noticed at the end of its object.
  lemma ObjectRefuses(pairs: seq<Pair>, inside: string, w: string)
    requires Opens(inside) && ParsePairs(inside) == Ok(pairs, w) && ToDict(pairs).Duplicate?
    ensures ParseValue("{" + inside) == Duplicate(ToDict(pairs).key)
  {
    assert ("{" + inside)[1..] == inside && SkipSpace(inside) == inside;
  }

  lemma ObjectReads(t: Tree, w: string)
    requires t.Members? && t.pairs != []
    requires ParsePairs(Join(PairTexts(t, 0)) + ("}" + w)) == With(PairsMeaning(t, 0), w)
    ensures ParseValue(Text(t) + w) == With(Meaning(t), w)
  {
    var body, pairs := Join(PairTexts(t, 0)), PairsMeaning(t, 0);
    PairTextsOpen(t, 0, "}" + w);
    Enclosed("{", body, "}", w);
    if pairs.Duplicate? {
      ObjectFails(body + ("}" + w), pairs.key);
    } else if ToDict(pairs.value).Ok? {
      DictHasNoRest(pairs.value);
      ObjectStep(ToDict(pairs.value).value, pairs.value, body + ("}" + w), w);
    } else {
      ObjectRefuses(pairs.value, body + ("}" + w), w);
    }
  }

  lemma DictHasNoRest(pairs: seq<Pair>)
    ensures ToDict(pairs).Ok? ==> ToDict(pairs).rest == ""
  {
  }

  // ---- the whole tree ----

  lemma EmptyReads(t: Tree, w: string)
    requires t == List([]) || t == Members([])
    ensures ParseValue(Text(t) + w) == With(Meaning(t), w)
  {
    var v := if t.List? then Arr([]) else Obj(map[]);
    EmptyReadsBack(v, w);
    assert Text(t) == if t.List? then "[]" else "{}";
    assert Print(v) == if t.List? then "[]" else "{}";
  }

  // A text loads as what it means: as its value, or refused for the first repeated key.
  lemma {:induction false} TreeReads(t: Tree, w: string)
    requires Ends(w)
    ensures ParseValue(Text(t) + w) == With(Meaning(t), w)
    decreases t, 2
  {
    if t.List? && t.items != [] {
      ItemsRead(t, 0, w);
      ListReads(t, w);
    } else if t.Members? && t.pairs != [] {
      PairsRead(t, 0, w);
      ObjectReads(t, w);
    } else if t.Leaf? {
      LeafReadsBack(t.scalar, w);
    } else {
      EmptyReads(t, w);
    }
  }

  lemma TextLoads(t: Tree)
    ensures Loads(Text(t) + "\n") == Meaning(t)
  {
    TreeReads(t, "\n");
    TextOpens(t);
    StillOpens(Text(t), "\n");
    assert ("\n")[1..] == "";
  }

  // ---- which texts are refused ----

  // Text after the value, other than white space.
  lemma TrailingTextIsRefused(t: Tree, w: string)
    requires SkipSpace(w) != ""
    ensures Loads(Text(t) + ("\n" + w)) == if Meaning(t).Ok? then Malformed else Duplicate(Meaning(t).key)
  {
    TreeReads(t, "\n" + w);
    TextOpens(t);
    StillOpens(Text(t), "\n" + w);
    SpacesAreSkipped('\n', w);
  }

  // A member whose key is not quoted, or not followed by a colon.
  lemma MemberNeedsQuotesAndColon(key: string, w: string)
    requires SkipSpace(w) == w && (w == "" || w[0] != ':')
    ensures ParsePair("\"" + (Escapes(key) + "\"" + w)) == Malformed
    ensures w == "" || w[0] != '\"' ==> ParsePair(w) == Malformed
  {
    StringReadsBack(key, w);
    assert ("\"" + (Escapes(key) + "\"" + w))[1..] == Escapes(key) + "\"" + w;
  }

  // Some object, at whatever depth, has this key twice.
  ghost predicate RepeatsKey(t: Tree, key: string)
  {
    match t
    case Leaf(_) => false
    case List(items) => exists i :: 0 <= i < |items| && RepeatsKey(items[i], key)
    case Members(pairs) =>
      || (exists i :: 0 <= i < |pairs| && RepeatsKey(pairs[i].1, key))
      || (exists i, j :: 0 <= i < j < |pairs| && pairs[i].0 == key && pairs[j].0 == key)
  }

  lemma {:induction false} ItemRepeats(t: Tree, from: nat)
    requires t.List? && from <= |t.items|
    ensures ItemsMeaning(t, from).Ok? <==> forall i :: from <= i < |t.items| ==> Meaning(t.items[i]).Ok?
    ensures ItemsMeaning(t, from).Duplicate? ==>
      exists i :: from <= i < |t.items| && Meaning(t.items[i]) == Duplicate(ItemsMeaning(t, from).key)
    decreases |t.items| - from
  {
    if from < |t.items| { ItemRepeats(t, from + 1); }
  }

  lemma {:induction false} PairRepeats(t: Tree, from: nat)
    requires t.Members? && from <= |t.pairs|
    ensures PairsMeaning(t, from).Ok? <==> forall i :: from <= i < |t.pairs| ==> Meaning(t.pairs[i].1).Ok?
    ensures PairsMeaning(t, from).Duplicate? ==>
      exists i :: from <= i < |t.pairs| && Meaning(t.pairs[i].1) == Duplicate(PairsMeaning(t, from).key)
    ensures PairsMeaning(t, from).Ok? ==> var ps := PairsMeaning(t, from).value;
      |ps| == |t.pairs| - from && forall i :: 0 <= i < |ps| ==> ps[i].key == t.pairs[from + i].0
    decreases |t.pairs| - from
  {
    if from < |t.pairs| { PairRepeats(t, from + 1); }
  }

  lemma ListRefusedIffRepeats(t: Tree)
    requires t.List?
    requires forall i :: 0 <= i < |t.items| ==> RefusalIsRepeat(t.items[i])
    ensures RefusalIsRepeat(t)
  {
    ItemRepeats(t, 0);
    if Meaning(t).Duplicate? {
      var i :| 0 <= i < |t.items| && Meaning(t.items[i]) == Duplicate(Meaning(t).key);
      assert RefusalIsRepeat(t.items[i]);
    }
    forall key | RepeatsKey(t, key) ensures Meaning(t).Duplicate? {
      var i :| 0 <= i < |t.items| && RepeatsKey(t.items[i], key);
      assert RefusalIsRepeat(t.items[i]);
    }
  }

  lemma PairKeys(t: Tree, ps: seq<Pair>)
    requires t.Members? && PairsMeaning(t, 0) == Ok(ps, "")
    ensures |ps| == |t.pairs| && forall i :: 0 <= i < |ps| ==> ps[i].key == t.pairs[i].0
  {
    PairRepeats(t, 0);
  }

  lemma LoadedKeysDiffer(t: Tree, ps: seq<Pair>, i: nat, j: nat)
    requires t.Members? && PairsMeaning(t, 0) == Ok(ps, "") && ToDict(ps).Ok? && i < j < |t.pairs|
    ensures t.pairs[i].0 != t.pairs[j].0
  {
    PairKeys(t, ps);
    DictIffNoRepeat(ps);
    assert ps[i].key != ps[j].key;
  }

  lemma LoadedValueDoesNotRepeat(t: Tree, i: nat, key: string)
    requires t.Members? && PairsMeaning(t, 0).Ok? && i < |t.pairs| && RefusalIsRepeat(t.pairs[i].1)
    ensures !RepeatsKey(t.pairs[i].1, key)
  {
    PairRepeats(t, 0);
  }

  // An object without repeated keys, all of whose values load, repeats none.
  lemma LoadedDoesNotRepeat(t: Tree, ps: seq<Pair>, key: string)
    requires t.Members? && PairsMeaning(t, 0) == Ok(ps, "") && ToDict(ps).Ok?
    requires forall i :: 0 <= i < |t.pairs| ==> RefusalIsRepeat(t.pairs[i].1)
    ensures !RepeatsKey(t, key)
  {
    forall i: nat | i < |t.pairs| ensures !RepeatsKey(t.pairs[i].1, key) { LoadedValueDoesNotRepeat(t, i, key); }
    forall i: nat, j: nat | i < j < |t.pairs| ensures t.pairs[i].0 != t.pairs[j].0 { LoadedKeysDiffer(t, ps, i, j); }
  }

  lemma RepeatIsNamed(t: Tree)
    requires t.Members? && PairsMeaning(t, 0).Ok? && ToDict(PairsMeaning(t, 0).value).Duplicate?
    ensures RepeatsKey(t, Meaning(t).key)
  {
    var ps := PairsMeaning(t, 0).value;
    PairKeys(t, ps);
    FirstRepeatIsNamed(ps);
    var j :| 0 <= j < |ps| && FirstRepeat(ps, ToDict(ps).key, j);
    var i :| 0 <= i < j && ps[i].key == ps[j].key;
    assert t.pairs[i].0 == ps[i].key && t.pairs[j].0 == ps[j].key;
  }

  lemma ObjectRefusedIffRepeats(t: Tree)
    requires t.Members?
    requires forall i :: 0 <= i < |t.pairs| ==> RefusalIsRepeat(t.pairs[i].1)
    ensures RefusalIsRepeat(t)
  {
    var all := PairsMeaning(t, 0);
    if all.Duplicate? {
      PairRepeats(t, 0);
      var i :| 0 <= i < |t.pairs| && Meaning(t.pairs[i].1) == Duplicate(all.key);
      assert RefusalIsRepeat(t.pairs[i].1);
    } else if ToDict(all.value).Duplicate? {
      RepeatIsNamed(t);
    } else {
      forall key { LoadedDoesNotRepeat(t, all.value, key); }
    }
  }

  // Refused exactly when some object repeats some key, and the key named is one of those.
  ghost predicate RefusalIsRepeat(t: Tree)
  {
    && (forall key :: RepeatsKey(t, key) ==> Meaning(t).Duplicate?)
    && (Meaning(t).Duplicate? ==> RepeatsKey(t, Meaning(t).key))
  }

  lemma {:induction false} RefusedIffRepeats(t: Tree)
    ensures RefusalIsRepeat(t)
    decreases t
  {
    match t
    case Leaf(_) =>
    case List(items) =>
      forall i | 0 <= i < |items| { RefusedIffRepeats(items[i]); }
      ListRefusedIffRepeats(t);
    case Members(pairs) =>
      forall i | 0 <= i < |pairs| { RefusedIffRepeats(pairs[i].1); }
      ObjectRefusedIffRepeats(t);
  }
}
