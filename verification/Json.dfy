// The part of JSON a snapshot uses: canonical printing with sorted keys, and a parser that rejects an
// object with a repeated key (RFC 8259, section 4).
module Json {
  import opened Common
  import opened Ordering

  datatype Json =
    | Null
    | Bool(b: bool)
    | Int(i: int)
    | Str(s: string)
    | Arr(items: seq<Json>)
    | Obj(members: map<string, Json>)

  datatype Pair = Pair(key: string, value: Json)

  datatype Parsed<T> = Ok(value: T, rest: string) | Malformed | Duplicate(key: string)

  // ---- Strings

  function HexDigit(n: nat): char
    requires n < 16
  {
    "0123456789abcdef"[n]
  }

  function HexValue(c: char): Option<nat>
  {
    if '0' <= c <= '9' then Some(c as int - '0' as int)
    else if 'a' <= c <= 'f' then Some(c as int - 'a' as int + 10)
    else if 'A' <= c <= 'F' then Some(c as int - 'A' as int + 10)
    else None
  }

  function Hex4(w: string): (r: Option<nat>)
    ensures r.Some? ==> |w| >= 4 && r.value < 0x10000
  {
    if |w| < 4 || HexValue(w[0]).None? || HexValue(w[1]).None? || HexValue(w[2]).None? || HexValue(w[3]).None? then None
    else
      var high := HexValue(w[0]).value * 16 + HexValue(w[1]).value;
      Some((high * 16 + HexValue(w[2]).value) * 16 + HexValue(w[3]).value)
  }

  function Escape(c: char): string
  {
    if c == '\"' then "\\\""
    else if c == '\\' then "\\\\"
    else if c == '\n' then "\\n"
    else if c == '\r' then "\\r"
    else if c == '\t' then "\\t"
    else if c == 8 as char then "\\b"
    else if c == 12 as char then "\\f"
    else if c < ' ' then ['\\', 'u', '0', '0', HexDigit(c as int / 16), HexDigit(c as int % 16)]
    else [c]
  }

  function Escapes(t: string): string
  {
    if t == "" then "" else Escape(t[0]) + Escapes(t[1..])
  }

  // The character a backslash stands for when followed by `c`; \u is handled apart.
  function Unescape(c: char): Option<char>
  {
    if c == '\"' || c == '\\' || c == '/' then Some(c)
    else if c == 'n' then Some('\n')
    else if c == 'r' then Some('\r')
    else if c == 't' then Some('\t')
    else if c == 'b' then Some(8 as char)
    else if c == 'f' then Some(12 as char)
    else None
  }

  // One character of a string literal: an escape, a surrogate pair of escapes, or the character itself.
  function ParseChar(w: string): (r: Parsed<char>)
    ensures r.Ok? ==> |r.rest| < |w|
    ensures !r.Duplicate?
  {
    if w == "" || w[0] < ' ' || w[0] == '\"' then Malformed
    else if w[0] != '\\' then Ok(w[0], w[1..])
    else if |w| < 2 then Malformed
    else if w[1] != 'u' then
      if Unescape(w[1]).Some? then Ok(Unescape(w[1]).value, w[2..]) else Malformed
    else
      var high := Hex4(w[2..]);
      if high.None? then Malformed
      else if !(0xD800 <= high.value < 0xE000) then Ok(high.value as char, w[6..])
      else if high.value >= 0xDC00 || |w| < 8 || w[6] != '\\' || w[7] != 'u' then Malformed
      else
        var low := Hex4(w[8..]);
        if low.None? || !(0xDC00 <= low.value < 0xE000) then Malformed
        else Ok((0x10000 + (high.value - 0xD800) * 0x400 + (low.value - 0xDC00)) as char, w[12..])
  }

  // The rest of a string literal, after its opening quote.
  function ParseChars(w: string): (r: Parsed<string>)
    ensures r.Ok? ==> |r.rest| < |w|
    ensures !r.Duplicate?
    decreases |w|
  {
    if w != "" && w[0] == '\"' then Ok("", w[1..])
    else
      match ParseChar(w)
      case Ok(c, rest) =>
        var more := ParseChars(rest);
        if more.Ok? then Ok([c] + more.value, more.rest) else Malformed
      case _ => Malformed
  }

  lemma ControlReadsBack(n: nat, w: string)
    requires n < 32
    ensures ParseChar(['\\', 'u', '0', '0', HexDigit(n / 16), HexDigit(n % 16)] + w) == Ok(n as char, w)
  {
    var text := ['\\', 'u', '0', '0', HexDigit(n / 16), HexDigit(n % 16)] + w;
    assert text[2..][0] == '0' && text[2..][1] == '0';
    assert text[2..][2] == HexDigit(n / 16) && text[2..][3] == HexDigit(n % 16);
    assert HexValue(HexDigit(n / 16)) == Some(n / 16) && HexValue(HexDigit(n % 16)) == Some(n % 16);
    assert Hex4(text[2..]) == Some(n);
    assert text[6..] == w;
  }

  lemma EscapeReadsBack(c: char, w: string)
    ensures Escape(c) != "" && Escape(c)[0] != '\"'
    ensures ParseChar(Escape(c) + w) == Ok(c, w)
  {
    var text := Escape(c) + w;
    if |Escape(c)| == 6 {
      ControlReadsBack(c as int, w);
    } else {
      assert text[|Escape(c)|..] == w;
    }
  }

  lemma EscapedStep(c: char, t: string, w: string, tail: string)
    requires ParseChars(tail) == Ok(t, w)
    ensures ParseChars(Escape(c) + tail) == Ok([c] + t, w)
  {
    EscapeReadsBack(c, tail);
    assert (Escape(c) + tail)[0] == Escape(c)[0];
  }

  lemma {:induction false} StringReadsBack(t: string, w: string)
    ensures ParseChars(Escapes(t) + "\"" + w) == Ok(t, w)
  {
    if t == "" {
      assert Escapes(t) + "\"" + w == "\"" + w;
      assert ("\"" + w)[1..] == w;
    } else {
      var tail := Escapes(t[1..]) + "\"" + w;
      assert Escapes(t) + "\"" + w == Escape(t[0]) + tail;
      StringReadsBack(t[1..], w);
      EscapedStep(t[0], t[1..], w, tail);
      assert t == [t[0]] + t[1..];
    }
  }

  // ---- Numbers: the model reads integers only.

  predicate IsDigit(c: char) { '0' <= c <= '9' }

  function Digits(n: nat): (r: string)
    ensures r != "" && forall i :: 0 <= i < |r| ==> IsDigit(r[i])
    ensures r[0] == '0' <==> n == 0
  {
    if n < 10 then [('0' as int + n) as char] else Digits(n / 10) + [('0' as int + n % 10) as char]
  }

  function DigitsValue(t: string): nat
    requires forall i :: 0 <= i < |t| ==> IsDigit(t[i])
  {
    if t == "" then 0
    else
      assert IsDigit(t[|t| - 1]);
      DigitsValue(t[..|t| - 1]) * 10 + (t[|t| - 1] as int - '0' as int)
  }

  lemma {:induction false} DigitsReadBack(n: nat)
    ensures DigitsValue(Digits(n)) == n
  {
    if n >= 10 {
      DigitsReadBack(n / 10);
      assert Digits(n)[..|Digits(n)| - 1] == Digits(n / 10);
    }
  }

  // How many digits the text starts with.
  function DigitRun(w: string): (k: nat)
    ensures k <= |w| && forall i :: 0 <= i < k ==> IsDigit(w[i])
    ensures k < |w| ==> !IsDigit(w[k])
  {
    if w == "" || !IsDigit(w[0]) then 0 else 1 + DigitRun(w[1..])
  }

  function PrintInt(n: int): string
  {
    if n < 0 then "-" + Digits(-n) else Digits(n)
  }

  // A leading zero ends the number.
  function ParseNat(w: string): (r: Parsed<int>)
    ensures r.Ok? ==> |r.rest| < |w|
    ensures !r.Duplicate?
  {
    var k := DigitRun(w);
    if k == 0 then Malformed
    else if w[0] == '0' then Ok(0, w[1..])
    else Ok(DigitsValue(w[..k]), w[k..])
  }

  function ParseInt(w: string): (r: Parsed<Json>)
    ensures r.Ok? ==> |r.rest| < |w|
    ensures !r.Duplicate?
  {
    if w != "" && w[0] == '-' then
      match ParseNat(w[1..])
      case Ok(n, rest) => Ok(Int(-n), rest)
      case _ => Malformed
    else
      match ParseNat(w)
      case Ok(n, rest) => Ok(Int(n), rest)
      case _ => Malformed
  }

  predicate Stops(w: string)
  {
    w == "" || !IsDigit(w[0])
  }

  lemma {:induction false} RunOfDigits(d: string, w: string)
    requires Stops(w) && forall i :: 0 <= i < |d| ==> IsDigit(d[i])
    ensures DigitRun(d + w) == |d|
  {
    if d == "" {
      assert d + w == w;
    } else {
      assert (d + w)[1..] == d[1..] + w && (d + w)[0] == d[0];
      RunOfDigits(d[1..], w);
    }
  }

  lemma NatReadsBack(n: nat, w: string)
    requires Stops(w)
    ensures ParseNat(Digits(n) + w) == Ok(n, w)
  {
    var d := Digits(n);
    RunOfDigits(d, w);
    DigitsReadBack(n);
    assert (d + w)[..|d|] == d && (d + w)[|d|..] == w && (d + w)[0] == d[0];
    if n == 0 { assert |d| == 1; }
  }

  lemma MinusReadsBack(d: string, n: int, w: string)
    requires ParseNat(d + w) == Ok(n, w)
    ensures ParseInt("-" + d + w) == Ok(Int(-n), w)
  {
    assert ("-" + d + w)[1..] == d + w;
  }

  lemma IntReadsBack(n: int, w: string)
    requires Stops(w)
    ensures ParseInt(PrintInt(n) + w) == Ok(Int(n), w)
    ensures IsDigit((PrintInt(n) + w)[0]) || (PrintInt(n) + w)[0] == '-'
  {
    if n < 0 {
      NatReadsBack(-n, w);
      MinusReadsBack(Digits(-n), -n, w);
    } else {
      NatReadsBack(n, w);
      assert (Digits(n) + w)[0] == Digits(n)[0];
    }
  }

  // ---- Values

  function Join(parts: seq<string>): string
  {
    if parts == [] then "" else if |parts| == 1 then parts[0] else parts[0] + "," + Join(parts[1..])
  }

  // json.dumps with sorted keys, no spaces and no ASCII escapes.
  function Print(v: Json): string
    decreases v, 2
  {
    match v
    case Null => "null"
    case Bool(b) => if b then "true" else "false"
    case Int(i) => PrintInt(i)
    case Str(s) => "\"" + Escapes(s) + "\""
    case Arr(items) => "[" + Join(PrintItems(v, 0)) + "]"
    case Obj(members) =>
      AscendingIsTheSet(members.Keys);
      "{" + Join(PrintMembers(v, Ascending(members.Keys))) + "}"
  }

  function PrintItems(v: Json, from: nat): (r: seq<string>)
    requires v.Arr? && from <= |v.items|
    ensures |r| == |v.items| - from
    decreases v, 1, |v.items| - from
  {
    if from == |v.items| then [] else [Print(v.items[from])] + PrintItems(v, from + 1)
  }

  function PrintMembers(v: Json, keys: seq<string>): (r: seq<string>)
    requires v.Obj? && forall k :: k in keys ==> k in v.members
    ensures |r| == |keys|
    decreases v, 1, |keys|
  {
    if keys == [] then []
    else
      assert keys[0] in keys;
      ["\"" + Escapes(keys[0]) + "\":" + Print(v.members[keys[0]])] + PrintMembers(v, keys[1..])
  }

  function SkipSpace(w: string): (r: string)
    ensures |r| <= |w|
  {
    if w != "" && (w[0] == ' ' || w[0] == '\n' || w[0] == '\r' || w[0] == '\t') then SkipSpace(w[1..]) else w
  }

  predicate StartsWith(w: string, word: string)
  {
    |w| >= |word| && w[..|word|] == word
  }

  function ParseWord(w: string): (r: Parsed<Json>)
    ensures r.Ok? ==> |r.rest| < |w|
    ensures !r.Duplicate?
  {
    if StartsWith(w, "null") then Ok(Null, w[4..])
    else if StartsWith(w, "true") then Ok(Bool(true), w[4..])
    else if StartsWith(w, "false") then Ok(Bool(false), w[5..])
    else Malformed
  }

  // The dictionary of a list of pairs, or its first repeated key.
  function ToDict(pairs: seq<Pair>): (r: Parsed<map<string, Json>>)
    ensures !r.Malformed?
  {
    if pairs == [] then Ok(map[], "")
    else
      var last := |pairs| - 1;
      match ToDict(pairs[..last])
      case Ok(m, _) =>
        if pairs[last].key in m then Duplicate(pairs[last].key)
        else Ok(m[pairs[last].key := pairs[last].value], "")
      case Duplicate(k) => Duplicate(k)
  }

  // One value, from its first character.
  function ParseValue(w: string): (r: Parsed<Json>)
    ensures r.Ok? ==> |r.rest| < |w|
    decreases |w|, 0
  {
    if w == "" then Malformed
    else if w[0] == '\"' then
      match ParseChars(w[1..])
      case Ok(s, rest) => Ok(Str(s), rest)
      case _ => Malformed
    else if w[0] == '[' then
      var inside := SkipSpace(w[1..]);
      if inside != "" && inside[0] == ']' then Ok(Arr([]), inside[1..])
      else
        match ParseItems(inside)
        case Ok(items, rest) => Ok(Arr(items), rest)
        case Malformed => Malformed
        case Duplicate(k) => Duplicate(k)
    else if w[0] == '{' then
      var inside := SkipSpace(w[1..]);
      if inside != "" && inside[0] == '}' then Ok(Obj(map[]), inside[1..])
      else
        match ParsePairs(inside)
        case Ok(pairs, rest) => Close(pairs, rest)
        case Malformed => Malformed
        case Duplicate(k) => Duplicate(k)
    else if w[0] in {'n', 't', 'f'} then ParseWord(w)
    else ParseInt(w)
  }

  // At the end of an object its pairs become a dictionary.
  function Close(pairs: seq<Pair>, rest: string): (r: Parsed<Json>)
    ensures r.Ok? ==> r.rest == rest
  {
    match ToDict(pairs)
    case Ok(m, _) => Ok(Obj(m), rest)
    case Duplicate(k) => Duplicate(k)
  }

  // Values separated by commas, through the closing bracket.
  function ParseItems(w: string): (r: Parsed<seq<Json>>)
    ensures r.Ok? ==> |r.rest| < |w|
    decreases |w|, 1
  {
    match ParseValue(w)
    case Malformed => Malformed
    case Duplicate(k) => Duplicate(k)
    case Ok(v, tail) =>
      var next := SkipSpace(tail);
      if next != "" && next[0] == ']' then Ok([v], next[1..])
      else if next == "" || next[0] != ',' then Malformed
      else
        match ParseItems(SkipSpace(next[1..]))
        case Ok(more, rest) => Ok([v] + more, rest)
        case Malformed => Malformed
        case Duplicate(k) => Duplicate(k)
  }

  // A key and its value.
  function ParsePair(w: string): (r: Parsed<Pair>)
    ensures r.Ok? ==> |r.rest| < |w|
    decreases |w|, 1
  {
    if w == "" || w[0] != '\"' then Malformed
    else
      match ParseChars(w[1..])
      case Malformed => Malformed
      case Ok(key, tail) =>
        var colon := SkipSpace(tail);
        if colon == "" || colon[0] != ':' then Malformed
        else
          match ParseValue(SkipSpace(colon[1..]))
          case Ok(v, rest) => Ok(Pair(key, v), rest)
          case Malformed => Malformed
          case Duplicate(k) => Duplicate(k)
  }

  // Pairs separated by commas, through the closing brace.
  function ParsePairs(w: string): (r: Parsed<seq<Pair>>)
    ensures r.Ok? ==> |r.rest| < |w|
    decreases |w|, 2
  {
    match ParsePair(w)
    case Malformed => Malformed
    case Duplicate(k) => Duplicate(k)
    case Ok(p, tail) =>
      var next := SkipSpace(tail);
      if next != "" && next[0] == '}' then Ok([p], next[1..])
      else if next == "" || next[0] != ',' then Malformed
      else
        match ParsePairs(SkipSpace(next[1..]))
        case Ok(more, rest) => Ok([p] + more, rest)
        case Malformed => Malformed
        case Duplicate(k) => Duplicate(k)
  }

  // A whole text: one value with white space around it.
  function Loads(text: string): (r: Parsed<Json>)
    ensures r.Ok? ==> r.rest == ""
  {
    match ParseValue(SkipSpace(text))
    case Ok(v, rest) => if SkipSpace(rest) == "" then Ok(v, "") else Malformed
    case Malformed => Malformed
    case Duplicate(k) => Duplicate(k)
  }

  // ---- What is printed reads back.

  // White space, commas and closing brackets do not start a value.
  predicate Opens(w: string)
  {
    w != "" && w[0] !in {' ', '\n', '\r', '\t', ']', '}', ','}
  }

  // What may follow a value in a printed text.
  predicate Ends(w: string)
  {
    w == "" || w[0] in {',', ']', '}', '\n'}
  }

  lemma PrintOpens(v: Json)
    ensures Opens(Print(v))
  {
    if v.Int? && v.i < 0 { assert PrintInt(v.i)[0] == '-'; }
  }

  lemma StillOpens(x: string, w: string)
    requires Opens(x)
    ensures Opens(x + w)
  {
    assert (x + w)[0] == x[0];
  }

  lemma Regroup(x: string, y: string, w: string)
    ensures (x + "," + y) + w == x + ("," + (y + w))
  {
    assert (x + "," + y) + w == (x + ",") + (y + w);
  }

  // What follows the first of `parts` in a joined text.
  function TailOf(parts: seq<string>, w: string): string
    requires parts != []
  {
    if |parts| == 1 then w else "," + (Join(parts[1..]) + w)
  }

  lemma JoinSplits(parts: seq<string>, w: string)
    requires parts != []
    ensures Join(parts) + w == parts[0] + TailOf(parts, w)
  {
    if |parts| > 1 { Regroup(parts[0], Join(parts[1..]), w); }
  }

  lemma JoinOpens(parts: seq<string>, w: string)
    requires parts != [] && Opens(parts[0])
    ensures Opens(Join(parts) + w)
  {
    JoinSplits(parts, w);
    StillOpens(parts[0], TailOf(parts, w));
  }

  // The last item, and one that others follow, given how the rest reads.
  lemma LastItem(text: string, v: Json, w: string)
    requires ParseValue(text) == Ok(v, "]" + w)
    ensures ParseItems(text) == Ok([v], w)
  {
    assert SkipSpace("]" + w) == "]" + w && ("]" + w)[1..] == w;
  }

  lemma NextItem(text: string, v: Json, others: string, more: seq<Json>, w: string)
    requires ParseValue(text) == Ok(v, "," + others) && Opens(others) && ParseItems(others) == Ok(more, w)
    ensures ParseItems(text) == Ok([v] + more, w)
  {
    assert SkipSpace("," + others) == "," + others && ("," + others)[1..] == others && SkipSpace(others) == others;
  }

  lemma ItemsOpen(v: Json, from: nat, w: string)
    requires v.Arr? && from < |v.items|
    ensures Opens(Join(PrintItems(v, from)) + w)
  {
    PrintOpens(v.items[from]);
    JoinOpens(PrintItems(v, from), w);
  }

  // The printed items from `from` on: one item, and either the end or a comma and the other items.
  lemma ItemsSplit(v: Json, from: nat, close: string)
    requires v.Arr? && from < |v.items|
    ensures var text, others := Join(PrintItems(v, from)) + close, Join(PrintItems(v, from + 1)) + close;
      text == Print(v.items[from]) + if from + 1 == |v.items| then close else "," + others
  {
    JoinSplits(PrintItems(v, from), close);
    assert PrintItems(v, from)[1..] == PrintItems(v, from + 1);
  }

  lemma FirstItemReads(v: Json, from: nat, close: string)
    requires v.Arr? && from < |v.items| && Ends(close)
    ensures var text, others := Join(PrintItems(v, from)) + close, Join(PrintItems(v, from + 1)) + close;
      ParseValue(text) == Ok(v.items[from], if from + 1 == |v.items| then close else "," + others)
    decreases v, 0
  {
    ItemsSplit(v, from, close);
    var others := Join(PrintItems(v, from + 1)) + close;
    ValueReadsBack(v.items[from], if from + 1 == |v.items| then close else "," + others);
  }

  lemma {:induction false} ItemsReadBack(v: Json, from: nat, w: string)
    requires v.Arr? && from < |v.items|
    ensures ParseItems(Join(PrintItems(v, from)) + ("]" + w)) == Ok(v.items[from..], w)
    decreases v, 1, |v.items| - from
  {
    var close := "]" + w;
    var text, others := Join(PrintItems(v, from)) + close, Join(PrintItems(v, from + 1)) + close;
    FirstItemReads(v, from, close);
    if from + 1 == |v.items| {
      LastItem(text, v.items[from], w);
      assert v.items[from..] == [v.items[from]];
    } else {
      ItemsReadBack(v, from + 1, w);
      ItemsOpen(v, from + 1, close);
      NextItem(text, v.items[from], others, v.items[from + 1..], w);
      assert v.items[from..] == [v.items[from]] + v.items[from + 1..];
    }
  }

  function PairText(key: string, v: Json): string
  {
    "\"" + Escapes(key) + "\":" + Print(v)
  }

  lemma PairParts(text: string, key: string, value: string, v: Json, tail: string)
    requires text != "" && text[0] == '\"' && ParseChars(text[1..]) == Ok(key, ":" + value)
    requires Opens(value) && ParseValue(value) == Ok(v, tail)
    ensures ParsePair(text) == Ok(Pair(key, v), tail)
  {
    var colon := ":" + value;
    assert colon[1..] == value && SkipSpace(value) == value && SkipSpace(colon) == colon;
  }

  lemma QuotedPair(k: string, p: string, tail: string)
    ensures var text, rest := ("\"" + k + "\":" + p) + tail, k + "\"" + (":" + (p + tail));
      text[0] == '\"' && text[1..] == rest
  {
    var rest := k + "\"" + (":" + (p + tail));
    assert ("\"" + k + "\":" + p) + tail == "\"" + rest;
    assert ("\"" + rest)[1..] == rest;
  }

  lemma PairTextSplits(key: string, v: Json, tail: string)
    ensures (PairText(key, v) + tail)[0] == '\"'
    ensures (PairText(key, v) + tail)[1..] == Escapes(key) + "\"" + (":" + (Print(v) + tail))
  {
    QuotedPair(Escapes(key), Print(v), tail);
  }

  lemma PairReadsBack(key: string, v: Json, tail: string)
    requires ParseValue(Print(v) + tail) == Ok(v, tail)
    ensures ParsePair(PairText(key, v) + tail) == Ok(Pair(key, v), tail)
  {
    PairTextSplits(key, v, tail);
    StringReadsBack(key, ":" + (Print(v) + tail));
    PrintOpens(v);
    StillOpens(Print(v), tail);
    PairParts(PairText(key, v) + tail, key, Print(v) + tail, v, tail);
  }

  lemma LastPair(text: string, p: Pair, w: string)
    requires ParsePair(text) == Ok(p, "}" + w)
    ensures ParsePairs(text) == Ok([p], w)
  {
    assert SkipSpace("}" + w) == "}" + w && ("}" + w)[1..] == w;
  }

  lemma NextPair(text: string, p: Pair, others: string, more: seq<Pair>, w: string)
    requires ParsePair(text) == Ok(p, "," + others) && Opens(others) && ParsePairs(others) == Ok(more, w)
    ensures ParsePairs(text) == Ok([p] + more, w)
  {
    assert SkipSpace("," + others) == "," + others && ("," + others)[1..] == others && SkipSpace(others) == others;
  }

  function PairsOf(m: map<string, Json>, keys: seq<string>): seq<Pair>
    requires forall k :: k in keys ==> k in m
  {
    seq(|keys|, i requires 0 <= i < |keys| => Pair(keys[i], m[keys[i]]))
  }

  lemma PairsSplit(m: map<string, Json>, keys: seq<string>)
    requires keys != [] && forall k :: k in keys ==> k in m
    ensures keys[0] in m && PairsOf(m, keys) == [Pair(keys[0], m[keys[0]])] + PairsOf(m, keys[1..])
  {
    assert keys[0] in keys;
  }

  lemma MembersOpen(v: Json, keys: seq<string>, w: string)
    requires v.Obj? && keys != [] && forall k :: k in keys ==> k in v.members
    ensures Opens(Join(PrintMembers(v, keys)) + w)
  {
    assert keys[0] in keys;
    assert PrintMembers(v, keys)[0] == PairText(keys[0], v.members[keys[0]]);
    JoinOpens(PrintMembers(v, keys), w);
  }

  lemma MembersSplit(v: Json, keys: seq<string>, close: string)
    requires v.Obj? && keys != [] && forall k :: k in keys ==> k in v.members
    ensures keys[0] in v.members
    ensures var text, others := Join(PrintMembers(v, keys)) + close, Join(PrintMembers(v, keys[1..])) + close;
      text == PairText(keys[0], v.members[keys[0]]) + if |keys| == 1 then close else "," + others
  {
    assert keys[0] in keys;
    JoinSplits(PrintMembers(v, keys), close);
    assert PrintMembers(v, keys)[1..] == PrintMembers(v, keys[1..]);
  }

  lemma FirstPairReads(v: Json, keys: seq<string>, close: string)
    requires v.Obj? && keys != [] && (forall k :: k in keys ==> k in v.members) && Ends(close)
    ensures keys[0] in v.members
    ensures var text, others := Join(PrintMembers(v, keys)) + close, Join(PrintMembers(v, keys[1..])) + close;
      ParsePair(text) == Ok(Pair(keys[0], v.members[keys[0]]), if |keys| == 1 then close else "," + others)
    decreases v, 0
  {
    MembersSplit(v, keys, close);
    var others := Join(PrintMembers(v, keys[1..])) + close;
    var value, tail := v.members[keys[0]], if |keys| == 1 then close else "," + others;
    ValueReadsBack(value, tail);
    PairReadsBack(keys[0], value, tail);
  }

  lemma {:induction false} PairsReadBack(v: Json, keys: seq<string>, w: string)
    requires v.Obj? && keys != [] && forall k :: k in keys ==> k in v.members
    ensures ParsePairs(Join(PrintMembers(v, keys)) + ("}" + w)) == Ok(PairsOf(v.members, keys), w)
    decreases v, 1, |keys|
  {
    var close, rest := "}" + w, keys[1..];
    var text, others := Join(PrintMembers(v, keys)) + close, Join(PrintMembers(v, rest)) + close;
    FirstPairReads(v, keys, close);
    var p := Pair(keys[0], v.members[keys[0]]);
    if |keys| == 1 {
      LastPair(text, p, w);
      PairsSplit(v.members, keys);
      assert PairsOf(v.members, keys) == [p];
    } else {
      PairsReadBack(v, rest, w);
      MembersOpen(v, rest, close);
      NextPair(text, p, others, PairsOf(v.members, rest), w);
      PairsSplit(v.members, keys);
    }
  }

  ghost predicate Restricts(d: Parsed<map<string, Json>>, m: map<string, Json>, keys: seq<string>)
  {
    && d.Ok? && d.rest == "" && (forall k :: k in d.value <==> k in keys)
    && forall k :: k in d.value && k in m ==> d.value[k] == m[k]
  }

  // Distinct keys make a dictionary, whatever their order.
  lemma {:induction false} DistinctPairsMakeDict(m: map<string, Json>, keys: seq<string>)
    requires forall k :: k in keys ==> k in m
    requires forall i, j :: 0 <= i < j < |keys| ==> keys[i] != keys[j]
    ensures Restricts(ToDict(PairsOf(m, keys)), m, keys)
  {
    if keys != [] {
      var last := |keys| - 1;
      var before := keys[..last];
      DistinctPairsMakeDict(m, before);
      assert PairsOf(m, keys)[..last] == PairsOf(m, before);
      assert keys == before + [keys[last]] && keys[last] !in before;
    }
  }

  lemma AscendingDistinct(names: set<string>)
    ensures forall i, j :: 0 <= i < j < |Ascending(names)| ==> Ascending(names)[i] != Ascending(names)[j]
  {
    forall i: nat, j: nat | i < j < |Ascending(names)| ensures Ascending(names)[i] != Ascending(names)[j] {
      AscendingSorts(names, i, j);
      TextLessTotal(Ascending(names)[i], Ascending(names)[i]);
    }
  }

  lemma SortedKeysMakeDict(m: map<string, Json>)
    ensures forall k :: k in Ascending(m.Keys) <==> k in m
    ensures ToDict(PairsOf(m, Ascending(m.Keys))) == Ok(m, "")
  {
    var keys := Ascending(m.Keys);
    AscendingIsTheSet(m.Keys);
    AscendingDistinct(m.Keys);
    DistinctPairsMakeDict(m, keys);
    assert ToDict(PairsOf(m, keys)).value == m;
  }

  lemma WordReadsBack(v: Json, w: string)
    requires v.Null? || v.Bool?
    ensures ParseValue(Print(v) + w) == Ok(v, w)
  {
    var word := Print(v);
    assert (word + w)[..|word|] == word && (word + w)[|word|..] == w && (word + w)[0] == word[0];
  }

  lemma QuotedText(t: string, w: string)
    ensures var text, rest := ("\"" + t + "\"") + w, t + "\"" + w; text[0] == '\"' && text[1..] == rest
  {
    var rest := t + "\"" + w;
    assert ("\"" + t + "\"") + w == "\"" + rest;
    assert ("\"" + rest)[1..] == rest;
  }

  lemma TextReadsBack(s: string, w: string)
    ensures ParseValue(Print(Str(s)) + w) == Ok(Str(s), w)
  {
    StringReadsBack(s, w);
    QuotedText(Escapes(s), w);
  }

  lemma ArrayStep(items: seq<Json>, inside: string, w: string)
    requires Opens(inside) && ParseItems(inside) == Ok(items, w)
    ensures ParseValue("[" + inside) == Ok(Arr(items), w)
  {
    assert ("[" + inside)[1..] == inside && SkipSpace(inside) == inside;
  }

  lemma ObjectStep(m: map<string, Json>, pairs: seq<Pair>, inside: string, w: string)
    requires Opens(inside) && ParsePairs(inside) == Ok(pairs, w) && ToDict(pairs) == Ok(m, "")
    ensures ParseValue("{" + inside) == Ok(Obj(m), w)
  {
    assert ("{" + inside)[1..] == inside && SkipSpace(inside) == inside;
  }

  lemma EmptyReadsBack(v: Json, w: string)
    requires v == Arr([]) || v == Obj(map[])
    ensures ParseValue(Print(v) + w) == Ok(v, w)
  {
    var text := Print(v) + w;
    assert Print(v) == if v.Arr? then "[]" else "{}";
    assert text[1..] == (if v.Arr? then "]" else "}") + w && text[2..] == w;
    assert text[1..][1..] == text[2..];
  }

  lemma Enclosed(open: string, body: string, close: string, w: string)
    ensures (open + body + close) + w == open + (body + (close + w))
  {
    assert (open + body + close) + w == (open + body) + (close + w);
  }

  lemma ArrayReadsBack(v: Json, w: string)
    requires v.Arr? && v.items != [] && ParseItems(Join(PrintItems(v, 0)) + ("]" + w)) == Ok(v.items, w)
    ensures ParseValue(Print(v) + w) == Ok(v, w)
  {
    var body := Join(PrintItems(v, 0));
    ItemsOpen(v, 0, "]" + w);
    ArrayStep(v.items, body + ("]" + w), w);
    Enclosed("[", body, "]", w);
  }

  lemma ObjectReadsBack(v: Json, keys: seq<string>, w: string)
    requires v.Obj? && keys == Ascending(v.members.Keys) && keys != [] && forall k :: k in keys ==> k in v.members
    requires ParsePairs(Join(PrintMembers(v, keys)) + ("}" + w)) == Ok(PairsOf(v.members, keys), w)
    ensures ParseValue(Print(v) + w) == Ok(v, w)
  {
    var body := Join(PrintMembers(v, keys));
    SortedKeysMakeDict(v.members);
    MembersOpen(v, keys, "}" + w);
    ObjectStep(v.members, PairsOf(v.members, keys), body + ("}" + w), w);
    Enclosed("{", body, "}", w);
  }

  lemma LeafReadsBack(v: Json, w: string)
    requires Ends(w) && !v.Arr? && !v.Obj?
    ensures ParseValue(Print(v) + w) == Ok(v, w)
  {
    match v
    case Null => WordReadsBack(v, w);
    case Bool(_) => WordReadsBack(v, w);
    case Int(i) => IntReadsBack(i, w);
    case Str(s) => TextReadsBack(s, w);
  }

  lemma SomeKeys(m: map<string, Json>)
    requires m != map[]
    ensures Ascending(m.Keys) != [] && forall k :: k in Ascending(m.Keys) ==> k in m
  {
    var k :| k in m;
    AscendingIsTheSet(m.Keys);
  }

  // json.loads(json.dumps(v)) == v, inside any text.
  lemma {:induction false} ValueReadsBack(v: Json, w: string)
    requires Ends(w)
    ensures ParseValue(Print(v) + w) == Ok(v, w)
    decreases v, 2
  {
    if v.Arr? && v.items != [] {
      ItemsReadBack(v, 0, w);
      ArrayReadsBack(v, w);
    } else if v.Obj? && v.members != map[] {
      SomeKeys(v.members);
      PairsReadBack(v, Ascending(v.members.Keys), w);
      ObjectReadsBack(v, Ascending(v.members.Keys), w);
    } else if v.Arr? || v.Obj? {
      EmptyReadsBack(v, w);
    } else {
      LeafReadsBack(v, w);
    }
  }

  // A printed value with white space after it loads as itself.
  lemma LoadsReadsBack(v: Json)
    ensures Loads(Print(v) + "\n") == Ok(v, "")
  {
    ValueReadsBack(v, "\n");
    PrintOpens(v);
    StillOpens(Print(v), "\n");
    assert ("\n")[1..] == "";
  }

  // Two values that print alike are alike.
  lemma PrintIsInjective(v: Json, u: Json)
    requires Print(v) == Print(u)
    ensures v == u
  {
    LoadsReadsBack(v);
    LoadsReadsBack(u);
  }

  // ---- Other spellings of the same text

  // Hexadecimal digits in either case.
  lemma HexDigitsRead(n: nat)
    requires n < 16
    ensures HexValue("0123456789abcdef"[n]) == Some(n) && HexValue("0123456789ABCDEF"[n]) == Some(n)
  {
  }

  lemma Hex4Reads(x: string, w: string, a: nat, b: nat, c: nat, d: nat)
    requires |x| == 4 && a < 16 && b < 16 && c < 16 && d < 16
    requires HexValue(x[0]) == Some(a) && HexValue(x[1]) == Some(b) && HexValue(x[2]) == Some(c)
    requires HexValue(x[3]) == Some(d)
    ensures Hex4(x + w) == Some(((a * 16 + b) * 16 + c) * 16 + d)
  {
    assert (x + w)[0] == x[0] && (x + w)[1] == x[1] && (x + w)[2] == x[2] && (x + w)[3] == x[3];
  }

  // A character below the surrogates or above them, by its code.
  lemma CodeReads(x: string, w: string, code: nat)
    requires |x| == 4 && Hex4(x + w) == Some(code) && !(0xD800 <= code < 0xE000)
    ensures ParseChar("\\u" + (x + w)) == Ok(code as char, w)
  {
    var text := "\\u" + (x + w);
    assert text[2..] == x + w && text[6..] == w;
  }

  // A character beyond, by two codes.
  lemma SurrogatePairReads(x: string, y: string, w: string, high: nat, low: nat)
    requires |x| == 4 && |y| == 4 && 0xD800 <= high < 0xDC00 && 0xDC00 <= low < 0xE000
    requires Hex4(x + ("\\u" + (y + w))) == Some(high) && Hex4(y + w) == Some(low)
    ensures ParseChar("\\u" + (x + ("\\u" + (y + w))))
      == Ok((0x10000 + (high - 0xD800) * 0x400 + (low - 0xDC00)) as char, w)
  {
    var rest := "\\u" + (y + w);
    var text := "\\u" + (x + rest);
    assert text[2..] == x + rest && text[6..] == rest && text[6] == rest[0] && text[7] == rest[1];
    assert text[8..] == y + w && text[12..] == w;
  }

  // The short escapes, and that no other character may follow a backslash.
  lemma ShortEscapesRead(c: char, w: string)
    requires c != 'u'
    ensures var r := ParseChar(['\\', c] + w);
      && (c == '\"' ==> r == Ok('\"', w)) && (c == '\\' ==> r == Ok('\\', w)) && (c == '/' ==> r == Ok('/', w))
      && (c == 'n' ==> r == Ok('\n', w)) && (c == 'r' ==> r == Ok('\r', w)) && (c == 't' ==> r == Ok('\t', w))
      && (c == 'b' ==> r == Ok(8 as char, w)) && (c == 'f' ==> r == Ok(12 as char, w))
      && (c !in {'\"', '\\', '/', 'n', 'r', 't', 'b', 'f'} ==> r == Malformed)
  {
    var text := ['\\', c] + w;
    assert text[2..] == w && text[0] == '\\' && text[1] == c;
  }

  // Any other character stands for itself, except control characters, which a string may not hold.
  lemma PlainCharactersRead(c: char, w: string)
    requires c != '\"' && c != '\\'
    ensures ParseChar([c] + w) == if c < ' ' then Malformed else Ok(c, w)
  {
    assert ([c] + w)[1..] == w;
  }

  // White space is skipped, and nothing else.
  lemma SpacesAreSkipped(c: char, w: string)
    ensures SkipSpace([c] + w) == if c in {' ', '\n', '\r', '\t'} then SkipSpace(w) else [c] + w
  {
    assert ([c] + w)[1..] == w;
  }

  // A zero in front ends the number.
  lemma LeadingZeroEnds(w: string)
    ensures ParseInt("0" + w) == Ok(Int(0), w)
  {
    assert ("0" + w)[1..] == w;
  }

  // ---- The printed form is the shortest

  // Two characters for the seven short escapes, six with lower-case digits for other control characters, and
  // everything else as it is.
  lemma EscapeIsShortest(c: char)
    ensures |Escape(c)| == 2 <==> c in {'\"', '\\', '\n', '\r', '\t', 8 as char, 12 as char}
    ensures |Escape(c)| != 2 ==> |Escape(c)| == if c < ' ' then 6 else 1
    ensures forall i :: 0 <= i < |Escape(c)| && |Escape(c)| == 6 ==> !('A' <= Escape(c)[i] <= 'Z')
  {
  }

  lemma LettersPrint()
    ensures Print(Str("a")) == "\"a\"" && Print(Arr([])) == "[]" && Print(Int(-1)) == "-1"
  {
    assert Escapes("a") == Escape('a') + Escapes("") == "a";
    assert Join(PrintItems(Arr([]), 0)) == "";
    assert Digits(1) == "1";
  }

  lemma OneKey(k: string)
    ensures Ascending({k}) == [k]
  {
    var names, none: set<string> := {k}, {};
    assert IsLeast(k, names);
    LeastIsDetermined(names);
    assert names - {k} == none && Ascending(none) == [];
  }

  lemma ListPrints()
    ensures Print(Arr([Int(-1), Arr([]), Str("a")])) == "[-1,[],\"a\"]"
  {
    var v := Arr([Int(-1), Arr([]), Str("a")]);
    LettersPrint();
    assert PrintItems(v, 3) == [] && PrintItems(v, 2) == ["\"a\""] && PrintItems(v, 1) == ["[]", "\"a\""];
    assert PrintItems(v, 0) == ["-1", "[]", "\"a\""];
    assert ["-1", "[]", "\"a\""][1..] == ["[]", "\"a\""] && ["[]", "\"a\""][1..] == ["\"a\""];
    assert Join(["[]", "\"a\""]) == "[],\"a\"";
  }

  lemma ObjectPrints(v: Json)
    requires v == Obj(map["k" := Null])
    ensures Print(v) == "{\"k\":null}"
  {
    OneKey("k");
    assert v.members.Keys == {"k"} && Print(Null) == "null" && ["k"][1..] == [];
    assert Escapes("k") == Escape('k') + Escapes("") == "k";
    assert PrintMembers(v, []) == [];
    assert PrintMembers(v, ["k"]) == ["\"" + Escapes("k") + "\":" + Print(Null)] + PrintMembers(v, []);
  }

  // No spaces between the parts.
  lemma PrintIsCompact()
    ensures Print(Arr([Int(-1), Arr([]), Str("a")])) == "[-1,[],\"a\"]"
    ensures Print(Obj(map["k" := Null])) == "{\"k\":null}"
    ensures Print(Int(0)) == "0"
  {
    ListPrints();
    ObjectPrints(Obj(map["k" := Null]));
  }

  // ---- Repeated keys

  ghost predicate FirstRepeat(pairs: seq<Pair>, key: string, j: nat)
    requires j < |pairs|
  {
    && pairs[j].key == key
    && (exists i :: 0 <= i < j && pairs[i].key == key)
    && forall a, b :: 0 <= a < b < j ==> pairs[a].key != pairs[b].key
  }

  // Pairs become a dictionary, with every pair in it, exactly when no key is repeated.
  lemma {:induction false} DictIffNoRepeat(pairs: seq<Pair>)
    ensures ToDict(pairs).Ok? <==> forall i, j :: 0 <= i < j < |pairs| ==> pairs[i].key != pairs[j].key
    ensures ToDict(pairs).Ok? ==>
      forall k :: k in ToDict(pairs).value <==> exists i :: 0 <= i < |pairs| && pairs[i].key == k
    ensures ToDict(pairs).Ok? ==> forall i :: 0 <= i < |pairs| ==> ToDict(pairs).value[pairs[i].key] == pairs[i].value
  {
    if pairs != [] { DictIffNoRepeat(pairs[..|pairs| - 1]); }
  }

  // Otherwise the first repeated key is named.
  lemma {:induction false} FirstRepeatIsNamed(pairs: seq<Pair>)
    requires ToDict(pairs).Duplicate?
    ensures exists j :: 0 <= j < |pairs| && FirstRepeat(pairs, ToDict(pairs).key, j)
  {
    var last := |pairs| - 1;
    var before := pairs[..last];
    if ToDict(before).Duplicate? {
      FirstRepeatIsNamed(before);
      var j :| 0 <= j < last && FirstRepeat(before, ToDict(before).key, j);
      assert FirstRepeat(pairs, ToDict(pairs).key, j);
    } else {
      DictIffNoRepeat(before);
      assert FirstRepeat(pairs, ToDict(pairs).key, last);
    }
  }
}
