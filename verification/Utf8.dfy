// Strict UTF-8: the bytes a snapshot is written in and read from.
module Utf8 {
  import opened Common

  type Byte = x: int | 0 <= x < 256

  type Bytes = seq<Byte>

  // Six bits in a continuation byte.
  function Low(n: int): Byte { 0x80 + n % 0x40 }

  function EncodeChar(c: char): (b: Bytes)
    ensures 1 <= |b| <= 4
  {
    var n := c as int;
    var m := n / 0x40;
    if n < 0x80 then [n]
    else if n < 0x800 then [0xC0 + m, Low(n)]
    else if n < 0x10000 then [0xE0 + m / 0x40, Low(m), Low(n)]
    else [0xF0 + m / 0x40 / 0x40, Low(m / 0x40), Low(m), Low(n)]
  }

  function Encode(t: string): Bytes
  {
    if t == "" then [] else EncodeChar(t[0]) + Encode(t[1..])
  }

  datatype Decoded = Decoded(c: char, rest: Bytes)

  predicate Continues(b: Byte)
  {
    0x80 <= b < 0xC0
  }

  predicate IsScalar(n: int)
  {
    0 <= n < 0xD800 || 0xE000 <= n < 0x110000
  }

  // A leading part followed by six bits.
  function Join(high: int, b: int): int { high * 0x40 + (b - 0x80) }

  function Two(a: int, b: int): int { Join(a - 0xC0, b) }

  function Three(a: int, b: int, c: int): int { Join(Join(a - 0xE0, b), c) }

  function Four(a: int, b: int, c: int, d: int): int { Join(Join(Join(a - 0xF0, b), c), d) }

  // The first character; overlong forms and surrogates are errors.
  function DecodeChar(b: Bytes): (r: Option<Decoded>)
    ensures r.Some? ==> |r.value.rest| < |b|
  {
    if b == [] then None
    else if b[0] < 0x80 then Some(Decoded(b[0] as char, b[1..]))
    else if b[0] < 0xE0 then
      if |b| >= 2 && 0xC2 <= b[0] && Continues(b[1]) then Some(Decoded(Two(b[0], b[1]) as char, b[2..])) else None
    else if b[0] < 0xF0 then
      if && |b| >= 3 && Continues(b[1]) && Continues(b[2])
         && Three(b[0], b[1], b[2]) >= 0x800 && IsScalar(Three(b[0], b[1], b[2]))
      then Some(Decoded(Three(b[0], b[1], b[2]) as char, b[3..])) else None
    else
      if && |b| >= 4 && Continues(b[1]) && Continues(b[2]) && Continues(b[3])
         && Four(b[0], b[1], b[2], b[3]) >= 0x10000 && IsScalar(Four(b[0], b[1], b[2], b[3]))
      then Some(Decoded(Four(b[0], b[1], b[2], b[3]) as char, b[4..])) else None
  }

  function Decode(b: Bytes): Option<string>
  {
    if b == [] then Some("")
    else
      var first := DecodeChar(b);
      if first.None? then None
      else
        var more := Decode(first.value.rest);
        if more.None? then None else Some([first.value.c] + more.value)
  }

  lemma Splits(n: int)
    ensures Join(n / 0x40, Low(n)) == n
  {
  }

  lemma Joins(high: int, b: Byte)
    requires Continues(b)
    ensures Join(high, b) / 0x40 == high && Low(Join(high, b)) == b
  {
  }

  lemma CharReadsBack(c: char, rest: Bytes)
    ensures DecodeChar(EncodeChar(c) + rest) == Some(Decoded(c, rest))
  {
    var n := c as int;
    Splits(n);
    Splits(n / 0x40);
    Splits(n / 0x40 / 0x40);
    var b := EncodeChar(c) + rest;
    assert b[|EncodeChar(c)|..] == rest;
  }

  lemma TwoBytes(a: Byte, b: Byte)
    requires 0xC2 <= a < 0xE0 && Continues(b)
    ensures EncodeChar(Two(a, b) as char) == [a, b]
  {
    Joins(a - 0xC0, b);
  }

  lemma ThreeBytes(a: Byte, b: Byte, c: Byte)
    requires 0xE0 <= a < 0xF0 && Continues(b) && Continues(c) && Three(a, b, c) >= 0x800 && IsScalar(Three(a, b, c))
    ensures EncodeChar(Three(a, b, c) as char) == [a, b, c]
  {
    Joins(a - 0xE0, b);
    Joins(Join(a - 0xE0, b), c);
  }

  lemma FourBytes(a: Byte, b: Byte, c: Byte, d: Byte)
    requires 0xF0 <= a && Continues(b) && Continues(c) && Continues(d)
    requires Four(a, b, c, d) >= 0x10000 && IsScalar(Four(a, b, c, d))
    ensures EncodeChar(Four(a, b, c, d) as char) == [a, b, c, d]
  {
    Joins(a - 0xF0, b);
    Joins(Join(a - 0xF0, b), c);
    Joins(Join(Join(a - 0xF0, b), c), d);
  }

  lemma CharWritesBack(b: Bytes)
    requires DecodeChar(b).Some?
    ensures EncodeChar(DecodeChar(b).value.c) + DecodeChar(b).value.rest == b
  {
    if b[0] < 0x80 {
      assert [b[0]] + b[1..] == b;
    } else if b[0] < 0xE0 {
      TwoBytes(b[0], b[1]);
      assert [b[0], b[1]] + b[2..] == b;
    } else if b[0] < 0xF0 {
      ThreeBytes(b[0], b[1], b[2]);
      assert [b[0], b[1], b[2]] + b[3..] == b;
    } else {
      FourBytes(b[0], b[1], b[2], b[3]);
      assert [b[0], b[1], b[2], b[3]] + b[4..] == b;
    }
  }

  // Every text reads back from its bytes.
  lemma {:induction false} TextReadsBack(t: string)
    ensures Decode(Encode(t)) == Some(t)
  {
    if t != "" {
      CharReadsBack(t[0], Encode(t[1..]));
      TextReadsBack(t[1..]);
      assert t == [t[0]] + t[1..];
    }
  }

  // Only the bytes of a text read as that text.
  lemma {:induction false} BytesAreUnique(b: Bytes)
    requires Decode(b).Some?
    ensures Encode(Decode(b).value) == b
    decreases |b|
  {
    if b != [] {
      CharWritesBack(b);
      BytesAreUnique(DecodeChar(b).value.rest);
      assert Decode(b).value[1..] == Decode(DecodeChar(b).value.rest).value;
    }
  }

  lemma Regroup(x: Bytes, y: Bytes, z: Bytes)
    ensures (x + y) + z == x + (y + z)
  {
  }

  lemma {:induction false} EncodeConcat(t: string, u: string)
    ensures Encode(t + u) == Encode(t) + Encode(u)
  {
    if t == "" {
      assert t + u == u;
    } else {
      EncodeConcat(t[1..], u);
      assert (t + u)[0] == t[0] && (t + u)[1..] == t[1..] + u;
      Regroup(EncodeChar(t[0]), Encode(t[1..]), Encode(u));
    }
  }
}
