// The JSON form of a UTC datetime: like isoformat(), with Z for the zone.
module UtcText {
  import opened Common
  import opened IsoTime

  // Zero-padded numbers, each followed by a separator.
  datatype Field = Field(width: nat, separator: char)

  const DATE_AND_CLOCK := [Field(4, '-'), Field(2, '-'), Field(2, 'T'), Field(2, ':'), Field(2, ':')]

  function PrintFields(values: seq<nat>, fields: seq<Field>): string
    requires |values| == |fields|
  {
    if fields == [] then ""
    else Pad(values[0], fields[0].width) + ([fields[0].separator] + PrintFields(values[1..], fields[1..]))
  }

  function PrintUtc(t: DateTime): string
    requires Valid(t)
  {
    PrintFields([t.year, t.month, t.day, t.hour, t.minute], DATE_AND_CLOCK)
    + (Pad(t.second, 2) + (if t.microsecond == 0 then "Z" else "." + (Pad(t.microsecond, 6) + "Z")))
  }

  datatype Read = Read(n: nat, rest: string)

  predicate IsDigit(c: char) { '0' <= c <= '9' }

  // A number of exactly `width` digits.
  function ReadPad(w: string, width: nat): (r: Option<Read>)
    requires width <= |w|
    ensures r.Some? ==> |r.value.rest| == |w| - width
  {
    if width == 0 then Some(Read(0, w))
    else
      var high := ReadPad(w, width - 1);
      if high.None? || !IsDigit(high.value.rest[0]) then None
      else Some(Read(high.value.n * 10 + (high.value.rest[0] as int - '0' as int), high.value.rest[1..]))
  }

  datatype Fields = Fields(values: seq<nat>, rest: string)

  function ReadFields(w: string, fields: seq<Field>): (r: Option<Fields>)
    ensures r.Some? ==> |r.value.values| == |fields|
    decreases |fields|
  {
    if fields == [] then Some(Fields([], w))
    else if |w| <= fields[0].width then None
    else
      var first := ReadPad(w, fields[0].width);
      if first.None? || first.value.rest[0] != fields[0].separator then None
      else
        var more := ReadFields(first.value.rest[1..], fields[1..]);
        if more.None? then None else Some(Fields([first.value.n] + more.value.values, more.value.rest))
  }

  // The fraction, when there is one, has six digits and is not zero.
  function ReadTail(w: string): Option<nat>
  {
    if w == "Z" then Some(0)
    else if |w| != 8 || w[0] != '.' then None
    else
      var fraction := ReadPad(w[1..], 6);
      if fraction.None? || fraction.value.rest != "Z" || fraction.value.n == 0 then None else Some(fraction.value.n)
  }

  function ReadUtc(w: string): (r: Option<DateTime>)
    ensures r.Some? ==> Valid(r.value)
  {
    var fields := ReadFields(w, DATE_AND_CLOCK);
    if fields.None? || |fields.value.rest| < 2 then None
    else
      var second := ReadPad(fields.value.rest, 2);
      if second.None? || ReadTail(second.value.rest).None? then None
      else
        var v := fields.value.values;
        var t := DateTime(v[0], v[1], v[2], v[3], v[4], second.value.n, ReadTail(second.value.rest).value);
        if Valid(t) then Some(t) else None
  }

  lemma {:induction false} PadReadsBack(n: nat, width: nat, rest: string)
    requires n < Pow10(width)
    ensures ReadPad(Pad(n, width) + rest, width) == Some(Read(n, rest))
  {
    if width > 0 {
      var last := [(('0' as int) + n % 10) as char];
      PadReadsBack(n / 10, width - 1, last + rest);
      assert Pad(n, width) + rest == Pad(n / 10, width - 1) + (last + rest);
      assert (last + rest)[1..] == rest;
    } else {
      assert Pad(n, 0) + rest == rest;
    }
  }

  lemma FieldReadsBack(n: nat, fields: seq<Field>, tail: string)
    requires fields != [] && n < Pow10(fields[0].width) && ReadFields(tail, fields[1..]).Some?
    ensures var more := ReadFields(tail, fields[1..]).value;
      ReadFields(Pad(n, fields[0].width) + ([fields[0].separator] + tail), fields)
      == Some(Fields([n] + more.values, more.rest))
  {
    var rest := [fields[0].separator] + tail;
    PadReadsBack(n, fields[0].width, rest);
    assert rest[1..] == tail;
  }

  lemma Regroup(x: string, y: string, z: string, rest: string)
    ensures (x + (y + z)) + rest == x + (y + (z + rest))
  {
  }

  lemma FieldsSplit(values: seq<nat>, fields: seq<Field>, rest: string)
    requires |values| == |fields| && fields != []
    ensures PrintFields(values, fields) + rest
      == Pad(values[0], fields[0].width) + ([fields[0].separator] + (PrintFields(values[1..], fields[1..]) + rest))
  {
    Regroup(Pad(values[0], fields[0].width), [fields[0].separator], PrintFields(values[1..], fields[1..]), rest);
  }

  lemma {:induction false} FieldsReadBack(values: seq<nat>, fields: seq<Field>, rest: string)
    requires |values| == |fields| && forall i :: 0 <= i < |values| ==> values[i] < Pow10(fields[i].width)
    ensures ReadFields(PrintFields(values, fields) + rest, fields) == Some(Fields(values, rest))
  {
    if fields == [] {
      assert PrintFields(values, fields) + rest == rest;
    } else {
      FieldsSplit(values, fields, rest);
      FieldsReadBack(values[1..], fields[1..], rest);
      FieldReadsBack(values[0], fields, PrintFields(values[1..], fields[1..]) + rest);
      assert values == [values[0]] + values[1..];
    }
  }

  lemma TailReadsBack(microsecond: nat)
    requires 0 < microsecond < 1000000
    ensures ReadTail("." + (Pad(microsecond, 6) + "Z")) == Some(microsecond)
  {
    assert Pow10(6) == 1000000 by { assert Pow10(3) == 1000; }
    PadReadsBack(microsecond, 6, "Z");
    assert ("." + (Pad(microsecond, 6) + "Z"))[1..] == Pad(microsecond, 6) + "Z";
  }

  // A printed UTC datetime reads back.
  lemma UtcReadsBack(t: DateTime)
    requires Valid(t)
    ensures ReadUtc(PrintUtc(t)) == Some(t)
  {
    assert Pow10(2) == 100 && Pow10(4) == 10000;
    var values := [t.year, t.month, t.day, t.hour, t.minute];
    var tail := if t.microsecond == 0 then "Z" else "." + (Pad(t.microsecond, 6) + "Z");
    FieldsReadBack(values, DATE_AND_CLOCK, Pad(t.second, 2) + tail);
    PadReadsBack(t.second, 2, tail);
    if t.microsecond != 0 { TailReadsBack(t.microsecond); }
  }
}
