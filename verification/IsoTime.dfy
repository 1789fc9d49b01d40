// Stored timestamps are datetime.isoformat() text in UTC. Every due, stale and range test in SQL
// compares that text, so the time tests are right only if text order is time order.
module IsoTime {
  import opened Arithmetic
  import opened Ordering

  datatype DateTime = DateTime(year: int, month: int, day: int,
                               hour: int, minute: int, second: int, microsecond: int)

  predicate IsLeap(y: int)
  {
    y % 4 == 0 && (y % 100 != 0 || y % 400 == 0)
  }

  function DaysInMonth(y: int, m: int): int
  {
    if m == 2 then (if IsLeap(y) then 29 else 28)
    else if m == 4 || m == 6 || m == 9 || m == 11 then 30
    else 31
  }

  predicate Valid(t: DateTime)
  {
    && 1 <= t.year <= 9999 && 1 <= t.month <= 12 && 1 <= t.day <= DaysInMonth(t.year, t.month)
    && 0 <= t.hour < 24 && 0 <= t.minute < 60 && 0 <= t.second < 60 && 0 <= t.microsecond < 1000000
  }

  // The instant a datetime denotes: microseconds on the proleptic Gregorian time line.
  function DaysBeforeYear(y: int): int
  {
    (y - 1) * 365 + (y - 1) / 4 - (y - 1) / 100 + (y - 1) / 400
  }

  function DaysBeforeMonth(y: int, m: int): int
    requires 1 <= m <= 12
  {
    if m == 1 then 0 else DaysBeforeMonth(y, m - 1) + DaysInMonth(y, m - 1)
  }

  function Ordinal(y: int, m: int, d: int): int
    requires 1 <= m <= 12
  {
    DaysBeforeYear(y) + DaysBeforeMonth(y, m) + d
  }

  function Instant(t: DateTime): int
    requires Valid(t)
  {
    (((Ordinal(t.year, t.month, t.day) * 24 + t.hour) * 60 + t.minute) * 60 + t.second) * 1000000 + t.microsecond
  }

  function Pow10(w: nat): nat
  {
    if w == 0 then 1 else 10 * Pow10(w - 1)
  }

  function Pad(n: nat, width: nat): (s: string)
    ensures |s| == width
  {
    if width == 0 then "" else Pad(n / 10, width - 1) + [(('0' as int) + n % 10) as char]
  }

  // The fraction appears only when it is non-zero.
  function Tail(microsecond: nat): string
  {
    (if microsecond == 0 then "" else "." + Pad(microsecond, 6)) + "+00:00"
  }

  function IsoFormat(t: DateTime): string
    requires Valid(t)
  {
    Pad(t.year, 4) + ("-" + (Pad(t.month, 2) + ("-" + (Pad(t.day, 2) + ("T" +
    (Pad(t.hour, 2) + (":" + (Pad(t.minute, 2) + (":" + (Pad(t.second, 2) + Tail(t.microsecond)))))))))))
  }

  lemma {:induction false} PadOrder(a: nat, b: nat, w: nat)
    requires a < Pow10(w) && b < Pow10(w)
    ensures TextLess(Pad(a, w), Pad(b, w)) <==> a < b
    ensures Pad(a, w) == Pad(b, w) <==> a == b
  {
    if w > 0 {
      PadOrder(a / 10, b / 10, w - 1);
      TextLessConcat(Pad(a / 10, w - 1), Pad(b / 10, w - 1),
                     [(('0' as int) + a % 10) as char], [(('0' as int) + b % 10) as char]);
      assert Pad(a, w)[..w - 1] == Pad(a / 10, w - 1) && Pad(b, w)[..w - 1] == Pad(b / 10, w - 1);
      assert Pad(a, w)[w - 1] == (('0' as int) + a % 10) as char && Pad(b, w)[w - 1] == (('0' as int) + b % 10) as char;
    }
  }

  // One zero-padded field followed by the rest of the text.
  lemma FieldOrder(a: nat, b: nat, w: nat, u: string, v: string)
    requires a < Pow10(w) && b < Pow10(w)
    ensures TextLess(Pad(a, w) + u, Pad(b, w) + v) <==> a < b || (a == b && TextLess(u, v))
  {
    PadOrder(a, b, w);
    TextLessConcat(Pad(a, w), Pad(b, w), u, v);
  }

  lemma SeparatorOrder(c: char, u: string, v: string)
    ensures TextLess([c] + u, [c] + v) <==> TextLess(u, v)
  {
    TextLessConcat([c], [c], u, v);
  }

  lemma FractionOrder(a: nat, b: nat)
    requires 0 < a < 1000000 && 0 < b < 1000000
    ensures TextLess(Tail(a), Tail(b)) <==> a < b
  {
    assert Pow10(6) == 1000000 by { assert Pow10(3) == 1000; }
    TextLessTotal("+00:00", "+00:00");
    assert Tail(a) == "." + (Pad(a, 6) + "+00:00") && Tail(b) == "." + (Pad(b, 6) + "+00:00");
    SeparatorOrder('.', Pad(a, 6) + "+00:00", Pad(b, 6) + "+00:00");
    FieldOrder(a, b, 6, "+00:00", "+00:00");
  }

  // '+' sorts before '.', so the text without a fraction comes first.
  lemma TailOrder(a: nat, b: nat)
    requires a < 1000000 && b < 1000000
    ensures TextLess(Tail(a), Tail(b)) <==> a < b
  {
    if a != 0 && b != 0 {
      FractionOrder(a, b);
    } else {
      TextLessTotal(Tail(0), Tail(0));
      assert Tail(0)[0] == '+';
      assert a != 0 ==> Tail(a)[0] == '.';
      assert b != 0 ==> Tail(b)[0] == '.';
    }
  }

  function ClockText(t: DateTime): string
    requires Valid(t)
  {
    Pad(t.hour, 2) + (":" + (Pad(t.minute, 2) + (":" + (Pad(t.second, 2) + Tail(t.microsecond)))))
  }

  predicate ClockLess(a: DateTime, b: DateTime)
  {
    || a.hour < b.hour
    || (a.hour == b.hour && (a.minute < b.minute
    || (a.minute == b.minute && (a.second < b.second
    || (a.second == b.second && a.microsecond < b.microsecond)))))
  }

  predicate DateLess(a: DateTime, b: DateTime)
  {
    a.year < b.year || (a.year == b.year && (a.month < b.month || (a.month == b.month && a.day < b.day)))
  }

  predicate SameDate(a: DateTime, b: DateTime)
  {
    a.year == b.year && a.month == b.month && a.day == b.day
  }

  lemma ClockTextOrder(a: DateTime, b: DateTime)
    requires Valid(a) && Valid(b)
    ensures TextLess(ClockText(a), ClockText(b)) <==> ClockLess(a, b)
  {
    assert Pow10(2) == 100;
    var s, s' := Pad(a.second, 2) + Tail(a.microsecond), Pad(b.second, 2) + Tail(b.microsecond);
    var m, m' := Pad(a.minute, 2) + (":" + s), Pad(b.minute, 2) + (":" + s');
    TailOrder(a.microsecond, b.microsecond);
    FieldOrder(a.second, b.second, 2, Tail(a.microsecond), Tail(b.microsecond));
    SeparatorOrder(':', s, s');
    FieldOrder(a.minute, b.minute, 2, ":" + s, ":" + s');
    SeparatorOrder(':', m, m');
    FieldOrder(a.hour, b.hour, 2, ":" + m, ":" + m');
  }

  lemma IsoTextOrder(a: DateTime, b: DateTime)
    requires Valid(a) && Valid(b)
    ensures TextLess(IsoFormat(a), IsoFormat(b)) <==> DateLess(a, b) || (SameDate(a, b) && ClockLess(a, b))
  {
    assert Pow10(2) == 100 && Pow10(4) == 10000;
    var c, c' := ClockText(a), ClockText(b);
    var d, d' := Pad(a.day, 2) + ("T" + c), Pad(b.day, 2) + ("T" + c');
    var m, m' := Pad(a.month, 2) + ("-" + d), Pad(b.month, 2) + ("-" + d');
    ClockTextOrder(a, b);
    SeparatorOrder('T', c, c');
    FieldOrder(a.day, b.day, 2, "T" + c, "T" + c');
    SeparatorOrder('-', d, d');
    FieldOrder(a.month, b.month, 2, "-" + d, "-" + d');
    SeparatorOrder('-', m, m');
    FieldOrder(a.year, b.year, 4, "-" + m, "-" + m');
  }

  lemma {:induction false} MonthsFit(y: int, m: int, n: int)
    requires 1 <= m < n <= 12
    ensures DaysBeforeMonth(y, m) + DaysInMonth(y, m) <= DaysBeforeMonth(y, n)
  {
    if m + 1 < n { MonthsFit(y, m, n - 1); }
  }

  lemma {:induction false} YearsFit(y: int, z: int)
    requires 1 <= y < z
    ensures DaysBeforeYear(y) + DaysBeforeMonth(y, 12) + 31 <= DaysBeforeYear(z)
    decreases z - y
  {
    if y + 1 < z {
      YearsFit(y, z - 1);
      YearLength(z - 1);
    } else {
      YearLength(y);
    }
  }

  // Whether k divides y shows in the quotients.
  lemma QuotientSteps(y: int, k: nat)
    requires k >= 1
    ensures y / k - (y - 1) / k == if y % k == 0 then 1 else 0
  {
    DivMod(y, k, y / k);
    DivMod(y - 1, k, if y % k == 0 then y / k - 1 else y / k);
  }

  lemma MultiplesNest(y: int)
    ensures y % 400 == 0 ==> y % 100 == 0
    ensures y % 100 == 0 ==> y % 4 == 0
  {
    DivMod(y, 100, 4 * (y / 400));
    DivMod(y, 4, 25 * (y / 100));
  }

  // Of a year, the days are those of 365 and one for each of the three rules that applies.
  lemma YearRules(y: int)
    ensures DaysBeforeYear(y + 1) - DaysBeforeYear(y)
      == 365 + (if y % 4 == 0 then 1 else 0) - (if y % 100 == 0 then 1 else 0) + (if y % 400 == 0 then 1 else 0)
  {
    QuotientSteps(y, 4);
    QuotientSteps(y, 100);
    QuotientSteps(y, 400);
  }

  lemma YearLength(y: int)
    requires 1 <= y
    ensures DaysBeforeYear(y + 1) - DaysBeforeYear(y) == (if IsLeap(y) then 366 else 365)
    ensures DaysBeforeMonth(y, 12) + 31 == (if IsLeap(y) then 366 else 365)
  {
    YearRules(y);
    MultiplesNest(y);
    MonthsLength(y);
  }

  lemma MonthsLength(y: int)
    requires 1 <= y
    ensures DaysBeforeMonth(y, 12) == DaysInMonth(y, 2) + 306
  {
    var feb := DaysInMonth(y, 2);
    assert DaysBeforeMonth(y, 2) == 31;
    assert DaysBeforeMonth(y, 4) == feb + 62;
    assert DaysBeforeMonth(y, 6) == feb + 123;
    assert DaysBeforeMonth(y, 8) == feb + 184;
    assert DaysBeforeMonth(y, 10) == feb + 245;
  }

  // date(y, 1, 1).toordinal() is one more.
  lemma KnownYears()
    ensures DaysBeforeYear(1) == 0 && DaysBeforeYear(1970) == 719162 && DaysBeforeYear(9999) == 3651694
  {
  }

  // ---- the instants are consecutive ----

  const LENGTHS := [31, 28, 31, 30, 31, 30, 31, 31, 30, 31, 30, 31]

  function LengthOf(y: int, m: int): int
    requires 1 <= m <= 12
  {
    LENGTHS[m - 1] + if m == 2 && y % 4 == 0 && (y % 100 != 0 || y % 400 == 0) then 1 else 0
  }

  // The day after.
  function NextDay(t: DateTime): DateTime
    requires 1 <= t.month <= 12
  {
    if t.day < LengthOf(t.year, t.month) then t.(day := t.day + 1)
    else if t.month < 12 then t.(month := t.month + 1, day := 1)
    else t.(year := t.year + 1, month := 1, day := 1)
  }

  // One microsecond later, as clocks and calendars go on.
  function Tick(t: DateTime): DateTime
    requires 1 <= t.month <= 12
  {
    if t.microsecond < 999999 then t.(microsecond := t.microsecond + 1)
    else if t.second < 59 then t.(second := t.second + 1, microsecond := 0)
    else if t.minute < 59 then t.(minute := t.minute + 1, second := 0, microsecond := 0)
    else if t.hour < 23 then t.(hour := t.hour + 1, minute := 0, second := 0, microsecond := 0)
    else NextDay(t).(hour := 0, minute := 0, second := 0, microsecond := 0)
  }

  lemma NextDayIsOneLater(t: DateTime)
    requires Valid(t)
    ensures var u := NextDay(t);
      1 <= u.month <= 12 && Ordinal(u.year, u.month, u.day) == Ordinal(t.year, t.month, t.day) + 1
  {
    if t.month == 12 && t.day == 31 { YearLength(t.year); }
  }

  lemma NextDayIsValid(t: DateTime)
    requires Valid(t) && NextDay(t).year <= 9999
    ensures Valid(NextDay(t))
  {
  }

  // Every moment of the years 1 to 9999 but the last is followed by a moment one microsecond later.
  lemma TickIsOneLater(t: DateTime)
    requires Valid(t) && Tick(t).year <= 9999
    ensures Valid(Tick(t)) && Instant(Tick(t)) == Instant(t) + 1
  {
    if t.hour == 23 && t.minute == 59 && t.second == 59 && t.microsecond == 999999 {
      NextDayIsOneLater(t);
      NextDayIsValid(t);
    }
  }

  lemma DateOrder(a: DateTime, b: DateTime)
    requires Valid(a) && Valid(b) && DateLess(a, b)
    ensures Ordinal(a.year, a.month, a.day) < Ordinal(b.year, b.month, b.day)
  {
    if a.year < b.year {
      YearsFit(a.year, b.year);
      if a.month < 12 { MonthsFit(a.year, a.month, 12); }
      MonthStartNonNegative(b.year, b.month);
    } else if a.month < b.month {
      MonthsFit(a.year, a.month, b.month);
    }
  }

  lemma {:induction false} MonthStartNonNegative(y: int, m: int)
    requires 1 <= m <= 12
    ensures DaysBeforeMonth(y, m) >= 0
  {
    if m > 1 { MonthStartNonNegative(y, m - 1); }
  }

  lemma InstantOrder(a: DateTime, b: DateTime)
    requires Valid(a) && Valid(b)
    ensures DateLess(a, b) || (SameDate(a, b) && ClockLess(a, b)) ==> Instant(a) < Instant(b)
  {
    if DateLess(a, b) { DateOrder(a, b); }
  }

  // Text order on stored timestamps is exactly chronological order, and equal text is equal time.
  lemma TextOrderIsTimeOrder(a: DateTime, b: DateTime)
    requires Valid(a) && Valid(b)
    ensures TextLess(IsoFormat(a), IsoFormat(b)) <==> Instant(a) < Instant(b)
    ensures TextLeq(IsoFormat(a), IsoFormat(b)) <==> Instant(a) <= Instant(b)
    ensures IsoFormat(a) == IsoFormat(b) <==> a == b
  {
    IsoTextOrder(a, b);
    IsoTextOrder(b, a);
    InstantOrder(a, b);
    InstantOrder(b, a);
    TextLessTotal(IsoFormat(a), IsoFormat(b));
  }
}
