/** Timestamps as `datetime.isoformat` writes them: with a fraction only when there are microseconds, and
    with a UTC offset. Their text order is compared with the order of the instants they name. */
module Timestamps {
  datatype Moment = Moment(year: int, month: int, day: int, hour: int, minute: int, second: int, micro: int)

  predicate IsLeap(year: int)
  {
    year % 4 == 0 && (year % 100 != 0 || year % 400 == 0)
  }

  function DaysInMonth(year: int, month: int): int
  {
    if month == 2 then (if IsLeap(year) then 29 else 28)
    else if month in {4, 6, 9, 11} then 30
    else 31
  }

  predicate Valid(m: Moment)
  {
    && 1 <= m.year <= 9999 && 1 <= m.month <= 12 && 1 <= m.day <= DaysInMonth(m.year, m.month)
    && 0 <= m.hour < 24 && 0 <= m.minute < 60 && 0 <= m.second < 60 && 0 <= m.micro < 1_000_000
  }

  // ---- Text ----

  function Digits(n: nat, width: nat): (s: string)
    ensures |s| == width
  {
    if width == 0 then "" else Digits(n / 10, width - 1) + [('0' as int + n % 10) as char]
  }

  /** Offsets are whole minutes. */
  function Zone(offset: int): string
    requires -1440 < offset < 1440
  {
    var minutes := if offset < 0 then -offset else offset;
    [if offset < 0 then '-' else '+'] + (Digits(minutes / 60, 2) + ([':'] + Digits(minutes % 60, 2)))
  }

  function Fraction(micro: nat): string
  {
    if micro == 0 then "" else ['.'] + Digits(micro, 6)
  }

  function TimeText(hour: nat, minute: nat, second: nat, micro: nat, zone: string): string
  {
    Digits(hour, 2) + ([':'] + (Digits(minute, 2) + ([':'] + (Digits(second, 2) + (Fraction(micro) + zone)))))
  }

  function Text(m: Moment, offset: int): string
    requires Valid(m) && -1440 < offset < 1440
  {
    Digits(m.year, 4) + (['-'] + (Digits(m.month, 2) + (['-'] + (Digits(m.day, 2) + (['T'] +
    TimeText(m.hour, m.minute, m.second, m.micro, Zone(offset)))))))
  }

  // ---- Text order ----

  /** Character by character, as SQLite compares text: negative, zero or positive. */
  function Compare(a: string, b: string): int
  {
    if a == "" then (if b == "" then 0 else -1)
    else if b == "" then 1
    else if a[0] < b[0] then -1
    else if a[0] > b[0] then 1
    else Compare(a[1..], b[1..])
  }

  function Sign(n: int): int
  {
    if n < 0 then -1 else if n > 0 then 1 else 0
  }

  function First(c: int, d: int): int
  {
    if c != 0 then c else d
  }

  lemma {:induction false} CompareConcat(a: string, b: string, x: string, y: string)
    requires |a| == |b|
    ensures Compare(a + x, b + y) == First(Compare(a, b), Compare(x, y))
  {
    if a == "" {
      assert a + x == x && b + y == y;
    } else {
      assert (a + x)[1..] == a[1..] + x && (b + y)[1..] == b[1..] + y;
      assert (a + x)[0] == a[0] && (b + y)[0] == b[0];
      CompareConcat(a[1..], b[1..], x, y);
    }
  }

  lemma {:induction false} CompareIsEqual(a: string, b: string)
    ensures Compare(a, b) == 0 <==> a == b
  {
    if a != "" && b != "" && a[0] == b[0] {
      CompareIsEqual(a[1..], b[1..]);
      assert a == [a[0]] + a[1..] && b == [b[0]] + b[1..];
    }
  }

  function Power(width: nat): nat
  {
    if width == 0 then 1 else 10 * Power(width - 1)
  }

  /** Numbers of the same width sort as text as they do as numbers. */
  lemma {:induction false} DigitsCompare(n: nat, m: nat, width: nat)
    requires n < Power(width) && m < Power(width)
    ensures Compare(Digits(n, width), Digits(m, width)) == Sign(n - m)
  {
    if width > 0 {
      var a, b := Digits(n / 10, width - 1), Digits(m / 10, width - 1);
      var x, y := [('0' as int + n % 10) as char], [('0' as int + m % 10) as char];
      DigitsCompare(n / 10, m / 10, width - 1);
      CompareConcat(a, b, x, y);
      assert x[1..] == "" && y[1..] == "";
      assert Compare(x, y) == Sign(n % 10 - m % 10);
    }
  }

  lemma FieldCompare(n: nat, m: nat, width: nat, x: string, y: string)
    requires n < Power(width) && m < Power(width)
    ensures Compare(Digits(n, width) + x, Digits(m, width) + y) == First(Sign(n - m), Compare(x, y))
  {
    DigitsCompare(n, m, width);
    CompareConcat(Digits(n, width), Digits(m, width), x, y);
  }

  lemma SeparatorCompare(c: char, x: string, y: string)
    ensures Compare([c] + x, [c] + y) == Compare(x, y)
  {
    assert ([c] + x)[1..] == x && ([c] + y)[1..] == y;
  }

  lemma Powers()
    ensures Power(2) == 100 && Power(4) == 10_000 && Power(6) == 1_000_000
  {
    assert Power(3) == 1000 && Power(5) == 100_000;
  }

  lemma PointFirst(u: nat, x: string)
    requires u > 0
    ensures Fraction(u) + x == ['.'] + (Digits(u, 6) + x)
  {
    hide Digits;
  }

  lemma PointCompare(u: nat, v: nat, x: string, y: string)
    requires 0 < u < 1_000_000 && 0 < v < 1_000_000
    ensures Compare(Fraction(u) + x, Fraction(v) + y) == First(Sign(u - v), Compare(x, y))
  {
    Powers();
    hide Compare, Power, Digits, Fraction;
    PointFirst(u, x);
    PointFirst(v, y);
    SeparatorCompare('.', Digits(u, 6) + x, Digits(v, 6) + y);
    FieldCompare(u, v, 6, x, y);
  }

  /** Before the offset of a text there is a fraction or nothing. */
  lemma SignBeforePoint(u: nat, x: string, y: string)
    requires u > 0 && y != "" && y[0] in {'+', '-'}
    ensures Compare(Fraction(u) + x, y) == 1 && Compare(y, Fraction(u) + x) == -1
  {
    hide Digits;
    assert (Fraction(u) + x)[0] == '.';
  }

  /** A missing fraction is followed by a sign, which sorts before the point of a present one. */
  lemma FractionCompare(u: nat, v: nat, x: string, y: string)
    requires u < 1_000_000 && v < 1_000_000 && x != "" && y != "" && x[0] in {'+', '-'} && y[0] in {'+', '-'}
    ensures Compare(Fraction(u) + x, Fraction(v) + y) == First(Sign(u - v), Compare(x, y))
  {
    hide Compare, Digits;
    assert "" + x == x && "" + y == y;
    if u != 0 && v != 0 {
      PointCompare(u, v, x, y);
    } else if u != 0 {
      SignBeforePoint(u, x, y);
    } else if v != 0 {
      SignBeforePoint(v, y, x);
    }
  }

  /** The order of the fields, most significant first. */
  function DateOrder(a: Moment, b: Moment): int
  {
    First(Sign(a.year - b.year), First(Sign(a.month - b.month), Sign(a.day - b.day)))
  }

  function ClockOrder(a: Moment, b: Moment): int
  {
    First(Sign(a.hour - b.hour), First(Sign(a.minute - b.minute),
    First(Sign(a.second - b.second), Sign(a.micro - b.micro))))
  }

  lemma TimeTextCompare(a: Moment, b: Moment, x: string, y: string)
    requires Valid(a) && Valid(b) && x != "" && y != "" && x[0] in {'+', '-'} && y[0] in {'+', '-'}
    ensures Compare(TimeText(a.hour, a.minute, a.second, a.micro, x),
                    TimeText(b.hour, b.minute, b.second, b.micro, y)) ==
            First(ClockOrder(a, b), Compare(x, y))
  {
    Powers();
    hide Compare, Digits, Fraction, Power;
    FractionCompare(a.micro, b.micro, x, y);
    var s, t := Fraction(a.micro) + x, Fraction(b.micro) + y;
    FieldCompare(a.second, b.second, 2, s, t);
    s, t := Digits(a.second, 2) + s, Digits(b.second, 2) + t;
    SeparatorCompare(':', s, t);
    FieldCompare(a.minute, b.minute, 2, [':'] + s, [':'] + t);
    s, t := Digits(a.minute, 2) + ([':'] + s), Digits(b.minute, 2) + ([':'] + t);
    SeparatorCompare(':', s, t);
    FieldCompare(a.hour, b.hour, 2, [':'] + s, [':'] + t);
  }

  /** Text sorts by the fields, and only then by the offset. */
  lemma TextCompare(a: Moment, p: int, b: Moment, q: int)
    requires Valid(a) && Valid(b) && -1440 < p < 1440 && -1440 < q < 1440
    ensures Compare(Text(a, p), Text(b, q)) ==
            First(DateOrder(a, b), First(ClockOrder(a, b), Compare(Zone(p), Zone(q))))
  {
    Powers();
    assert Zone(p)[0] in {'+', '-'} && Zone(q)[0] in {'+', '-'};
    hide Compare, Digits, TimeText, ClockOrder, Zone, Power;
    TimeTextCompare(a, b, Zone(p), Zone(q));
    var s := TimeText(a.hour, a.minute, a.second, a.micro, Zone(p));
    var t := TimeText(b.hour, b.minute, b.second, b.micro, Zone(q));
    SeparatorCompare('T', s, t);
    FieldCompare(a.day, b.day, 2, ['T'] + s, ['T'] + t);
    s, t := Digits(a.day, 2) + (['T'] + s), Digits(b.day, 2) + (['T'] + t);
    SeparatorCompare('-', s, t);
    FieldCompare(a.month, b.month, 2, ['-'] + s, ['-'] + t);
    s, t := Digits(a.month, 2) + (['-'] + s), Digits(b.month, 2) + (['-'] + t);
    SeparatorCompare('-', s, t);
    FieldCompare(a.year, b.year, 4, ['-'] + s, ['-'] + t);
  }

  // ---- Instants ----

  function DaysBeforeYear(year: int): int
  {
    365 * (year - 1) + (year - 1) / 4 - (year - 1) / 100 + (year - 1) / 400
  }

  function DaysBeforeMonth(year: int, month: int): int
    requires 1 <= month <= 13
  {
    if month == 1 then 0 else DaysBeforeMonth(year, month - 1) + DaysInMonth(year, month - 1)
  }

  function DayNumber(m: Moment): int
    requires 1 <= m.month <= 12
  {
    DaysBeforeYear(m.year) + DaysBeforeMonth(m.year, m.month) + m.day
  }

  function Clock(m: Moment): int
  {
    ((m.hour * 60 + m.minute) * 60 + m.second) * 1_000_000 + m.micro
  }

  const DAY := 86_400_000_000

  /** Microseconds of a UTC moment. */
  function Instant(m: Moment): int
    requires Valid(m)
  {
    DayNumber(m) * DAY + Clock(m)
  }

  lemma Fourth(n: int)
    ensures n / 4 - (n - 1) / 4 == if n % 4 == 0 then 1 else 0
  {
  }

  lemma Hundredth(n: int)
    ensures n / 100 - (n - 1) / 100 == if n % 100 == 0 then 1 else 0
  {
    var q, r := n / 100, n % 100;
    assert n == 100 * q + r;
    assert (n - 1) / 100 == if r == 0 then q - 1 else q;
  }

  lemma FourHundredth(n: int)
    ensures n / 400 - (n - 1) / 400 == if n % 400 == 0 then 1 else 0
  {
    var q, r := n / 400, n % 400;
    assert n == 400 * q + r;
    assert (n - 1) / 400 == if r == 0 then q - 1 else q;
  }

  lemma CenturiesAreFourths(n: int)
    ensures n % 100 == 0 ==> n % 4 == 0
  {
    if n % 100 == 0 {
      assert n == 4 * (25 * (n / 100));
    }
  }

  lemma FourthCenturies(n: int)
    ensures n % 400 == 0 ==> n % 100 == 0
  {
    if n % 400 == 0 {
      assert n == 100 * (4 * (n / 400));
    }
  }

  lemma YearLength(year: int)
    ensures DaysBeforeYear(year + 1) == DaysBeforeYear(year) + (if IsLeap(year) then 366 else 365)
  {
    Fourth(year);
    Hundredth(year);
    FourHundredth(year);
    CenturiesAreFourths(year);
    FourthCenturies(year);
  }

  lemma YearEnds(year: int)
    ensures DaysBeforeMonth(year, 13) == if IsLeap(year) then 366 else 365
  {
    var leap := if IsLeap(year) then 1 else 0;
    assert DaysBeforeMonth(year, 2) == 31;
    assert DaysBeforeMonth(year, 3) == 59 + leap;
    assert DaysBeforeMonth(year, 4) == 90 + leap;
    assert DaysBeforeMonth(year, 5) == 120 + leap;
    assert DaysBeforeMonth(year, 6) == 151 + leap;
    assert DaysBeforeMonth(year, 7) == 181 + leap;
    assert DaysBeforeMonth(year, 8) == 212 + leap;
    assert DaysBeforeMonth(year, 9) == 243 + leap;
    assert DaysBeforeMonth(year, 10) == 273 + leap;
    assert DaysBeforeMonth(year, 11) == 304 + leap;
    assert DaysBeforeMonth(year, 12) == 334 + leap;
  }

  /** The calendar: month lengths, leap years, and 146097 days in any 400 years. */
  lemma CalendarIs(year: int)
    ensures DaysInMonth(year, 1) == DaysInMonth(year, 3) == DaysInMonth(year, 5) == DaysInMonth(year, 7) == 31
    ensures DaysInMonth(year, 8) == DaysInMonth(year, 10) == DaysInMonth(year, 12) == 31
    ensures DaysInMonth(year, 4) == DaysInMonth(year, 6) == DaysInMonth(year, 9) == DaysInMonth(year, 11) == 30
    ensures DaysInMonth(1900, 2) == DaysInMonth(2023, 2) == 28 && DaysInMonth(2000, 2) == DaysInMonth(2024, 2) == 29
    ensures DaysInMonth(year + 400, 2) == DaysInMonth(year, 2)
    ensures DaysBeforeYear(year + 400) - DaysBeforeYear(year) == 146_097
  {
    var n := year - 1;
    assert (n + 400) / 4 == n / 4 + 100 && (n + 400) / 100 == n / 100 + 4 && (n + 400) / 400 == n / 400 + 1;
    assert (year + 400) % 4 == year % 4 && (year + 400) % 100 == year % 100 && (year + 400) % 400 == year % 400;
  }

  lemma {:induction false} YearsGrow(a: int, b: int)
    requires 1 <= a <= b
    ensures DaysBeforeYear(a) <= DaysBeforeYear(b)
    decreases b - a
  {
    if a < b {
      YearLength(b - 1);
      YearsGrow(a, b - 1);
    }
  }

  lemma {:induction false} MonthsGrow(year: int, a: int, b: int)
    requires 1 <= a <= b <= 13
    ensures DaysBeforeMonth(year, a) <= DaysBeforeMonth(year, b)
    decreases b - a
  {
    if a < b {
      MonthsGrow(year, a, b - 1);
    }
  }

  /** An earlier date has a smaller day number. */
  lemma EarlierDate(a: Moment, b: Moment)
    requires Valid(a) && Valid(b) && DateOrder(a, b) < 0
    ensures DayNumber(a) < DayNumber(b)
  {
    if a.year < b.year {
      hide DaysBeforeYear, DaysBeforeMonth, DaysInMonth;
      NextMonth(a);
      MonthsGrow(a.year, a.month + 1, 13);
      YearEnds(a.year);
      YearLength(a.year);
      YearsGrow(a.year + 1, b.year);
      MonthsGrow(b.year, 1, b.month);
      FirstMonth(b.year);
    } else if a.month < b.month {
      hide DaysBeforeYear, DaysBeforeMonth, DaysInMonth;
      NextMonth(a);
      MonthsGrow(a.year, a.month + 1, b.month);
    }
  }

  lemma FirstMonth(year: int)
    ensures DaysBeforeMonth(year, 1) == 0
  {
  }

  lemma NextMonth(m: Moment)
    requires Valid(m)
    ensures DaysBeforeMonth(m.year, m.month + 1) >= DaysBeforeMonth(m.year, m.month) + m.day
  {
  }

  lemma ClockIsBounded(m: Moment)
    requires Valid(m)
    ensures 0 <= Clock(m) < DAY
  {
  }

  lemma ClockOrders(a: Moment, b: Moment)
    requires Valid(a) && Valid(b)
    ensures Sign(Clock(a) - Clock(b)) == ClockOrder(a, b)
  {
  }

  lemma DateOrders(a: Moment, b: Moment)
    requires Valid(a) && Valid(b)
    ensures Sign(DayNumber(a) - DayNumber(b)) == DateOrder(a, b)
  {
    if DateOrder(a, b) < 0 {
      EarlierDate(a, b);
    } else if DateOrder(a, b) > 0 {
      EarlierDate(b, a);
    }
  }

  /** The order of the fields is the order of the instants. */
  lemma {:induction false} FieldsOrderInstants(a: Moment, b: Moment)
    requires Valid(a) && Valid(b)
    ensures Sign(Instant(a) - Instant(b)) == First(DateOrder(a, b), ClockOrder(a, b))
  {
    DateOrders(a, b);
    ClockOrders(a, b);
    ClockIsBounded(a);
    ClockIsBounded(b);
    hide DayNumber, Clock, DateOrder, ClockOrder;
  }

  /** Timestamp text with one offset, so in particular UTC text, sorts exactly as the instants do, with or
      without microseconds. */
  lemma {:induction false} TextSortsAsTime(a: Moment, b: Moment, offset: int)
    requires Valid(a) && Valid(b) && -1440 < offset < 1440
    ensures Compare(Text(a, offset), Text(b, offset)) == Sign(Instant(a) - Instant(b))
  {
    TextCompare(a, offset, b, offset);
    CompareIsEqual(Zone(offset), Zone(offset));
    FieldsOrderInstants(a, b);
    hide Compare, Text, Zone, Instant, DateOrder, ClockOrder;
  }
}
