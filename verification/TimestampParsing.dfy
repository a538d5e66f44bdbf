/** Reading timestamp text back, and bounds that are not in UTC. */
module TimestampParsing {
  import opened Common
  import opened Timestamps

  function Number(s: string): Option<nat>
  {
    if s == "" then Some(0)
    else
      var c := s[|s| - 1];
      var rest :- Number(s[..|s| - 1]);
      if '0' <= c <= '9' then Some(rest * 10 + (c as int - '0' as int)) else None
  }

  /** The next `width` digits, and what is left. */
  function Field(s: string, width: nat): Option<(nat, string)>
  {
    if |s| < width then None
    else
      var n :- Number(s[..width]);
      Some((n, s[width..]))
  }

  function Expect(s: string, c: char): Option<string>
  {
    if s != "" && s[0] == c then Some(s[1..]) else None
  }

  function ParseZone(s: string): Option<int>
  {
    if s == "" || s[0] !in {'+', '-'} then None
    else
      var hours :- Field(s[1..], 2);
      var rest :- Expect(hours.1, ':');
      var minutes :- Field(rest, 2);
      if minutes.1 != "" then None
      else Some((hours.0 * 60 + minutes.0) * (if s[0] == '-' then -1 else 1))
  }

  function ParseFraction(s: string): Option<(nat, string)>
  {
    if s != "" && s[0] == '.' then Field(s[1..], 6) else Some((0, s))
  }

  function ParseClock(date: Moment, s: string): Option<(Moment, int)>
  {
    var hour :- Field(s, 2);
    var s :- Expect(hour.1, ':');
    var minute :- Field(s, 2);
    var s :- Expect(minute.1, ':');
    var second :- Field(s, 2);
    var micro :- ParseFraction(second.1);
    var offset :- ParseZone(micro.1);
    var m := date.(hour := hour.0, minute := minute.0, second := second.0, micro := micro.0);
    if Valid(m) then Some((m, offset)) else None
  }

  /** `fromisoformat` on the shapes that `isoformat` produces. */
  function Parse(s: string): Option<(Moment, int)>
  {
    var year :- Field(s, 4);
    var s :- Expect(year.1, '-');
    var month :- Field(s, 2);
    var s :- Expect(month.1, '-');
    var day :- Field(s, 2);
    var s :- Expect(day.1, 'T');
    ParseClock(Moment(year.0, month.0, day.0, 0, 0, 0, 0), s)
  }

  lemma {:induction false} NumberOfDigits(n: nat, width: nat)
    requires n < Power(width)
    ensures Number(Digits(n, width)) == Some(n)
  {
    if width > 0 {
      NumberOfDigits(n / 10, width - 1);
      assert Digits(n, width)[..width - 1] == Digits(n / 10, width - 1);
    }
  }

  lemma FieldOfDigits(n: nat, width: nat, x: string)
    requires n < Power(width)
    ensures Field(Digits(n, width) + x, width) == Some((n, x))
  {
    NumberOfDigits(n, width);
    assert (Digits(n, width) + x)[..width] == Digits(n, width);
    assert (Digits(n, width) + x)[width..] == x;
  }

  lemma ExpectChar(c: char, x: string)
    ensures Expect([c] + x, c) == Some(x)
  {
    assert ([c] + x)[1..] == x;
  }

  lemma ZoneParses(offset: int)
    requires -1440 < offset < 1440
    ensures ParseZone(Zone(offset)) == Some(offset)
  {
    var minutes := if offset < 0 then -offset else offset;
    Powers();
    hide Digits, Number, Power;
    var tail := Digits(minutes % 60, 2);
    FieldOfDigits(minutes % 60, 2, "");
    assert tail + "" == tail;
    ExpectChar(':', tail);
    FieldOfDigits(minutes / 60, 2, [':'] + tail);
    assert Zone(offset)[1..] == Digits(minutes / 60, 2) + ([':'] + tail);
  }

  lemma FractionParses(micro: nat, x: string)
    requires micro < 1_000_000 && x != "" && x[0] in {'+', '-'}
    ensures ParseFraction(Fraction(micro) + x) == Some((micro, x))
  {
    Powers();
    hide Digits, Number, Power;
    assert "" + x == x;
    if micro != 0 {
      PointFirst(micro, x);
      FieldOfDigits(micro, 6, x);
      assert (Fraction(micro) + x)[1..] == Digits(micro, 6) + x;
    }
  }

  lemma ClockParses(date: Moment, m: Moment, offset: int)
    requires Valid(m) && -1440 < offset < 1440
    requires date.year == m.year && date.month == m.month && date.day == m.day
    ensures ParseClock(date, TimeText(m.hour, m.minute, m.second, m.micro, Zone(offset))) == Some((m, offset))
  {
    Powers();
    assert Zone(offset)[0] in {'+', '-'};
    hide Digits, Number, Power, Field, Expect, ParseZone, ParseFraction, Fraction, Zone;
    ZoneParses(offset);
    FractionParses(m.micro, Zone(offset));
    var s := Fraction(m.micro) + Zone(offset);
    FieldOfDigits(m.second, 2, s);
    s := Digits(m.second, 2) + s;
    ExpectChar(':', s);
    FieldOfDigits(m.minute, 2, [':'] + s);
    s := Digits(m.minute, 2) + ([':'] + s);
    ExpectChar(':', s);
    FieldOfDigits(m.hour, 2, [':'] + s);
  }

  /** Reading the text of a moment gives the moment and its offset back. */
  lemma {:induction false} TextParses(m: Moment, offset: int)
    requires Valid(m) && -1440 < offset < 1440
    ensures Parse(Text(m, offset)) == Some((m, offset))
  {
    Powers();
    hide Digits, Number, Power, Field, Expect, ParseClock, TimeText, Zone;
    ClockParses(Moment(m.year, m.month, m.day, 0, 0, 0, 0), m, offset);
    var s := TimeText(m.hour, m.minute, m.second, m.micro, Zone(offset));
    ExpectChar('T', s);
    FieldOfDigits(m.day, 2, ['T'] + s);
    s := Digits(m.day, 2) + (['T'] + s);
    ExpectChar('-', s);
    FieldOfDigits(m.month, 2, ['-'] + s);
    s := Digits(m.month, 2) + (['-'] + s);
    ExpectChar('-', s);
    FieldOfDigits(m.year, 4, ['-'] + s);
  }
}

module TimestampBounds {
  import opened Timestamps

  const LAST := Moment(9999, 12, 31, 23, 59, 59, 999_999)

  /** One microsecond later. */
  function Successor(m: Moment): Moment
  {
    if m.micro < 999_999 then m.(micro := m.micro + 1)
    else if m.second < 59 then m.(second := m.second + 1, micro := 0)
    else if m.minute < 59 then m.(minute := m.minute + 1, second := 0, micro := 0)
    else if m.hour < 23 then m.(hour := m.hour + 1, minute := 0, second := 0, micro := 0)
    else if m.day < DaysInMonth(m.year, m.month) then Moment(m.year, m.month, m.day + 1, 0, 0, 0, 0)
    else if m.month < 12 then Moment(m.year, m.month + 1, 1, 0, 0, 0, 0)
    else Moment(m.year + 1, 1, 1, 0, 0, 0, 0)
  }

  lemma DayAfter(m: Moment)
    requires Valid(m) && m != LAST && m.micro == 999_999 && m.second == 59 && m.minute == 59 && m.hour == 23
    ensures DayNumber(Successor(m)) == DayNumber(m) + 1
  {
    if m.day == DaysInMonth(m.year, m.month) && m.month == 12 {
      YearEnds(m.year);
      YearLength(m.year);
    }
  }

  lemma SuccessorIsLater(m: Moment)
    requires Valid(m) && m != LAST
    ensures Valid(Successor(m)) && Instant(Successor(m)) == Instant(m) + 1
  {
    if m.micro == 999_999 && m.second == 59 && m.minute == 59 && m.hour == 23 {
      DayAfter(m);
      hide DayNumber;
    } else {
      hide DaysBeforeYear, DaysBeforeMonth, DaysInMonth;
    }
  }

  lemma NothingAfterLast(m: Moment)
    requires Valid(m)
    ensures First(DateOrder(m, LAST), ClockOrder(m, LAST)) <= 0
    ensures First(DateOrder(m, LAST), ClockOrder(m, LAST)) == 0 <==> m == LAST
  {
  }

  /** The instant of a local time with an offset in minutes. */
  function AwareInstant(m: Moment, offset: int): int
    requires Valid(m)
  {
    Instant(m) - offset * 60_000_000
  }

  /** The text comparison of a stored UTC time with a bound says the same as the time comparison. */
  predicate ComparesAlike(t: Moment, m: Moment, offset: int)
    requires Valid(t) && Valid(m) && -1440 < offset < 1440
  {
    var text, time := Compare(Text(t, 0), Text(m, offset)), Instant(t) - AwareInstant(m, offset);
    (text >= 0 <==> time >= 0) && (text <= 0 <==> time <= 0)
  }

  /** An eastern offset sorts behind UTC, and so does a western one: its sign does. */
  lemma ZonesSort(offset: int)
    requires -1440 < offset < 1440
    ensures Compare(Zone(0), Zone(offset)) == if offset == 0 then 0 else -1
  {
    CompareIsEqual(Zone(0), Zone(0));
    if offset > 0 {
      Powers();
      hide Digits, Power;
      var hours, minutes := Digits(offset / 60, 2), Digits(offset % 60, 2);
      SeparatorCompare('+', Digits(0, 2) + ([':'] + Digits(0, 2)), hours + ([':'] + minutes));
      FieldCompare(0, offset / 60, 2, [':'] + Digits(0, 2), [':'] + minutes);
      SeparatorCompare(':', Digits(0, 2), minutes);
      DigitsCompare(0, offset % 60, 2);
    }
  }

  lemma ComparisonsOf(t: Moment, m: Moment, offset: int)
    requires Valid(t) && Valid(m) && -1440 < offset < 1440
    ensures Compare(Text(t, 0), Text(m, offset)) == First(Sign(Instant(t) - Instant(m)), if offset == 0 then 0 else -1)
  {
    TextCompare(t, 0, m, offset);
    ZonesSort(offset);
    FieldsOrderInstants(t, m);
    hide Compare, Text, Instant, DateOrder, ClockOrder, Zone;
  }

  ghost predicate AlwaysAlike(m: Moment, offset: int)
    requires Valid(m) && -1440 < offset < 1440
  {
    forall t :: Valid(t) ==> ComparesAlike(t, m, offset)
  }

  /** A bound is compared correctly with every stored time exactly when it is in UTC; the one exception is
      a western bound at the very last local time, which is beyond every stored one. */
  lemma {:induction false} BoundsCompareAlikeIff(m: Moment, offset: int)
    requires Valid(m) && -1440 < offset < 1440
    ensures AlwaysAlike(m, offset) <==> offset == 0 || (offset < 0 && m == LAST)
  {
    hide Valid, Instant, Text, Compare;
    if offset == 0 || (offset < 0 && m == LAST) {
      forall t | Valid(t) ensures ComparesAlike(t, m, offset) {
        ComparisonsOf(t, m, offset);
        LastInstant(t);
      }
    } else if offset > 0 {
      ComparisonsOf(m, m, offset);
      assert !ComparesAlike(m, m, offset);
    } else {
      SuccessorIsLater(m);
      var t := Successor(m);
      ComparisonsOf(t, m, offset);
      assert !ComparesAlike(t, m, offset);
    }
  }

  lemma LastInstant(t: Moment)
    requires Valid(t)
    ensures Valid(LAST) && Instant(t) <= Instant(LAST)
  {
    NothingAfterLast(t);
    FieldsOrderInstants(t, LAST);
  }
}
