/** Every instant in the database is text, the `isoformat()` of a UTC datetime, and
    the queries for due rows, recent deliveries and the next page compare that text.
    The text drops the fraction when it is zero, so lengths differ. This module
    proves that the comparison is chronological all the same. */
module Timestamps {

  /** The fields of an aware UTC datetime. */
  datatype DateTime = DateTime(year: int, month: int, day: int, hour: int, minute: int, second: int, micro: int)

  // ---------------------------------------------------------------------------
  // When it is
  // ---------------------------------------------------------------------------

  predicate IsLeap(year: int) {
    year % 4 == 0 && (year % 100 != 0 || year % 400 == 0)
  }

  function DaysInMonth(year: int, month: int): int {
    if month == 2 then (if IsLeap(year) then 29 else 28)
    else if month in {4, 6, 9, 11} then 30
    else 31
  }

  predicate Valid(t: DateTime) {
    && 1 <= t.year <= 9999 && 1 <= t.month <= 12 && 1 <= t.day <= DaysInMonth(t.year, t.month)
    && 0 <= t.hour < 24 && 0 <= t.minute < 60 && 0 <= t.second < 60 && 0 <= t.micro < 1_000_000
  }

  /** Days of the proleptic Gregorian calendar before January 1 of `year`. */
  function DaysBeforeYear(year: int): int
    requires year >= 1
  {
    if year == 1 then 0 else DaysBeforeYear(year - 1) + (if IsLeap(year - 1) then 366 else 365)
  }

  /** Days of `year` before the first of `month`. */
  function DaysBeforeMonth(year: int, month: int): int
    requires 1 <= month <= 13
  {
    if month == 1 then 0 else DaysBeforeMonth(year, month - 1) + DaysInMonth(year, month - 1)
  }

  function DayNumber(t: DateTime): int
    requires Valid(t)
  {
    DaysBeforeYear(t.year) + DaysBeforeMonth(t.year, t.month) + t.day - 1
  }

  /** Microseconds since the beginning of year 1. */
  function Instant(t: DateTime): int
    requires Valid(t)
  {
    (((DayNumber(t) * 24 + t.hour) * 60 + t.minute) * 60 + t.second) * 1_000_000 + t.micro
  }

  // ---------------------------------------------------------------------------
  // How it is written
  // ---------------------------------------------------------------------------

  function Digit(n: int): char
    requires 0 <= n < 10
  {
    '0' + n as char
  }

  function Digits(n: int, width: nat): (text: string)
    requires n >= 0
    ensures |text| == width
  {
    if width == 0 then "" else Digits(n / 10, width - 1) + [Digit(n % 10)]
  }

  function Date(t: DateTime): string
    requires Valid(t)
  {
    Digits(t.year, 4) + ("-" + (Digits(t.month, 2) + ("-" + Digits(t.day, 2))))
  }

  function Time(t: DateTime): string
    requires Valid(t)
  {
    Digits(t.hour, 2) + (":" + (Digits(t.minute, 2) + (":" + Digits(t.second, 2))))
  }

  function Fraction(t: DateTime): string
    requires Valid(t)
  {
    if t.micro == 0 then "" else "." + Digits(t.micro, 6)
  }

  /** The text of `t` with `zone` for its offset. */
  function RenderIn(t: DateTime, zone: string): string
    requires Valid(t)
  {
    Date(t) + "T" + Time(t) + (Fraction(t) + zone)
  }

  /** `isoformat()`. */
  function Render(t: DateTime): string
    requires Valid(t)
  {
    RenderIn(t, "+00:00")
  }

  // ---------------------------------------------------------------------------
  // Text comparison
  // ---------------------------------------------------------------------------

  /** SQLite's comparison of text, character by character. */
  predicate Before(x: string, y: string) {
    if y == "" then false
    else if x == "" then true
    else if x[0] != y[0] then x[0] < y[0]
    else Before(x[1..], y[1..])
  }

  lemma {:induction false} BeforeOfConcat(x1: string, x2: string, y1: string, y2: string)
    requires |x1| == |y1|
    ensures Before(x1 + x2, y1 + y2) <==> Before(x1, y1) || (x1 == y1 && Before(x2, y2))
  {
    if x1 == "" {
      assert x1 + x2 == x2 && y1 + y2 == y2;
    } else {
      assert (x1 + x2)[1..] == x1[1..] + x2 && (y1 + y2)[1..] == y1[1..] + y2;
      BeforeOfConcat(x1[1..], x2, y1[1..], y2);
      assert x1 == [x1[0]] + x1[1..] && y1 == [y1[0]] + y1[1..];
    }
  }

  function PowerOfTen(width: nat): int {
    if width == 0 then 1 else 10 * PowerOfTen(width - 1)
  }

  lemma {:induction false} DigitsKeepOrder(m: int, n: int, width: nat)
    requires 0 <= m < PowerOfTen(width) && 0 <= n < PowerOfTen(width)
    ensures Before(Digits(m, width), Digits(n, width)) <==> m < n
    ensures Digits(m, width) == Digits(n, width) <==> m == n
  {
    if width > 0 {
      DigitsKeepOrder(m / 10, n / 10, width - 1);
      var mm, nn := Digits(m / 10, width - 1), Digits(n / 10, width - 1);
      BeforeOfConcat(mm, [Digit(m % 10)], nn, [Digit(n % 10)]);
      assert Digits(m, width)[..width - 1] == mm && Digits(n, width)[..width - 1] == nn;
      assert Digits(m, width)[width - 1] == Digit(m % 10) && Digits(n, width)[width - 1] == Digit(n % 10);
    }
  }

  lemma FieldsKeepOrder(m: int, n: int, width: nat)
    requires width in {2, 4, 6}
    requires 0 <= m < (if width == 2 then 100 else if width == 4 then 10_000 else 1_000_000)
    requires 0 <= n < (if width == 2 then 100 else if width == 4 then 10_000 else 1_000_000)
    ensures Before(Digits(m, width), Digits(n, width)) <==> m < n
    ensures Digits(m, width) == Digits(n, width) <==> m == n
  {
    assert PowerOfTen(2) == 100;
    assert PowerOfTen(4) == 100 * PowerOfTen(2);
    assert PowerOfTen(6) == 100 * PowerOfTen(4);
    DigitsKeepOrder(m, n, width);
  }

  lemma {:induction false} NotBeforeItself(x: string)
    ensures !Before(x, x)
  {
    if x != "" {
      NotBeforeItself(x[1..]);
    }
  }

  lemma SplitEqual(x1: string, x2: string, y1: string, y2: string)
    requires |x1| == |y1|
    ensures x1 + x2 == y1 + y2 <==> x1 == y1 && x2 == y2
  {
    assert (x1 + x2)[..|x1|] == x1 && (y1 + y2)[..|y1|] == y1;
    assert (x1 + x2)[|x1|..] == x2 && (y1 + y2)[|y1|..] == y2;
  }

  /** A fixed-width field, a separator, and what follows. */
  lemma {:induction false} FieldThenRest(x: string, xs: string, y: string, ys: string, sep: string)
    requires |x| == |y|
    ensures Before(x + (sep + xs), y + (sep + ys)) <==> Before(x, y) || (x == y && Before(xs, ys))
    ensures x + (sep + xs) == y + (sep + ys) <==> x == y && xs == ys
  {
    BeforeOfConcat(x, sep + xs, y, sep + ys);
    BeforeOfConcat(sep, xs, sep, ys);
    NotBeforeItself(sep);
    SplitEqual(x, sep + xs, y, sep + ys);
    SplitEqual(sep, xs, sep, ys);
  }

  // ---------------------------------------------------------------------------
  // Field order
  // ---------------------------------------------------------------------------

  predicate DateBefore(a: DateTime, b: DateTime) {
    a.year < b.year || (a.year == b.year && (a.month < b.month || (a.month == b.month && a.day < b.day)))
  }

  predicate SameDate(a: DateTime, b: DateTime) {
    a.year == b.year && a.month == b.month && a.day == b.day
  }

  predicate TimeBefore(a: DateTime, b: DateTime) {
    a.hour < b.hour || (a.hour == b.hour && (a.minute < b.minute || (a.minute == b.minute && a.second < b.second)))
  }

  predicate SameTime(a: DateTime, b: DateTime) {
    a.hour == b.hour && a.minute == b.minute && a.second == b.second
  }

  predicate FieldsBefore(a: DateTime, b: DateTime) {
    DateBefore(a, b) || (SameDate(a, b) && (TimeBefore(a, b) || (SameTime(a, b) && a.micro < b.micro)))
  }

  lemma DateKeepsOrder(a: DateTime, b: DateTime)
    requires Valid(a) && Valid(b)
    ensures Before(Date(a), Date(b)) <==> DateBefore(a, b)
    ensures Date(a) == Date(b) <==> SameDate(a, b)
  {
    FieldsKeepOrder(a.year, b.year, 4);
    FieldsKeepOrder(a.month, b.month, 2);
    FieldsKeepOrder(a.day, b.day, 2);
    FieldThenRest(Digits(a.year, 4), Digits(a.month, 2) + ("-" + Digits(a.day, 2)),
                  Digits(b.year, 4), Digits(b.month, 2) + ("-" + Digits(b.day, 2)), "-");
    FieldThenRest(Digits(a.month, 2), Digits(a.day, 2), Digits(b.month, 2), Digits(b.day, 2), "-");
  }

  lemma TimeKeepsOrder(a: DateTime, b: DateTime)
    requires Valid(a) && Valid(b)
    ensures Before(Time(a), Time(b)) <==> TimeBefore(a, b)
    ensures Time(a) == Time(b) <==> SameTime(a, b)
  {
    FieldsKeepOrder(a.hour, b.hour, 2);
    FieldsKeepOrder(a.minute, b.minute, 2);
    FieldsKeepOrder(a.second, b.second, 2);
    FieldThenRest(Digits(a.hour, 2), Digits(a.minute, 2) + (":" + Digits(a.second, 2)),
                  Digits(b.hour, 2), Digits(b.minute, 2) + (":" + Digits(b.second, 2)), ":");
    FieldThenRest(Digits(a.minute, 2), Digits(a.second, 2), Digits(b.minute, 2), Digits(b.second, 2), ":");
  }

  /** A missing fraction sorts as zero because `zone` sorts before the point. */
  lemma {:induction false} TailKeepsOrder(a: DateTime, b: DateTime, zone: string)
    requires Valid(a) && Valid(b) && zone != "" && zone[0] < '.'
    ensures Before(Fraction(a) + zone, Fraction(b) + zone) <==> a.micro < b.micro
  {
    NotBeforeItself(zone);
    if a.micro == 0 {
      assert Fraction(a) + zone == zone;
      if b.micro != 0 { assert (Fraction(b) + zone)[0] == '.'; }
      else { assert Fraction(b) + zone == zone; }
    } else if b.micro == 0 {
      assert Fraction(b) + zone == zone && (Fraction(a) + zone)[0] == '.';
    } else {
      FieldsKeepOrder(a.micro, b.micro, 6);
      BeforeOfConcat(Fraction(a), zone, Fraction(b), zone);
      BeforeOfConcat(".", Digits(a.micro, 6), ".", Digits(b.micro, 6));
      NotBeforeItself(".");
      SplitEqual(".", Digits(a.micro, 6), ".", Digits(b.micro, 6));
    }
  }

  lemma TextInParts(t: DateTime, zone: string)
    requires Valid(t)
    ensures RenderIn(t, zone) == Date(t) + ("T" + (Time(t) + (Fraction(t) + zone)))
    ensures |Date(t)| == 10 && |Time(t)| == 8
  {
  }

  /** The same with the parts given: date, a T, time, tail. */
  lemma {:induction false} PartsKeepOrder(d: string, u: string, x: string, d': string, u': string, x': string)
    requires |d| == |d'| && |u| == |u'|
    ensures Before(d + ("T" + (u + x)), d' + ("T" + (u' + x')))
      <==> Before(d, d') || (d == d' && (Before(u, u') || (u == u' && Before(x, x'))))
  {
    FieldThenRest(d, u + x, d', u' + x', "T");
    BeforeOfConcat(u, x, u', x');
  }

  lemma {:induction false} TextKeepsFieldOrder(a: DateTime, b: DateTime, zone: string)
    requires Valid(a) && Valid(b)
    ensures Before(RenderIn(a, zone), RenderIn(b, zone))
      <==> DateBefore(a, b)
           || (SameDate(a, b) && (TimeBefore(a, b) || (SameTime(a, b) && Before(Fraction(a) + zone, Fraction(b) + zone))))
  {
    DateKeepsOrder(a, b);
    TimeKeepsOrder(a, b);
    TextInParts(a, zone);
    TextInParts(b, zone);
    PartsKeepOrder(Date(a), Time(a), Fraction(a) + zone, Date(b), Time(b), Fraction(b) + zone);
  }

  // ---------------------------------------------------------------------------
  // Calendar order
  // ---------------------------------------------------------------------------

  lemma {:induction false} YearsGoUp(y: int, z: int)
    requires 1 <= y < z
    ensures DaysBeforeYear(y) + (if IsLeap(y) then 366 else 365) <= DaysBeforeYear(z)
    decreases z
  {
    if y < z - 1 {
      YearsGoUp(y, z - 1);
    }
  }

  lemma {:induction false} MonthsGoUp(year: int, m: int, n: int)
    requires 1 <= m < n <= 13
    ensures DaysBeforeMonth(year, m) + DaysInMonth(year, m) <= DaysBeforeMonth(year, n)
    decreases n
  {
    if m < n - 1 {
      MonthsGoUp(year, m, n - 1);
    }
  }

  lemma YearIsFull(year: int)
    ensures DaysBeforeMonth(year, 13) == if IsLeap(year) then 366 else 365
  {
    assert DaysBeforeMonth(year, 2) == 31;
    assert DaysBeforeMonth(year, 3) == 31 + DaysInMonth(year, 2);
    assert DaysBeforeMonth(year, 5) == DaysBeforeMonth(year, 3) + 61;
    assert DaysBeforeMonth(year, 7) == DaysBeforeMonth(year, 5) + 61;
    assert DaysBeforeMonth(year, 9) == DaysBeforeMonth(year, 7) + 62;
    assert DaysBeforeMonth(year, 11) == DaysBeforeMonth(year, 9) + 61;
    assert DaysBeforeMonth(year, 13) == DaysBeforeMonth(year, 11) + 61;
  }

  lemma DatesGoUp(a: DateTime, b: DateTime)
    requires Valid(a) && Valid(b) && DateBefore(a, b)
    ensures DayNumber(a) < DayNumber(b)
  {
    if a.year < b.year {
      YearsGoUp(a.year, b.year);
      MonthsGoUp(a.year, a.month, 13);
      YearIsFull(a.year);
      if b.month > 1 { MonthsGoUp(b.year, 1, b.month); }
    } else if a.month < b.month {
      MonthsGoUp(a.year, a.month, b.month);
    }
  }

  lemma FieldsGoUp(a: DateTime, b: DateTime)
    requires Valid(a) && Valid(b) && FieldsBefore(a, b)
    ensures Instant(a) < Instant(b)
  {
    if DateBefore(a, b) {
      DatesGoUp(a, b);
    }
  }

  lemma QuotientsGoUp(y: int)
    requires y >= 1
    ensures y / 4 == (y - 1) / 4 + (if y % 4 == 0 then 1 else 0)
    ensures y / 100 == (y - 1) / 100 + (if y % 100 == 0 then 1 else 0)
    ensures y / 400 == (y - 1) / 400 + (if y % 400 == 0 then 1 else 0)
  {
  }

  lemma HundredsAreFourths(y: int)
    ensures y % 100 == 0 ==> y % 4 == 0
    ensures y % 400 == 0 ==> y % 100 == 0
  {
  }

  /** The years are those of the Gregorian calendar: a leap day every fourth year, but not
      in every hundredth, but in every four-hundredth. */
  lemma {:induction false} YearsInClosedForm(year: int)
    requires year >= 1
    ensures var y := year - 1; DaysBeforeYear(year) == 365 * y + y / 4 - y / 100 + y / 400
    decreases year
  {
    if year > 1 {
      YearsInClosedForm(year - 1);
      QuotientsGoUp(year - 1);
      HundredsAreFourths(year - 1);
    }
  }

  // ---------------------------------------------------------------------------
  // Reading the text back
  // ---------------------------------------------------------------------------

  /** The number that decimal digits write. */
  function Number(text: string): int {
    if text == "" then 0 else 10 * Number(text[..|text| - 1]) + (text[|text| - 1] as int - 48)
  }

  lemma {:induction false} NumberOfDigits(n: int, width: nat)
    requires 0 <= n < PowerOfTen(width)
    ensures Number(Digits(n, width)) == n
  {
    if width > 0 {
      NumberOfDigits(n / 10, width - 1);
      assert Digits(n, width)[..width - 1] == Digits(n / 10, width - 1);
    }
  }

  lemma NumberOfField(n: int, width: nat)
    requires width in {2, 4, 6} && 0 <= n < (if width == 2 then 100 else if width == 4 then 10_000 else 1_000_000)
    ensures Number(Digits(n, width)) == n
  {
    assert PowerOfTen(2) == 100;
    assert PowerOfTen(4) == 100 * PowerOfTen(2);
    assert PowerOfTen(6) == 100 * PowerOfTen(4);
    NumberOfDigits(n, width);
  }

  /** YYYY-MM-DD. */
  predicate ShowsDate(text: string, t: DateTime) {
    && |text| == 10 && text[4] == text[7] == '-'
    && Number(text[..4]) == t.year && Number(text[5..7]) == t.month && Number(text[8..]) == t.day
  }

  /** HH:MM:SS. */
  predicate ShowsTime(text: string, t: DateTime) {
    && |text| == 8 && text[2] == text[5] == ':'
    && Number(text[..2]) == t.hour && Number(text[3..5]) == t.minute && Number(text[6..]) == t.second
  }

  /** The offset, after a fraction of six digits unless that is zero. */
  predicate ShowsTail(text: string, t: DateTime) {
    if t.micro == 0 then text == "+00:00"
    else |text| == 13 && text[0] == '.' && Number(text[1..7]) == t.micro && text[7..] == "+00:00"
  }

  lemma DateReadsBack(t: DateTime)
    requires Valid(t)
    ensures ShowsDate(Date(t), t)
  {
    NumberOfField(t.year, 4);
    NumberOfField(t.month, 2);
    NumberOfField(t.day, 2);
    var text := Date(t);
    assert text[..4] == Digits(t.year, 4) && text[5..7] == Digits(t.month, 2) && text[8..] == Digits(t.day, 2);
  }

  lemma TimeReadsBack(t: DateTime)
    requires Valid(t)
    ensures ShowsTime(Time(t), t)
  {
    NumberOfField(t.hour, 2);
    NumberOfField(t.minute, 2);
    NumberOfField(t.second, 2);
    var text := Time(t);
    assert text[..2] == Digits(t.hour, 2) && text[3..5] == Digits(t.minute, 2) && text[6..] == Digits(t.second, 2);
  }

  lemma TailReadsBack(t: DateTime)
    requires Valid(t)
    ensures ShowsTail(Fraction(t) + "+00:00", t)
  {
    NumberOfField(t.micro, 6);
    if t.micro != 0 {
      var tail := Fraction(t) + "+00:00";
      assert tail[1..7] == Digits(t.micro, 6) && tail[7..] == "+00:00";
    }
  }

  lemma SlicesOfParts(d: string, u: string, x: string)
    requires |d| == 10 && |u| == 8
    ensures var text := d + ("T" + (u + x));
      |text| == 19 + |x| && text[..10] == d && text[10] == 'T' && text[11..19] == u && text[19..] == x
  {
  }

  /** The text is date, `T`, time, a fraction of six digits unless it is zero, and the
      offset; and all seven fields can be read back from it. */
  lemma TextReadsBack(t: DateTime)
    requires Valid(t)
    ensures var text := Render(t);
      && |text| >= 25 && text[10] == 'T'
      && ShowsDate(text[..10], t) && ShowsTime(text[11..19], t) && ShowsTail(text[19..], t)
  {
    DateReadsBack(t);
    TimeReadsBack(t);
    TailReadsBack(t);
    TextInParts(t, "+00:00");
    SlicesOfParts(Date(t), Time(t), Fraction(t) + "+00:00");
  }

  // ---------------------------------------------------------------------------
  // The theorem
  // ---------------------------------------------------------------------------

  /** String order is time order, in both directions and with or without fractions. */
  lemma TextOrderIsTimeOrder(a: DateTime, b: DateTime)
    requires Valid(a) && Valid(b)
    ensures Before(Render(a), Render(b)) <==> Instant(a) < Instant(b)
    ensures Render(a) == Render(b) <==> Instant(a) == Instant(b)
  {
    TextKeepsFieldOrder(a, b, "+00:00");
    TailKeepsOrder(a, b, "+00:00");
    TextKeepsFieldOrder(b, a, "+00:00");
    TailKeepsOrder(b, a, "+00:00");
    NotBeforeItself(Render(a));
    if FieldsBefore(a, b) {
      FieldsGoUp(a, b);
    } else if FieldsBefore(b, a) {
      FieldsGoUp(b, a);
    } else {
      assert a == b;
    }
  }

  /** The zone is what makes it work: among designators that do not themselves start
      with a point, the order is right for all instants exactly when the designator
      sorts before a point. `+00:00` does; `Z` does not. */
  lemma TextOrderNeedsAnEarlyZone(zone: string)
    requires zone != "" && zone[0] != '.'
    ensures (forall a, b :: Valid(a) && Valid(b) ==>
               (Before(RenderIn(a, zone), RenderIn(b, zone)) <==> Instant(a) < Instant(b)))
      <==> zone[0] < '.'
  {
    if zone[0] < '.' {
      forall a, b | Valid(a) && Valid(b)
        ensures Before(RenderIn(a, zone), RenderIn(b, zone)) <==> Instant(a) < Instant(b)
      {
        EarlyZoneKeepsOrder(a, b, zone);
      }
    } else {
      LateZoneBreaksOrder(DateTime(2026, 1, 1, 0, 0, 0, 0), DateTime(2026, 1, 1, 0, 0, 0, 1), zone);
    }
  }

  lemma EarlyZoneKeepsOrder(a: DateTime, b: DateTime, zone: string)
    requires Valid(a) && Valid(b) && zone != "" && zone[0] < '.'
    ensures Before(RenderIn(a, zone), RenderIn(b, zone)) <==> Instant(a) < Instant(b)
  {
    TextKeepsFieldOrder(a, b, zone);
    TailKeepsOrder(a, b, zone);
    if FieldsBefore(a, b) {
      FieldsGoUp(a, b);
    } else if FieldsBefore(b, a) {
      FieldsGoUp(b, a);
    } else {
      assert a == b;
    }
  }

  /** A whole second and an instant within it. */
  lemma LateZoneBreaksOrder(whole: DateTime, later: DateTime, zone: string)
    requires Valid(whole) && Valid(later) && zone != "" && zone[0] > '.'
    requires SameDate(whole, later) && SameTime(whole, later) && whole.micro == 0 < later.micro
    ensures Instant(whole) < Instant(later) && !Before(RenderIn(whole, zone), RenderIn(later, zone))
  {
    TextKeepsFieldOrder(whole, later, zone);
    assert Fraction(whole) + zone == zone && (Fraction(later) + zone)[0] == '.';
    FieldsGoUp(whole, later);
  }
}
