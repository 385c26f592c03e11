/**
 UTC instants, the text form stored for them, and why comparing the texts byte by byte compares
 the instants although the fraction is left out when it is zero.
 */
module Timestamps {
  import opened Text

  datatype Instant = Instant(year: nat, month: nat, day: nat, hour: nat, minute: nat, second: nat, micro: nat)

  predicate LeapYear(y: int) {
    y % 4 == 0 && (y % 100 != 0 || y % 400 == 0)
  }

  function DaysIn(y: int, m: nat): nat
    requires 1 <= m <= 12
  {
    if m == 2 then (if LeapYear(y) then 29 else 28)
    else if m in {4, 6, 9, 11} then 30 else 31
  }

  predicate IsInstant(t: Instant) {
    && 1 <= t.year <= 9999 && 1 <= t.month <= 12 && 1 <= t.day <= DaysIn(t.year, t.month)
    && t.hour < 24 && t.minute < 60 && t.second < 60 && t.micro < 1000000
  }

  // ------------------------------------------------------------------------- the calendar

  function DaysBeforeYear(y: int): int {
    365 * (y - 1) + (y - 1) / 4 - (y - 1) / 100 + (y - 1) / 400
  }

  function DaysBeforeMonth(y: int, m: nat): nat
    requires 1 <= m <= 13
  {
    if m == 1 then 0 else DaysBeforeMonth(y, m - 1) + DaysIn(y, m - 1)
  }

  /** The day number in the Gregorian calendar. */
  function Ordinal(t: Instant): int
    requires IsInstant(t)
  {
    DaysBeforeYear(t.year) + DaysBeforeMonth(t.year, t.month) + t.day
  }

  function SecondOfDay(t: Instant): int {
    3600 * t.hour + 60 * t.minute + t.second
  }

  /** Microseconds on the time line. */
  function Moment(t: Instant): int
    requires IsInstant(t)
  {
    (86400 * Ordinal(t) + SecondOfDay(t)) * 1000000 + t.micro
  }

  lemma YearLength(y: int)
    ensures DaysBeforeYear(y + 1) == DaysBeforeYear(y) + (if LeapYear(y) then 366 else 365)
  {
    var z := y - 1;
    assert y / 4 == z / 4 + (if y % 4 == 0 then 1 else 0);
    assert y / 100 == z / 100 + (if y % 100 == 0 then 1 else 0);
    assert y / 400 == z / 400 + (if y % 400 == 0 then 1 else 0);
  }

  lemma {:induction false} YearsInOrder(a: int, b: int)
    requires 1 <= a < b
    ensures DaysBeforeYear(a) + (if LeapYear(a) then 366 else 365) <= DaysBeforeYear(b)
    decreases b - a
  {
    YearLength(a);
    if a + 1 < b { YearsInOrder(a + 1, b); }
  }

  lemma {:induction false} MonthsInOrder(y: int, a: nat, b: nat)
    requires 1 <= a < b <= 13
    ensures DaysBeforeMonth(y, a) + DaysIn(y, a) <= DaysBeforeMonth(y, b)
  {
    if a + 1 < b { MonthsInOrder(y, a, b - 1); }
  }

  lemma YearEnd(y: int)
    ensures DaysBeforeMonth(y, 13) == if LeapYear(y) then 366 else 365
  {
    assert DaysBeforeMonth(y, 2) == 31;
    assert DaysBeforeMonth(y, 3) == 31 + DaysIn(y, 2);
    assert DaysBeforeMonth(y, 5) == DaysBeforeMonth(y, 3) + 61;
    assert DaysBeforeMonth(y, 7) == DaysBeforeMonth(y, 5) + 61;
    assert DaysBeforeMonth(y, 9) == DaysBeforeMonth(y, 7) + 62;
    assert DaysBeforeMonth(y, 11) == DaysBeforeMonth(y, 9) + 61;
    assert DaysBeforeMonth(y, 13) == DaysBeforeMonth(y, 11) + 61;
  }

  /** Earlier in year, month, day, in that order of weight. */
  predicate DateBefore(a: Instant, b: Instant) {
    || a.year < b.year
    || (a.year == b.year && (a.month < b.month || (a.month == b.month && a.day < b.day)))
  }

  lemma DatesInOrder(a: Instant, b: Instant)
    requires IsInstant(a) && IsInstant(b) && DateBefore(a, b)
    ensures Ordinal(a) < Ordinal(b)
  {
    if a.year < b.year {
      YearsInOrder(a.year, b.year);
      YearEnd(a.year);
      MonthsInOrder(a.year, a.month, 13);
    } else if a.month < b.month {
      MonthsInOrder(a.year, a.month, b.month);
    }
  }

  predicate Before(a: Instant, b: Instant) {
    || DateBefore(a, b)
    || (a.year == b.year && a.month == b.month && a.day == b.day
        && (SecondOfDay(a) < SecondOfDay(b) || (SecondOfDay(a) == SecondOfDay(b) && a.micro < b.micro)))
  }

  lemma MomentsInOrder(a: Instant, b: Instant)
    requires IsInstant(a) && IsInstant(b)
    ensures Before(a, b) <==> Moment(a) < Moment(b)
  {
    if DateBefore(a, b) { DatesInOrder(a, b); }
    if DateBefore(b, a) { DatesInOrder(b, a); }
  }

  // ----------------------------------------------------------------------------- the text

  /** The last `width` decimal digits. */
  function Digits(n: nat, width: nat): (s: string)
    ensures |s| == width
  {
    if width == 0 then "" else Digits(n / 10, width - 1) + [Digit(n % 10)]
  }

  const ZONE: string := "+00:00"

  /** Microseconds are written only when there are any. */
  function Fraction(micro: nat): string {
    if micro == 0 then "" else "." + Digits(micro, 6)
  }

  /** A number of fixed width, a separator, and the rest. */
  function Field(n: nat, width: nat, c: char, rest: string): (s: string)
    ensures |s| == width + 1 + |rest|
  {
    Digits(n, width) + ([c] + rest)
  }

  function SecondText(t: Instant): string {
    Digits(t.second, 2) + (Fraction(t.micro) + ZONE)
  }

  function MinuteText(t: Instant): string {
    Field(t.minute, 2, ':', SecondText(t))
  }

  function Clock(t: Instant): string {
    Field(t.hour, 2, ':', MinuteText(t))
  }

  function DayText(t: Instant): string {
    Field(t.day, 2, 'T', Clock(t))
  }

  function MonthText(t: Instant): string {
    Field(t.month, 2, '-', DayText(t))
  }

  function Iso(t: Instant): string {
    Field(t.year, 4, '-', MonthText(t))
  }

  function Pow10(n: nat): nat {
    if n == 0 then 1 else 10 * Pow10(n - 1)
  }

  lemma FirstChar(c: char, d: char, x: string, y: string)
    ensures TextLt([c] + x, [d] + y) <==> c < d || (c == d && TextLt(x, y))
  {
    assert ([c] + x)[1..] == x && ([d] + y)[1..] == y;
    assert [c] + x == [d] + y <==> c == d && x == y;
  }

  /** Numbers of one width compare like their digits, then like what follows. */
  lemma {:induction false} DigitsInOrder(a: nat, b: nat, width: nat, x: string, y: string)
    requires a < Pow10(width) && b < Pow10(width)
    ensures TextLt(Digits(a, width) + x, Digits(b, width) + y) <==> a < b || (a == b && TextLt(x, y))
  {
    if width == 0 {
      assert Digits(a, 0) + x == x && Digits(b, 0) + y == y;
    } else {
      var c, d := [Digit(a % 10)] + x, [Digit(b % 10)] + y;
      assert Digits(a, width) + x == Digits(a / 10, width - 1) + c;
      assert Digits(b, width) + y == Digits(b / 10, width - 1) + d;
      DigitsInOrder(a / 10, b / 10, width - 1, c, d);
      FirstChar(Digit(a % 10), Digit(b % 10), x, y);
    }
  }

  lemma FractionsInOrder(a: nat, b: nat)
    requires a < 1000000 && b < 1000000
    ensures TextLt(Fraction(a) + ZONE, Fraction(b) + ZONE) <==> a < b
  {
    assert Pow10(6) == 1000000;
    var x, y := Digits(a, 6) + ZONE, Digits(b, 6) + ZONE;
    assert a != 0 ==> Fraction(a) + ZONE == ['.'] + x;
    assert b != 0 ==> Fraction(b) + ZONE == ['.'] + y;
    assert ZONE == ['+'] + "00:00" && Fraction(0) + ZONE == ZONE;
    DigitsInOrder(a, b, 6, ZONE, ZONE);
    FirstChar('.', '.', x, y);
    FirstChar('+', '.', "00:00", y);
    FirstChar('.', '+', x, "00:00");
  }

  lemma FieldsInOrder(a: nat, b: nat, width: nat, c: char, x: string, y: string)
    requires a < Pow10(width) && b < Pow10(width)
    ensures TextLt(Field(a, width, c, x), Field(b, width, c, y)) <==> a < b || (a == b && TextLt(x, y))
  {
    DigitsInOrder(a, b, width, [c] + x, [c] + y);
    FirstChar(c, c, x, y);
  }

  lemma ClocksInOrder(a: Instant, b: Instant)
    requires IsInstant(a) && IsInstant(b)
    ensures TextLt(Clock(a), Clock(b)) <==>
              SecondOfDay(a) < SecondOfDay(b) || (SecondOfDay(a) == SecondOfDay(b) && a.micro < b.micro)
  {
    assert Pow10(2) == 100;
    FractionsInOrder(a.micro, b.micro);
    DigitsInOrder(a.second, b.second, 2, Fraction(a.micro) + ZONE, Fraction(b.micro) + ZONE);
    FieldsInOrder(a.minute, b.minute, 2, ':', SecondText(a), SecondText(b));
    FieldsInOrder(a.hour, b.hour, 2, ':', MinuteText(a), MinuteText(b));
  }

  /** Byte order of the stored texts is time order. */
  lemma TextOrderIsTimeOrder(a: Instant, b: Instant)
    requires IsInstant(a) && IsInstant(b)
    ensures TextLt(Iso(a), Iso(b)) <==> Moment(a) < Moment(b)
    ensures TextLe(Iso(a), Iso(b)) <==> Moment(a) <= Moment(b)
  {
    DatesAndClocks(a, b);
    DatesAndClocks(b, a);
    MomentsInOrder(a, b);
    MomentsInOrder(b, a);
    TextOrder(Iso(a), Iso(b), Iso(a));
  }

  lemma DatesAndClocks(a: Instant, b: Instant)
    requires IsInstant(a) && IsInstant(b)
    ensures TextLt(Iso(a), Iso(b)) <==> Before(a, b)
  {
    assert Pow10(2) == 100 && Pow10(4) == 10000;
    ClocksInOrder(a, b);
    FieldsInOrder(a.day, b.day, 2, 'T', Clock(a), Clock(b));
    FieldsInOrder(a.month, b.month, 2, '-', DayText(a), DayText(b));
    FieldsInOrder(a.year, b.year, 4, '-', MonthText(a), MonthText(b));
  }

  // ------------------------------------------------------------------------ reading it back

  lemma {:induction false} DigitsHaveNumber(n: nat, width: nat)
    requires n < Pow10(width)
    ensures Number(Digits(n, width)) == n
  {
    if width > 0 {
      DigitsHaveNumber(n / 10, width - 1);
      assert Digits(n, width)[..width - 1] == Digits(n / 10, width - 1);
    }
  }

  /** Reads a stored text field by field; only texts of the stored form are read here. */
  function Parse(s: string): Instant
    requires |s| >= 25
  {
    var months := s[5..];
    var days := months[3..];
    ParseClock(days[3..], Number(s[..4]), Number(months[..2]), Number(days[..2]))
  }

  function ParseClock(s: string, year: nat, month: nat, day: nat): Instant
    requires |s| >= 14
  {
    var minutes := s[3..];
    var seconds := minutes[3..];
    var rest := seconds[2..];
    Instant(year, month, day, Number(s[..2]), Number(minutes[..2]), Number(seconds[..2]),
            if rest[0] == '.' && |rest| >= 7 then Number(rest[1..7]) else 0)
  }

  lemma FieldReadsBack(n: nat, width: nat, c: char, rest: string)
    requires n < Pow10(width)
    ensures Number(Field(n, width, c, rest)[..width]) == n && Field(n, width, c, rest)[width + 1..] == rest
  {
    DigitsHaveNumber(n, width);
    assert Field(n, width, c, rest)[..width] == Digits(n, width);
  }

  lemma FractionReadsBack(micro: nat)
    requires micro < 1000000
    ensures var rest := Fraction(micro) + ZONE;
            |rest| >= 6 && (if rest[0] == '.' && |rest| >= 7 then Number(rest[1..7]) else 0) == micro
  {
    if micro != 0 {
      assert Pow10(6) == 1000000;
      DigitsHaveNumber(micro, 6);
      assert (Fraction(micro) + ZONE)[1..7] == Digits(micro, 6);
    }
  }

  lemma ClockReadsBack(t: Instant)
    requires IsInstant(t)
    ensures |Clock(t)| >= 14 && ParseClock(Clock(t), t.year, t.month, t.day) == t
  {
    assert Pow10(2) == 100;
    FieldReadsBack(t.hour, 2, ':', MinuteText(t));
    FieldReadsBack(t.minute, 2, ':', SecondText(t));
    DigitsHaveNumber(t.second, 2);
    assert SecondText(t)[..2] == Digits(t.second, 2) && SecondText(t)[2..] == Fraction(t.micro) + ZONE;
    FractionReadsBack(t.micro);
  }

  /** Reading a stored text gives the instant back, whether or not it has a fraction. */
  lemma ReadsBack(t: Instant)
    requires IsInstant(t)
    ensures |Iso(t)| >= 25 && Parse(Iso(t)) == t
  {
    assert Pow10(2) == 100 && Pow10(4) == 10000;
    ClockReadsBack(t);
    FieldReadsBack(t.year, 4, '-', MonthText(t));
    FieldReadsBack(t.month, 2, '-', DayText(t));
    FieldReadsBack(t.day, 2, 'T', Clock(t));
    ParsedParts(Iso(t), MonthText(t), DayText(t), Clock(t));
  }

  lemma ParsedParts(s: string, months: string, days: string, clock: string)
    requires |clock| >= 14 && |days| == |clock| + 3 && |months| == |days| + 3 && |s| == |months| + 5
    requires s[5..] == months && months[3..] == days && days[3..] == clock
    ensures Parse(s) == ParseClock(clock, Number(s[..4]), Number(months[..2]), Number(days[..2]))
  {
  }

  /** The database's text guards and the service's instant guards decide alike. */
  lemma GuardsAgree(now: Instant, limit: Instant)
    requires IsInstant(now) && IsInstant(limit)
    ensures |Iso(limit)| >= 25 && IsInstant(Parse(Iso(limit)))
    ensures TextLt(Iso(now), Iso(limit)) <==> Moment(now) < Moment(Parse(Iso(limit)))
    ensures TextLe(Iso(limit), Iso(now)) <==> Moment(Parse(Iso(limit))) <= Moment(now)
    ensures Iso(now) == Iso(limit) <==> now == limit
  {
    ReadsBack(now);
    ReadsBack(limit);
    TextOrderIsTimeOrder(now, limit);
    TextOrderIsTimeOrder(limit, now);
  }
}
