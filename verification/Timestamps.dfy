/**
 * Stored timestamps are compared as text. Two layouts occur: the fixed-width one every row is written
 * with, and RFC 3339 with the trailing zeros of the fraction removed, which the retention cutoff uses.
 */
module Timestamps {
  import opened Prelude
  import opened TextOrder

  const SECOND := 1_000_000_000
  const DAY := 86_400 * SECOND

  // ----- the proleptic Gregorian calendar -----

  predicate LeapYear(y: int) {
    y % 4 == 0 && (y % 100 != 0 || y % 400 == 0)
  }

  function YearLength(y: int): int {
    if LeapYear(y) then 366 else 365
  }

  function MonthLength(y: int, m: int): int
    requires 1 <= m <= 12
  {
    if m == 2 then (if LeapYear(y) then 29 else 28) else if m == 4 || m == 6 || m == 9 || m == 11 then 30 else 31
  }

  /** Days from the first of January of year 0 to that of year `y`. */
  function YearStart(y: nat): int {
    if y == 0 then 0 else YearStart(y - 1) + YearLength(y - 1)
  }

  /** The number of days of the years 0 to 9999. */
  const DAYS := 3_652_425

  /** Days from the first of January to the first of month `m`; month 13 is the next January. */
  function MonthStart(y: int, m: int): int
    requires 1 <= m <= 13
    decreases m
  {
    if m == 1 then 0 else MonthStart(y, m - 1) + MonthLength(y, m - 1)
  }

  datatype Civil = Civil(year: nat, month: int, day: int, hour: int, minute: int, second: int, nano: int)

  predicate ValidCivil(c: Civil) {
    && c.year <= 9999 && 1 <= c.month <= 12 && 1 <= c.day <= MonthLength(c.year, c.month)
    && 0 <= c.hour < 24 && 0 <= c.minute < 60 && 0 <= c.second < 60 && 0 <= c.nano < SECOND
  }

  function DayNumber(c: Civil): int
    requires ValidCivil(c)
  {
    YearStart(c.year) + MonthStart(c.year, c.month) + c.day - 1
  }

  function SecondOfDay(c: Civil): int {
    (c.hour * 60 + c.minute) * 60 + c.second
  }

  /** Nanoseconds since year 0 began. */
  function Instant(c: Civil): Time
    requires ValidCivil(c)
  {
    DayNumber(c) * DAY + SecondOfDay(c) * SECOND + c.nano
  }

  /** A day more for each leap year: every fourth year, except centuries that 400 does not divide. */
  lemma {:induction false} YearStartClosed(y: nat)
    ensures YearStart(y) == 365 * y + (y + 3) / 4 - (y + 99) / 100 + (y + 399) / 400
  {
    if y > 0 {
      YearStartClosed(y - 1);
      OneMoreYear(y - 1);
    }
  }

  lemma OneMoreYear(y: nat)
    ensures (y + 4) / 4 - (y + 100) / 100 + (y + 400) / 400 == (y + 3) / 4 - (y + 99) / 100 + (y + 399) / 400 + YearLength(y) - 365
  {
    Fourths(y, y / 4, y % 4);
    Centuries(y, y / 100, y % 100);
    Divided(y, y / 400, y % 400);
  }

  /** Of two neighbours, the later one has one multiple more below it exactly when the earlier is a multiple. */
  lemma Fourths(y: nat, q: nat, r: nat)
    requires y == 4 * q + r && r < 4
    ensures (y + 4) / 4 == q + 1 && (y + 3) / 4 == (if r == 0 then q else q + 1) && y % 4 == r
  {
  }

  lemma Centuries(y: nat, q: nat, r: nat)
    requires y == 100 * q + r && r < 100
    ensures (y + 100) / 100 == q + 1 && (y + 99) / 100 == (if r == 0 then q else q + 1) && y % 100 == r
    ensures r == 0 ==> y % 4 == 0
  {
    if r == 0 { assert y == 4 * (25 * q); }
  }

  lemma Divided(y: nat, q: nat, r: nat)
    requires y == 400 * q + r && r < 400
    ensures (y + 400) / 400 == q + 1 && (y + 399) / 400 == (if r == 0 then q else q + 1) && y % 400 == r
    ensures r == 0 ==> y % 100 == 0
  {
    if r == 0 { assert y == 100 * (4 * q); }
  }

  /** The last year ends with the last day. */
  lemma YearsEnd(y: nat)
    requires y <= 9999
    ensures y >= 9999 ==> YearStart(y) + YearLength(y) == DAYS
  {
    YearStartClosed(y);
    hide YearStart;
  }

  lemma {:induction false} YearStartsGrow(a: nat, b: nat)
    requires a < b
    ensures YearStart(a) + YearLength(a) <= YearStart(b)
    decreases b
  {
    if a < b - 1 {
      YearStartsGrow(a, b - 1);
    }
  }

  lemma {:induction false} MonthStartsGrow(y: int, a: int, b: int)
    requires 1 <= a < b <= 13
    ensures MonthStart(y, a) + MonthLength(y, a) <= MonthStart(y, b)
    decreases b
  {
    if a < b - 1 {
      MonthStartsGrow(y, a, b - 1);
    }
  }

  lemma YearIsItsMonths(y: int)
    ensures MonthStart(y, 13) == YearLength(y)
  {
    assert MonthStart(y, 4) == MonthLength(y, 1) + MonthLength(y, 2) + MonthLength(y, 3);
    assert MonthStart(y, 7) == MonthStart(y, 4) + MonthLength(y, 4) + MonthLength(y, 5) + MonthLength(y, 6);
    assert MonthStart(y, 10) == MonthStart(y, 7) + MonthLength(y, 7) + MonthLength(y, 8) + MonthLength(y, 9);
  }

  lemma DayOfYear(c: Civil)
    requires ValidCivil(c)
    ensures 0 <= MonthStart(c.year, c.month) + c.day - 1 < YearLength(c.year)
  {
    MonthStartsGrow(c.year, c.month, 13);
    YearIsItsMonths(c.year);
    if c.month > 1 { MonthStartsGrow(c.year, 1, c.month); }
  }

  /** The dates of the Gregorian calendar: every fourth year is a leap year, except centuries that 400 does not divide. */
  lemma DatesAreGregorian(c: Civil)
    requires c.year <= 9999 && 1 <= c.month <= 12 && 0 <= c.hour < 24 && 0 <= c.minute < 60 && 0 <= c.second < 60 && 0 <= c.nano < 1_000_000_000
    ensures var leap := c.year % 400 == 0 || (c.year % 4 == 0 && c.year % 100 != 0);
      ValidCivil(c) <==>
        1 <= c.day <= (if c.month in {1, 3, 5, 7, 8, 10, 12} then 31 else if c.month in {4, 6, 9, 11} then 30 else if leap then 29 else 28)
  {
  }

  predicate LastDay(c: Civil)
    requires ValidCivil(c)
  {
    c.year == 9999 && c.month == 12 && c.day == 31
  }

  /** Midnight of the day after. */
  function DayAfter(c: Civil): Civil
    requires ValidCivil(c) && !LastDay(c)
  {
    if c.day < MonthLength(c.year, c.month) then Civil(c.year, c.month, c.day + 1, 0, 0, 0, 0)
    else if c.month < 12 then Civil(c.year, c.month + 1, 1, 0, 0, 0, 0)
    else Civil(c.year + 1, 1, 1, 0, 0, 0, 0)
  }

  /** Days are numbered without gap, from the first of January of year 0. */
  lemma DaysAreNumbered(c: Civil)
    requires ValidCivil(c)
    ensures c.year == 0 && c.month == 1 && c.day == 1 ==> DayNumber(c) == 0
    ensures !LastDay(c) ==> ValidCivil(DayAfter(c)) && DayNumber(DayAfter(c)) == DayNumber(c) + 1
  {
    if !LastDay(c) && c.month == 12 && c.day == 31 {
      YearIsItsMonths(c.year);
      assert MonthStart(c.year, 13) == MonthStart(c.year, 12) + 31;
    } else if !LastDay(c) && c.day == MonthLength(c.year, c.month) {
      assert MonthStart(c.year, c.month + 1) == MonthStart(c.year, c.month) + MonthLength(c.year, c.month);
    }
  }

  /** Earlier in the fields, most significant first. */
  predicate Earlier(a: Civil, b: Civil) {
    || a.year < b.year
    || (a.year == b.year && (a.month < b.month
    || (a.month == b.month && (a.day < b.day
    || (a.day == b.day && (a.hour < b.hour
    || (a.hour == b.hour && (a.minute < b.minute
    || (a.minute == b.minute && (a.second < b.second
    || (a.second == b.second && a.nano < b.nano)))))))))))
  }

  lemma EarlierDay(a: Civil, b: Civil)
    requires ValidCivil(a) && ValidCivil(b)
    requires a.year < b.year || (a.year == b.year && (a.month < b.month || (a.month == b.month && a.day < b.day)))
    ensures DayNumber(a) < DayNumber(b)
  {
    DayOfYear(a);
    DayOfYear(b);
    if a.year < b.year {
      YearStartsGrow(a.year, b.year);
    } else if a.month < b.month {
      MonthStartsGrow(a.year, a.month, b.month);
    }
  }

  lemma WithinDay(c: Civil)
    requires ValidCivil(c)
    ensures 0 <= SecondOfDay(c) < 86_400 && 0 <= Instant(c) - DayNumber(c) * DAY < DAY
  {
  }

  /** Whatever lies in a later day comes later. */
  lemma LaterDay(m: int, n: int, x: Time, y: Time)
    requires m < n && 0 <= x - m * DAY < DAY && 0 <= y - n * DAY < DAY
    ensures x < y
  {
  }

  lemma EarlierInstant(a: Civil, b: Civil)
    requires ValidCivil(a) && ValidCivil(b) && Earlier(a, b)
    ensures Instant(a) < Instant(b)
  {
    WithinDay(a);
    WithinDay(b);
    if a.year == b.year && a.month == b.month && a.day == b.day {
      SameDay(a, b);
      hide DayNumber, ValidCivil;
      assert SecondOfDay(a) <= SecondOfDay(b);
    } else {
      EarlierDay(a, b);
      hide DayNumber, ValidCivil, SecondOfDay, Instant;
      LaterDay(DayNumber(a), DayNumber(b), Instant(a), Instant(b));
    }
  }

  /** The field order is the order of the instants. */
  lemma EarlierIffBefore(a: Civil, b: Civil)
    requires ValidCivil(a) && ValidCivil(b)
    ensures Earlier(a, b) <==> Instant(a) < Instant(b)
    ensures a == b <==> Instant(a) == Instant(b)
  {
    hide ValidCivil, Instant;
    if Earlier(a, b) { EarlierInstant(a, b); }
    if Earlier(b, a) { EarlierInstant(b, a); }
  }

  // ----- the instant's fields -----

  function YearOf(day: int, y: nat): (r: nat)
    requires y <= 9999 && YearStart(y) <= day < DAYS
    ensures y <= r <= 9999 && YearStart(r) <= day < YearStart(r) + YearLength(r)
    decreases 10000 - y
  {
    if day < YearStart(y) + YearLength(y) then y
    else
      YearsEnd(y);
      assert YearStart(y + 1) == YearStart(y) + YearLength(y);
      YearOf(day, y + 1)
  }

  function MonthOf(y: int, day: int, m: int): (r: int)
    requires 1 <= m <= 12 && MonthStart(y, m) <= day < MonthStart(y, 13)
    ensures m <= r <= 12 && MonthStart(y, r) <= day < MonthStart(y, r) + MonthLength(y, r)
    decreases 13 - m
  {
    if day < MonthStart(y, m) + MonthLength(y, m) then m
    else
      assert MonthStart(y, m + 1) == MonthStart(y, m) + MonthLength(y, m);
      MonthOf(y, day, m + 1)
  }

  /** Instants of the years 0 to 9999. */
  predicate InRange(t: Time) {
    0 <= t < DAYS * DAY
  }

  predicate OnDay(c: Civil, day: int) {
    ValidCivil(c) && DayNumber(c) == day
  }

  /** Midnight of a day of the years 0 to 9999. */
  function Midnight(day: int): (c: Civil)
    requires 0 <= day < DAYS
    ensures OnDay(c, day) && SecondOfDay(c) == 0 && c.nano == 0
  {
    assert YearStart(0) == 0;
    var y := YearOf(day, 0);
    YearIsItsMonths(y);
    var m := MonthOf(y, day - YearStart(y), 1);
    Civil(y, m, day - YearStart(y) - MonthStart(y, m) + 1, 0, 0, 0, 0)
  }

  lemma ClockOf(second: int)
    requires 0 <= second < 86_400
    ensures 0 <= second / 3600 < 24 && second == (second / 3600 * 60 + second / 60 % 60) * 60 + second % 60
  {
  }

  lemma SplitDay(t: Time)
    requires InRange(t)
    ensures 0 <= t / DAY < DAYS && 0 <= t % DAY / SECOND < 86_400
    ensures t == t / DAY * DAY + t % DAY / SECOND * SECOND + t % DAY % SECOND
  {
    hide YearStart;
  }

  /** The fields of an instant, worked out from its day and its second of the day. */
  function Calendar(t: Time): (c: Civil)
    requires InRange(t)
    ensures ValidCivil(c) && Instant(c) == t
  {
    SplitDay(t);
    var second := t % DAY / SECOND;
    ClockOf(second);
    var midnight := Midnight(t / DAY);
    var c := midnight.(hour := second / 3600, minute := second / 60 % 60, second := second % 60, nano := t % DAY % SECOND);
    SameDay(midnight, c);
    c
  }

  /** The calendar fields whose instant this is; there are no others. */
  ghost function CivilOf(t: Time): (c: Civil)
    requires InRange(t)
    ensures ValidCivil(c) && Instant(c) == t
  {
    assert ValidCivil(Calendar(t)) && Instant(Calendar(t)) == t;
    var c :| ValidCivil(c) && Instant(c) == t;
    c
  }

  /** The time of day does not touch the day. */
  lemma SameDay(a: Civil, b: Civil)
    requires ValidCivil(a) && b.year == a.year && b.month == a.month && b.day == a.day
    requires 0 <= b.hour < 24 && 0 <= b.minute < 60 && 0 <= b.second < 60 && 0 <= b.nano < SECOND
    ensures ValidCivil(b) && DayNumber(b) == DayNumber(a)
  {
  }

  // ----- decimal fields -----

  function Pow10(w: nat): (r: nat)
    ensures r >= 1
  {
    if w == 0 then 1 else 10 * Pow10(w - 1)
  }

  function DigitChar(d: int): char
    requires 0 <= d < 10
  {
    '0' + d as char
  }

  function Digits(n: int, w: nat): (s: string)
    requires 0 <= n < Pow10(w)
    ensures |s| == w && forall i :: 0 <= i < w ==> '0' <= s[i] <= '9'
  {
    if w == 0 then "" else Digits(n / 10, w - 1) + [DigitChar(n % 10)]
  }

  lemma {:induction false} DigitsOrder(a: int, b: int, w: nat)
    requires 0 <= a < Pow10(w) && 0 <= b < Pow10(w)
    ensures Less(Digits(a, w), Digits(b, w)) <==> a < b
    ensures Digits(a, w) == Digits(b, w) <==> a == b
    decreases w
  {
    if w > 0 {
      DigitsOrder(a / 10, b / 10, w - 1);
      var p, q := Digits(a / 10, w - 1), Digits(b / 10, w - 1);
      if p != q {
        HeadsDecide(p, q, [DigitChar(a % 10)], [DigitChar(b % 10)]);
        assert Digits(a, w)[..w - 1] == p && Digits(b, w)[..w - 1] == q;
      } else {
        SharedPrefix(p, [DigitChar(a % 10)], [DigitChar(b % 10)]);
        assert Digits(a, w)[w - 1] == DigitChar(a % 10) && Digits(b, w)[w - 1] == DigitChar(b % 10);
      }
    }
  }

  /** A fixed-width field decides the comparison unless the fields are equal. */
  lemma FieldDecides(a: int, b: int, w: nat, x: string, y: string)
    requires 0 <= a < Pow10(w) && 0 <= b < Pow10(w)
    ensures Less(Digits(a, w) + x, Digits(b, w) + y) <==> a < b || (a == b && Less(x, y))
  {
    DigitsOrder(a, b, w);
    if a == b {
      SharedPrefix(Digits(a, w), x, y);
    } else {
      HeadsDecide(Digits(a, w), Digits(b, w), x, y);
    }
  }

  lemma Widths()
    ensures Pow10(2) == 100 && Pow10(4) == 10_000 && Pow10(9) == SECOND
  {
    assert Pow10(4) == 100 * Pow10(2) && Pow10(9) == 100_000 * Pow10(4);
  }

  // ----- layouts -----

  function Field(n: int, w: nat, rest: string): string
    requires 0 <= n < Pow10(w)
  {
    Digits(n, w) + rest
  }

  /** Date and time down to the second, then `tail`. */
  function TextOf(c: Civil, tail: string): string
    requires ValidCivil(c)
  {
    Widths();
    assert MonthLength(c.year, c.month) <= 31;
    Field(c.year, 4, "-" + Field(c.month, 2, "-" + Field(c.day, 2, "T" +
      Field(c.hour, 2, ":" + Field(c.minute, 2, ":" + Field(c.second, 2, tail))))))
  }

  function FullFraction(nano: int): string
    requires 0 <= nano < SECOND
  {
    Widths();
    "." + (Digits(nano, 9) + "Z")
  }

  function Trim(s: string): string {
    if s != [] && s[|s| - 1] == '0' then Trim(s[..|s| - 1]) else s
  }

  function TrimmedFraction(nano: int): string
    requires 0 <= nano < SECOND
  {
    Widths();
    if nano == 0 then "Z" else "." + (Trim(Digits(nano, 9)) + "Z")
  }

  /** 2006-01-02T15:04:05.000000000Z */
  ghost function Timestamp(t: Time): string
    requires InRange(t)
  {
    TextOf(CivilOf(t), FullFraction(CivilOf(t).nano))
  }

  /** 2006-01-02T15:04:05.999999999Z07:00, in UTC */
  ghost function Rfc3339Nano(t: Time): string
    requires InRange(t)
  {
    TextOf(CivilOf(t), TrimmedFraction(CivilOf(t).nano))
  }

  /** The number that decimal digits write. */
  function Number(s: string): int {
    if s == "" then 0 else 10 * Number(s[..|s| - 1]) + (s[|s| - 1] as int - '0' as int)
  }

  lemma {:induction false} DigitsRead(n: int, w: nat)
    requires 0 <= n < Pow10(w)
    ensures Number(Digits(n, w)) == n
    decreases w
  {
    if w > 0 {
      DigitsRead(n / 10, w - 1);
      assert Digits(n, w)[..w - 1] == Digits(n / 10, w - 1);
    }
  }

  /** The text is made of decimal fields of these widths and values, each followed by its mark. */
  predicate Reads(s: string, fields: seq<(int, int)>, marks: string)
    decreases |fields|
  {
    if fields == [] || marks == "" then s == "" && fields == [] && marks == ""
    else
      var (width, value) := fields[0];
      0 < width < |s| && Number(s[..width]) == value && s[width] == marks[0] && Reads(s[width + 1..], fields[1..], marks[1..])
  }

  lemma FieldReads(n: int, w: nat, rest: string, fields: seq<(int, int)>, marks: string, k: nat)
    requires 0 <= n < Pow10(w) && w > 0 && k < |fields| == |marks| && fields[k] == (w, n) && Reads(rest, fields[k + 1..], marks[k + 1..])
    ensures Reads(Field(n, w, [marks[k]] + rest), fields[k..], marks[k..])
  {
    DigitsRead(n, w);
    var s := Field(n, w, [marks[k]] + rest);
    assert s[..w] == Digits(n, w) && s[w..] == [marks[k]] + rest;
    assert s[w + 1..] == s[w..][1..] == rest;
    assert fields[k..][1..] == fields[k + 1..] && marks[k..][1..] == marks[k + 1..];
  }

  /** The layout: every field with its width, between its marks. */
  function FieldsOf(c: Civil): seq<(int, int)> {
    [(4, c.year), (2, c.month), (2, c.day), (2, c.hour), (2, c.minute), (2, c.second), (9, c.nano)]
  }

  lemma EndReads(fields: seq<(int, int)>, marks: string)
    requires |fields| == |marks|
    ensures Reads("", fields[|fields|..], marks[|marks|..])
  {
  }

  lemma ClockReads(c: Civil)
    requires ValidCivil(c)
    ensures Pow10(2) == 100 && Pow10(9) == SECOND
    ensures var s := Field(c.hour, 2, ":" + Field(c.minute, 2, ":" + Field(c.second, 2, FullFraction(c.nano)))); Reads(s, FieldsOf(c)[3..], "--T::.Z"[3..])
  {
    Widths();
    hide Digits, Pow10, Number, Reads;
    var s6 := Field(c.nano, 9, "Z");
    var s5 := Field(c.second, 2, "." + s6);
    var s4 := Field(c.minute, 2, ":" + s5);
    var fields, marks := FieldsOf(c), "--T::.Z";
    EndReads(fields, marks);
    assert FullFraction(c.nano) == "." + s6;
    hide Field, FullFraction, ValidCivil;
    FieldReads(c.nano, 9, "", fields, marks, 6);
    FieldReads(c.second, 2, s6, fields, marks, 5);
    FieldReads(c.minute, 2, s5, fields, marks, 4);
    FieldReads(c.hour, 2, s4, fields, marks, 3);
  }

  lemma TextReads(c: Civil)
    requires ValidCivil(c)
    ensures Reads(TextOf(c, FullFraction(c.nano)), FieldsOf(c), "--T::.Z")
  {
    Widths();
    assert MonthLength(c.year, c.month) <= 31;
    hide Digits, Pow10, Number, Reads, MonthLength;
    ClockReads(c);
    var s3 := Field(c.hour, 2, ":" + Field(c.minute, 2, ":" + Field(c.second, 2, FullFraction(c.nano))));
    var s2 := Field(c.day, 2, "T" + s3);
    var s1 := Field(c.month, 2, "-" + s2);
    assert TextOf(c, FullFraction(c.nano)) == Field(c.year, 4, "-" + s1);
    var fields, marks := FieldsOf(c), "--T::.Z";
    hide Field, TextOf, FullFraction, ValidCivil;
    assert fields[0..] == fields && marks[0..] == marks;
    FieldReads(c.day, 2, s3, fields, marks, 2);
    FieldReads(c.month, 2, s2, fields, marks, 1);
    FieldReads(c.year, 4, s1, fields, marks, 0);
  }

  /** A stored timestamp reads back as the fields of its instant, in the order and between the marks of the layout. */
  lemma TimestampReads(t: Time)
    requires InRange(t)
    ensures var c := CivilOf(t);
      Reads(Timestamp(t), [(4, c.year), (2, c.month), (2, c.day), (2, c.hour), (2, c.minute), (2, c.second), (9, c.nano)], "--T::.Z")
  {
    hide TextOf, FullFraction, CivilOf, Reads, Instant, ValidCivil;
    TextReads(CivilOf(t));
  }

  function WholeSeconds(c: Civil): Civil {
    c.(nano := 0)
  }

  lemma TextDecides(a: Civil, b: Civil, x: string, y: string)
    requires ValidCivil(a) && ValidCivil(b)
    ensures Less(TextOf(a, x), TextOf(b, y)) <==> Earlier(WholeSeconds(a), WholeSeconds(b)) || (WholeSeconds(a) == WholeSeconds(b) && Less(x, y))
  {
    Widths();
    hide Less, Digits, Pow10;
    assert MonthLength(a.year, a.month) <= 31 && MonthLength(b.year, b.month) <= 31;
    var a5, b5 := Field(a.second, 2, x), Field(b.second, 2, y);
    var a4, b4 := Field(a.minute, 2, ":" + a5), Field(b.minute, 2, ":" + b5);
    var a3, b3 := Field(a.hour, 2, ":" + a4), Field(b.hour, 2, ":" + b4);
    var a2, b2 := Field(a.day, 2, "T" + a3), Field(b.day, 2, "T" + b3);
    var a1, b1 := Field(a.month, 2, "-" + a2), Field(b.month, 2, "-" + b2);
    FieldDecides(a.second, b.second, 2, x, y);
    FieldDecides(a.minute, b.minute, 2, ":" + a5, ":" + b5);
    SharedPrefix(":", a5, b5);
    FieldDecides(a.hour, b.hour, 2, ":" + a4, ":" + b4);
    SharedPrefix(":", a4, b4);
    FieldDecides(a.day, b.day, 2, "T" + a3, "T" + b3);
    SharedPrefix("T", a3, b3);
    FieldDecides(a.month, b.month, 2, "-" + a2, "-" + b2);
    SharedPrefix("-", a2, b2);
    FieldDecides(a.year, b.year, 4, "-" + a1, "-" + b1);
    SharedPrefix("-", a1, b1);
  }

  lemma {:induction false} TextInjective(a: Civil, b: Civil)
    requires ValidCivil(a) && ValidCivil(b)
    requires TextOf(a, FullFraction(a.nano)) == TextOf(b, FullFraction(b.nano))
    ensures a == b
  {
    hide TextOf, FullFraction;
    Irreflexive(TextOf(a, FullFraction(a.nano)));
    FullTextOrder(a, b);
    FullTextOrder(b, a);
    EarlierIffBefore(a, b);
  }

  lemma FullTextOrder(a: Civil, b: Civil)
    requires ValidCivil(a) && ValidCivil(b)
    ensures Less(TextOf(a, FullFraction(a.nano)), TextOf(b, FullFraction(b.nano))) <==> Earlier(a, b)
  {
    Widths();
    hide Less, Digits, Pow10, TextOf;
    var x, y := Digits(a.nano, 9) + "Z", Digits(b.nano, 9) + "Z";
    TextDecides(a, b, FullFraction(a.nano), FullFraction(b.nano));
    SharedPrefix(".", x, y);
    FieldDecides(a.nano, b.nano, 9, "Z", "Z");
    Irreflexive("Z");
  }

  /** The byte order of stored timestamps is the order of the instants they name. */
  lemma TimestampOrder(t: Time, u: Time)
    requires InRange(t) && InRange(u)
    ensures Less(Timestamp(t), Timestamp(u)) <==> t < u
    ensures Timestamp(t) == Timestamp(u) <==> t == u
  {
    hide TextOf, FullFraction, CivilOf, Earlier, Less, Instant, ValidCivil;
    FullTextOrder(CivilOf(t), CivilOf(u));
    EarlierIffBefore(CivilOf(t), CivilOf(u));
    if Timestamp(t) == Timestamp(u) {
      TextInjective(CivilOf(t), CivilOf(u));
    }
  }

  // ----- the retention cutoff -----

  /** The place value of the last digit that trimming keeps: of `n` written with `w` digits. */
  function Ulp(n: int, w: nat): int
    requires 0 <= n < Pow10(w)
  {
    if w > 0 && n % 10 == 0 then 10 * Ulp(n / 10, w - 1) else 1
  }

  lemma {:induction false} UlpFits(n: int, w: nat)
    requires 0 <= n < Pow10(w)
    ensures 1 <= Ulp(n, w) && n + Ulp(n, w) <= Pow10(w)
    decreases w
  {
    if w > 0 && n % 10 == 0 {
      UlpFits(n / 10, w - 1);
    }
  }

  /** What follows equally many or more digits is irrelevant against a shorter text that goes on with a letter. */
  lemma {:induction false} TailIrrelevant(p: string, q: string, d: char)
    requires |q| <= |p| && '0' <= d <= '9' && forall i :: 0 <= i < |p| ==> '0' <= p[i] <= '9'
    ensures AtMost(p + "Z", q + "Z") <==> AtMost(p + ([d] + "Z"), q + "Z")
    decreases |q|
  {
    if q == [] {
      assert q + "Z" == "Z";
      if p == [] { assert p + "Z" == "Z" && p + ([d] + "Z") == [d] + "Z"; }
    } else {
      assert (p + "Z")[1..] == p[1..] + "Z" && (q + "Z")[1..] == q[1..] + "Z";
      assert (p + ([d] + "Z"))[1..] == p[1..] + ([d] + "Z");
      assert p + "Z" == q + "Z" <==> p[0] == q[0] && p[1..] + "Z" == q[1..] + "Z" by {
        assert p + "Z" == [p[0]] + (p[1..] + "Z") && q + "Z" == [q[0]] + (q[1..] + "Z");
      }
      assert p + ([d] + "Z") == q + "Z" <==> p[0] == q[0] && p[1..] + ([d] + "Z") == q[1..] + "Z" by {
        assert p + ([d] + "Z") == [p[0]] + (p[1..] + ([d] + "Z")) && q + "Z" == [q[0]] + (q[1..] + "Z");
      }
      TailIrrelevant(p[1..], q[1..], d);
    }
  }

  lemma {:induction false} TrimShortens(s: string)
    ensures |Trim(s)| <= |s|
  {
    if s != [] && s[|s| - 1] == '0' {
      TrimShortens(s[..|s| - 1]);
    }
  }

  lemma UlpStep(r: int, n: int, w: nat)
    requires w > 0 && 0 <= r < Pow10(w) && 0 <= n < Pow10(w) && n % 10 == 0
    ensures r < n + Ulp(n, w) <==> r / 10 < n / 10 + Ulp(n / 10, w - 1)
  {
    BelowTens(r, n / 10 + Ulp(n / 10, w - 1));
  }

  lemma BelowTens(r: int, k: int)
    ensures r < 10 * k <==> r / 10 < k
  {
  }

  /** A trailing zero is trimmed away, and the digit it faces does not matter. */
  lemma TrimStep(r: int, n: int, w: nat)
    requires w > 0 && 0 <= r < Pow10(w) && 0 <= n < Pow10(w) && n % 10 == 0
    ensures AtMost(Digits(r, w) + "Z", Trim(Digits(n, w)) + "Z") <==> AtMost(Digits(r / 10, w - 1) + "Z", Trim(Digits(n / 10, w - 1)) + "Z")
  {
    var p, q := Digits(r / 10, w - 1), Digits(n / 10, w - 1);
    var d := DigitChar(r % 10);
    assert Digits(n, w)[w - 1] == '0' && Digits(n, w)[..w - 1] == q;
    assert Digits(r, w) + "Z" == p + ([d] + "Z");
    hide Less, Pow10;
    TrimShortens(q);
    TailIrrelevant(p, Trim(q), d);
  }

  lemma UntrimmedOrder(r: int, n: int, w: nat)
    requires w > 0 && 0 <= r < Pow10(w) && 0 <= n < Pow10(w) && n % 10 != 0
    ensures AtMost(Digits(r, w) + "Z", Trim(Digits(n, w)) + "Z") <==> r <= n
  {
    assert Digits(n, w)[w - 1] == DigitChar(n % 10) != '0';
    hide Less, Pow10;
    Irreflexive("Z");
    FieldDecides(n, r, w, "Z", "Z");
    AtMostIffNotAfter(Digits(r, w) + "Z", Digits(n, w) + "Z");
  }

  /** A full fraction is at most a trimmed one exactly below the trimmed value plus one unit in its last kept place. */
  lemma {:induction false} TrimmedOrder(r: int, n: int, w: nat)
    requires 0 <= r < Pow10(w) && 0 <= n < Pow10(w)
    ensures AtMost(Digits(r, w) + "Z", Trim(Digits(n, w)) + "Z") <==> r < n + Ulp(n, w)
    decreases w
  {
    hide Trim, AtMost;
    if w == 0 {
      EmptyFraction();
    } else if n % 10 == 0 {
      UlpStep(r, n, w);
      TrimStep(r, n, w);
      hide Digits;
      TrimmedOrder(r / 10, n / 10, w - 1);
    } else {
      UntrimmedOrder(r, n, w);
    }
  }

  lemma EmptyFraction()
    ensures AtMost(Digits(0, 0) + "Z", Trim(Digits(0, 0)) + "Z")
  {
  }

  /** How far past the cutoff the text comparison reaches: one unit of the cutoff's last kept digit, a second if it has none. */
  ghost function Reach(cutoff: Time): int
    requires InRange(cutoff)
  {
    FractionUlp(CivilOf(cutoff).nano)
  }

  function FractionUlp(nano: int): int
    requires 0 <= nano < SECOND
  {
    Widths();
    Ulp(nano, 9)
  }

  lemma FractionOrder(r: int, n: int)
    requires 0 <= r < SECOND && 0 <= n < SECOND
    ensures AtMost(FullFraction(r), TrimmedFraction(n)) <==> r < n + FractionUlp(n)
    ensures 1 <= FractionUlp(n) <= SECOND - n && (FractionUlp(n) == 1 <==> n % 10 != 0)
  {
    Widths();
    UlpFits(n, 9);
    if n % 10 == 0 { UlpFits(n / 10, 8); }
    if n == 0 {
      ZeroUlp(9);
      assert FullFraction(r)[0] == '.' && TrimmedFraction(n)[0] == 'Z';
    } else {
      var x, y := Digits(r, 9) + "Z", Trim(Digits(n, 9)) + "Z";
      TrimmedOrder(r, n, 9);
      SharedPrefix(".", x, y);
      assert "." + x == "." + y ==> x == y by {
        assert ("." + x)[1..] == x && ("." + y)[1..] == y;
      }
    }
  }

  lemma {:induction false} ZeroUlp(w: nat)
    ensures Ulp(0, w) == Pow10(w)
  {
    if w > 0 { ZeroUlp(w - 1); }
  }

  lemma WholeMultiple(k: int)
    ensures k * SECOND % SECOND == 0
  {
  }

  lemma InstantParts(c: Civil)
    requires ValidCivil(c)
    ensures Instant(c) == (DayNumber(c) * 86_400 + SecondOfDay(c)) * SECOND + c.nano
  {
    hide DayNumber, ValidCivil, SecondOfDay;
  }

  /** Splitting an instant at its second. */
  lemma AtTheSecond(t: Time)
    requires InRange(t)
    ensures var c := CivilOf(t); ValidCivil(WholeSeconds(c)) && t == Instant(WholeSeconds(c)) + c.nano && Instant(WholeSeconds(c)) % SECOND == 0
  {
    hide YearStart, MonthStart, MonthLength, DayNumber, CivilOf, SecondOfDay, Instant, InRange, WholeSeconds;
    var c := CivilOf(t);
    WholeInstant(c);
    InstantParts(c);
    InstantParts(WholeSeconds(c));
    WholeMultiple(DayNumber(c) * 86_400 + SecondOfDay(c));
  }

  lemma WholeInstant(c: Civil)
    requires ValidCivil(c)
    ensures var whole := WholeSeconds(c);
      ValidCivil(whole) && whole.nano == 0 && DayNumber(whole) == DayNumber(c) && SecondOfDay(whole) == SecondOfDay(c)
  {
  }

  lemma CutoffOrder(a: Civil, b: Civil)
    requires ValidCivil(a) && ValidCivil(b)
    ensures AtMost(TextOf(a, FullFraction(a.nano)), TextOf(b, TrimmedFraction(b.nano))) <==>
              Earlier(WholeSeconds(a), WholeSeconds(b)) || (WholeSeconds(a) == WholeSeconds(b) && a.nano < b.nano + FractionUlp(b.nano))
  {
    hide TextOf, FullFraction, TrimmedFraction, FractionUlp, Less, AtMost;
    var x, y := FullFraction(a.nano), TrimmedFraction(b.nano);
    TextDecides(b, a, y, x);
    FractionOrder(a.nano, b.nano);
    AtMostIffNotAfter(TextOf(a, x), TextOf(b, y));
    AtMostIffNotAfter(x, y);
  }

  /** The retention query admits a stored instant exactly when it lies before the cutoff plus the cutoff's reach. */
  lemma CutoffReaches(t: Time, cutoff: Time)
    requires InRange(t) && InRange(cutoff)
    ensures AtMost(Timestamp(t), Rfc3339Nano(cutoff)) <==> t < cutoff + Reach(cutoff)
    ensures 1 <= Reach(cutoff) <= SECOND
  {
    hide TextOf, FullFraction, TrimmedFraction, FractionUlp, AtMost, Earlier, CivilOf, Instant;
    var a, b := CivilOf(t), CivilOf(cutoff);
    CutoffOrder(a, b);
    AtTheSecond(t);
    AtTheSecond(cutoff);
    EarlierIffBefore(WholeSeconds(a), WholeSeconds(b));
    FractionOrder(a.nano, b.nano);
  }

  /** The admitted rows are exactly those not newer than the cutoff if and only if the cutoff's last nanosecond digit is not zero. */
  lemma CutoffExactIff(cutoff: Time)
    requires InRange(cutoff)
    ensures (forall t :: InRange(t) ==> (AtMost(Timestamp(t), Rfc3339Nano(cutoff)) <==> t <= cutoff)) <==> cutoff % 10 != 0
  {
    ReachIsOneIff(cutoff);
    hide Timestamp, Rfc3339Nano, AtMost, InRange, Reach;
    forall t | InRange(t) ensures AtMost(Timestamp(t), Rfc3339Nano(cutoff)) <==> t < cutoff + Reach(cutoff) {
      CutoffReaches(t, cutoff);
    }
    if cutoff % 10 == 0 {
      LastNanosecondInRange(cutoff);
      assert !(cutoff + 1 <= cutoff) && AtMost(Timestamp(cutoff + 1), Rfc3339Nano(cutoff));
    }
  }

  lemma ReachIsOneIff(cutoff: Time)
    requires InRange(cutoff)
    ensures Reach(cutoff) >= 1 && (Reach(cutoff) == 1 <==> cutoff % 10 != 0)
  {
    hide CivilOf, Instant, YearStart, FractionUlp, MonthLength, InRange;
    AtTheSecond(cutoff);
    FractionOrder(0, CivilOf(cutoff).nano);
    SameLastDigit(Instant(WholeSeconds(CivilOf(cutoff))), CivilOf(cutoff).nano);
  }

  lemma SameLastDigit(whole: int, nano: int)
    requires whole % SECOND == 0
    ensures (whole + nano) % 10 == nano % 10
  {
    assert whole == whole / SECOND * 100_000_000 * 10;
  }

  lemma LastNanosecondInRange(t: Time)
    requires InRange(t) && t % 10 == 0
    ensures InRange(t + 1)
  {
    hide YearStart;
  }
}
