/** The calendar helpers of lib/dates.mjs. A JavaScript `Date` is seen two
    ways: as its `getTime()` value, a whole number of milliseconds, for the
    offset and difference functions; and as a civil date (full year, month
    index 0..11, day of month, milliseconds into the day) for the month and
    year arithmetic, Easter and the holiday test. Local time is taken to
    have no daylight-saving jumps, so a calendar day is 86400000 ms. */
module Dates {
  import opened Wrappers
  import Text

  const SECOND := 1000
  const MINUTE := 60 * SECOND
  const HOUR := 60 * MINUTE
  const DAY := 24 * HOUR

  function Abs(x: int): nat {
    if x < 0 then -x else x
  }

  /** JavaScript's `%`, which truncates toward zero. */
  function JsRem(a: int, b: int): (r: int)
    requires b > 0
    ensures a >= 0 ==> r == a % b
    ensures a < 0 ==> r == -((-a) % b)
  {
    if a >= 0 then a % b else -((-a) % b)
  }

  /** `Math.ceil(a / b)` for a whole `a >= 0`. */
  function CeilDiv(a: nat, b: nat): (r: nat)
    requires b > 0
    ensures r * b >= a
    ensures r > 0 ==> (r - 1) * b < a
  {
    if a % b == 0 then a / b else a / b + 1
  }

  // ---------------------------------------------------------------------
  // Millisecond arithmetic

  /** `dayDiff(val1, val2)`: whole or partial days between two instants. */
  function DayDiff(t1: int, t2: int): (r: nat)
    ensures r * DAY >= Abs(t1 - t2) && (r > 0 ==> (r - 1) * DAY < Abs(t1 - t2))
    ensures r == 0 <==> t1 == t2
  {
    CeilDiv(Abs(t1 - t2), DAY)
  }

  /** `weekDiff(val1, val2)` */
  function WeekDiff(t1: int, t2: int): (r: nat)
    ensures 7 * r <= DayDiff(t1, t2) < 7 * r + 7
  {
    DayDiff(t1, t2) / 7
  }

  /** `minuteDiff(val1, val2)` */
  function MinuteDiff(t1: int, t2: int): (r: nat)
    ensures r * MINUTE >= Abs(t1 - t2) && (r > 0 ==> (r - 1) * MINUTE < Abs(t1 - t2))
  {
    CeilDiv(Abs(t2 - t1), MINUTE)
  }

  function AddMilliseconds(t: int, milliseconds: int): (r: int)
    ensures r - t == milliseconds
  {
    t + milliseconds
  }

  function AddSeconds(t: int, seconds: int): (r: int)
    ensures r == t + seconds * 1000
  {
    AddMilliseconds(t, seconds * SECOND)
  }

  function AddMinutes(t: int, minutes: int): (r: int)
    ensures r == t + minutes * 60000
  {
    AddSeconds(t, minutes * 60)
  }

  function AddHours(t: int, hours: int): (r: int)
    ensures r == t + hours * 3600000
  {
    AddMinutes(t, hours * 60)
  }

  /** `addDays(val, days)`: `setDate(getDate() + days)`, a whole number of
      calendar days later, each 86400000 ms long. */
  function AddDays(t: int, days: int): (r: int)
    ensures r == t + days * 86400000
  {
    t + days * DAY
  }

  function AddWeeks(t: int, weeks: int): (r: int)
    ensures r == t + weeks * 7 * 86400000
  {
    AddDays(t, weeks * 7)
  }

  /** `dayDiff` undoes `addDays`. */
  lemma DayDiffAddDays(t: int, days: int)
    ensures DayDiff(t, AddDays(t, days)) == Abs(days)
    ensures DayDiff(AddDays(t, days), t) == Abs(days)
  {
    var r := DayDiff(t, AddDays(t, days));
    assert Abs(t - AddDays(t, days)) == Abs(days) * DAY;
    assert r * DAY >= Abs(days) * DAY;
    if r > 0 {
      assert (r - 1) * DAY < Abs(days) * DAY;
    }
  }

  /** `weekDiff` undoes `addWeeks`. */
  lemma WeekDiffAddWeeks(t: int, weeks: int)
    ensures WeekDiff(t, AddWeeks(t, weeks)) == Abs(weeks)
  {
    DayDiffAddDays(t, weeks * 7);
    assert Abs(weeks * 7) == 7 * Abs(weeks);
  }

  /** `dayDiff` is symmetric. */
  lemma DayDiffSymmetric(t1: int, t2: int)
    ensures DayDiff(t1, t2) == DayDiff(t2, t1)
  {
  }

  // ---------------------------------------------------------------------
  // Civil dates

  datatype Date = Date(year: int, month: int, day: int, time: int)

  /** The Gregorian rule: every fourth year, except centuries not divisible by 400. */
  predicate IsLeapYear(year: int) {
    if year % 100 == 0 then year % 400 == 0 else year % 4 == 0
  }

  /** `getDaysInMonth(year, month)`; `None` is the `undefined` an index
      outside 0..11 reads from the table. */
  function GetDaysInMonth(year: int, month: int): (r: Option<int>)
    ensures r.Some? <==> 0 <= month < 12
    ensures r.Some? ==> 28 <= r.value <= 31
  {
    var isLeapYear := (year % 4 == 0 && year % 100 != 0) || year % 400 == 0;
    if 0 <= month < 12 then Some([31, if isLeapYear then 29 else 28, 31, 30, 31, 30, 31, 31, 30, 31, 30, 31][month])
    else None
  }

  /** The test `getDaysInMonth` makes is the Gregorian rule. */
  lemma LeapYearRule(year: int)
    ensures ((year % 4 == 0 && year % 100 != 0) || year % 400 == 0) <==> IsLeapYear(year)
  {
    if year % 100 == 0 {
      var k := year / 100;
      assert year == 4 * (25 * k);
    } else {
      var k := year / 400;
      assert year != 100 * (4 * k);
    }
  }

  /** February has 29 days exactly in leap years; the other months have
      their fixed lengths. */

  /** The length of a month (0-based) by the Gregorian calendar. */
  function DaysIn(year: int, month: int): (r: int)
    requires 0 <= month < 12
    ensures 28 <= r <= 31
  {
    if month == 1 then (if IsLeapYear(year) then 29 else 28)
    else if month == 3 || month == 5 || month == 8 || month == 10 then 30
    else 31
  }

  /** `getDaysInMonth` returns the calendar's month length for every month index. */
  lemma GetDaysInMonthAgrees(year: int, month: int)
    requires 0 <= month < 12
    ensures GetDaysInMonth(year, month) == Some(DaysIn(year, month))
  {
    LeapYearRule(year);
  }

  ghost predicate Valid(d: Date) {
    0 <= d.month < 12 && 1 <= d.day <= DaysIn(d.year, d.month) && 0 <= d.time < DAY
  }

  /** The month count `12 * year + month`. */
  function MonthIndex(d: Date): int {
    12 * d.year + d.month
  }

  /** `a < b` on two dates, the order of their `getTime()` values. */
  predicate Before(a: Date, b: Date) {
    a.year < b.year
    || (a.year == b.year && a.month < b.month)
    || (a.year == b.year && a.month == b.month && a.day < b.day)
    || (a.year == b.year && a.month == b.month && a.day == b.day && a.time < b.time)
  }

  /** `addMonths(val, months)`: move to the first of the month, shift the
      month (the year follows), then put back the day, clamped to the last
      day of the target month. */
  function AddMonths(d: Date, months: int): (r: Date)
    requires Valid(d)
    ensures Valid(r)
    ensures MonthIndex(r) == MonthIndex(d) + months
    ensures d.day <= DaysIn(r.year, r.month) ==> r.day == d.day
    ensures d.day > DaysIn(r.year, r.month) ==> r.day == DaysIn(r.year, r.month)
    ensures r.time == d.time
  {
    var n := d.day;
    var total := d.month + months;
    var year := d.year + total / 12;
    var month := total % 12;
    Date(year, month, if n < DaysIn(year, month) then n else DaysIn(year, month), d.time)
  }

  /** `addYears(val, years)` */
  function AddYears(d: Date, years: int): (r: Date)
    requires Valid(d)
    ensures Valid(r) && r.year == d.year + years && r.month == d.month && r.time == d.time
    ensures r.day == d.day || (d.month == 1 && d.day == 29 && r.day == 28 && !IsLeapYear(r.year))
  {
    AddMonths(d, years * 12)
  }

  lemma AddMonthsZero(d: Date)
    requires Valid(d)
    ensures AddMonths(d, 0) == d
  {
  }

  /** Between two valid dates, month count order decides `Before`. */
  lemma MonthIndexOrder(a: Date, b: Date)
    requires Valid(a) && Valid(b)
    ensures MonthIndex(a) < MonthIndex(b) ==> Before(a, b)
    ensures Before(a, b) ==> MonthIndex(a) <= MonthIndex(b)
  {
  }

  /** The earlier of the two arguments, as `monthDiff` and `yearDiff` pick it. */
  function Earlier(a: Date, b: Date): Date {
    if Before(a, b) then a else b
  }

  function Later(a: Date, b: Date): Date {
    if Before(a, b) then b else a
  }

  /** `monthDiff(val1, val2)` as written: the year gap is taken without sign
      and added to the signed month gap, so for a later `val1` whose month is
      earlier the raw gap is too large. */
  function MonthDiffAsWritten(v1: Date, v2: Date): int
    requires Valid(v1) && Valid(v2)
  {
    var diff := Abs(v2.month + 12 * Abs(v1.year - v2.year) - v1.month);
    if Before(v1, v2) then
      (if Before(v2, AddMonths(v1, diff)) then diff - 1 else diff)
    else
      (if Before(v1, AddMonths(v2, diff)) then diff - 1 else diff)
  }

  /** `monthDiff` with the raw gap taken between the month counts. */
  function MonthDiff(v1: Date, v2: Date): (r: int)
    requires Valid(v1) && Valid(v2)
  {
    var diff := Abs(MonthIndex(v2) - MonthIndex(v1));
    if Before(v1, v2) then
      (if Before(v2, AddMonths(v1, diff)) then diff - 1 else diff)
    else
      (if Before(v1, AddMonths(v2, diff)) then diff - 1 else diff)
  }

  /** `yearDiff(val1, val2)` */
  function YearDiff(v1: Date, v2: Date): (r: int)
    requires Valid(v1) && Valid(v2)
  {
    var diff := Abs(v1.year - v2.year);
    if Before(v1, v2) then
      (if Before(v2, AddYears(v1, diff)) then diff - 1 else diff)
    else
      (if Before(v1, AddYears(v2, diff)) then diff - 1 else diff)
  }

  /** `Before` is a strict total order on dates. */
  lemma BeforeTotal(a: Date, b: Date)
    ensures !(Before(a, b) && Before(b, a))
    ensures !Before(a, b) && !Before(b, a) ==> a == b
  {
  }

  /** `monthDiff` seen from the earlier date: the gap in month counts, less
      one when adding that many months overshoots the later date. */
  lemma MonthDiffFromEarlier(v1: Date, v2: Date)
    requires Valid(v1) && Valid(v2)
    ensures !Before(Later(v1, v2), Earlier(v1, v2))
    ensures MonthDiff(v1, v2) == WholeMonths(Earlier(v1, v2), Later(v1, v2))
  {
    BeforeTotal(v1, v2);
    MonthIndexOrder(v1, v2);
    MonthIndexOrder(v2, v1);
  }

  /** `monthDiff` counts whole months: adding it to the earlier date stays at
      or before the later one, and one month more goes past it. */
  lemma MonthDiffCountsWholeMonths(v1: Date, v2: Date)
    requires Valid(v1) && Valid(v2)
    ensures var r := MonthDiff(v1, v2);
      r >= 0
      && !Before(Later(v1, v2), AddMonths(Earlier(v1, v2), r))
      && Before(Later(v1, v2), AddMonths(Earlier(v1, v2), r + 1))
  {
    MonthDiffFromEarlier(v1, v2);
    WholeMonthsFrom(Earlier(v1, v2), Later(v1, v2));
  }

  /** The gap in month counts from `e` to `l`, less one when adding that
      many months to `e` overshoots `l`. */
  function WholeMonths(e: Date, l: Date): int
    requires Valid(e)
  {
    var d := MonthIndex(l) - MonthIndex(e);
    if Before(l, AddMonths(e, d)) then d - 1 else d
  }

  /** The whole-months count from an earlier date `e` to a later `l`. */
  lemma WholeMonthsFrom(e: Date, l: Date)
    requires Valid(e) && Valid(l) && !Before(l, e)
    ensures var r := WholeMonths(e, l);
      r >= 0 && !Before(l, AddMonths(e, r)) && Before(l, AddMonths(e, r + 1))
  {
    MonthIndexOrder(l, e);
    var d := MonthIndex(l) - MonthIndex(e);
    if Before(l, AddMonths(e, d)) {
      if d == 0 {
        AddMonthsZero(e);
      }
      MonthIndexOrder(AddMonths(e, d - 1), l);
      BeforeTotal(AddMonths(e, d - 1), l);
    } else {
      MonthIndexOrder(l, AddMonths(e, d + 1));
    }
  }

  /** The order of the arguments does not matter to `monthDiff`. */
  lemma MonthDiffSymmetric(v1: Date, v2: Date)
    requires Valid(v1) && Valid(v2)
    ensures MonthDiff(v1, v2) == MonthDiff(v2, v1)
  {
    BeforeTotal(v1, v2);
    MonthDiffFromEarlier(v1, v2);
    MonthDiffFromEarlier(v2, v1);
  }

  /** `yearDiff` counts whole years in the same sense. */
  lemma YearDiffCountsWholeYears(v1: Date, v2: Date)
    requires Valid(v1) && Valid(v2)
    ensures var r := YearDiff(v1, v2);
      r >= 0
      && !Before(Later(v1, v2), AddYears(Earlier(v1, v2), r))
      && Before(Later(v1, v2), AddYears(Earlier(v1, v2), r + 1))
  {
    var e, l := Earlier(v1, v2), Later(v1, v2);
    assert !Before(l, e);
    var r := YearDiff(v1, v2);
    if l.year == e.year {
      AddMonthsZero(e);
    }
  }

  /** The raw month gap of `monthDiff` as written ignores which year is the
      later one: from 15 December 2020 to 15 January 2021 it counts one
      month, the other way round twenty-two. */
  lemma MonthDiffAsWrittenIsAsymmetric()
    ensures MonthDiffAsWritten(Date(2020, 11, 15, 0), Date(2021, 0, 15, 0)) == 1
    ensures MonthDiffAsWritten(Date(2021, 0, 15, 0), Date(2020, 11, 15, 0)) == 22
    ensures MonthDiff(Date(2021, 0, 15, 0), Date(2020, 11, 15, 0)) == 1
  {
    var dec, jan := Date(2020, 11, 15, 0), Date(2021, 0, 15, 0);
    assert AddMonths(dec, 1) == jan;
    assert AddMonths(dec, 23) == Date(2022, 10, 15, 0);
  }

  // ---------------------------------------------------------------------
  // Easter

  /** The terms h, l and m of the anonymous Gregorian computus
      (Meeus/Jones/Butcher), with JavaScript's truncating `%` and `Math.floor`. */
  function ComputusTerms(year: int): (int, int, int) {
    var a := JsRem(year, 19);
    var b := year / 100;
    var c := JsRem(year, 100);
    var d := b / 4;
    var e := JsRem(b, 4);
    var f := (b + 8) / 25;
    var g := (b - f + 1) / 3;
    var h := JsRem(19 * a + b - d - g + 15, 30);
    var i := c / 4;
    var k := JsRem(c, 4);
    var l := JsRem(32 + 2 * e + 2 * i - h - k, 7);
    var m := (a + 11 * h + 22 * l) / 451;
    (h, l, m)
  }

  /** `new Date(year, n, p)` arguments from a day number n0 = 31 * (n + 1) + p - 1. */
  function MonthDay(n0: int): (int, int) {
    (n0 / 31 - 1, n0 % 31 + 1)
  }

  /** `getEasterDate(year)` as written, with `+ 7 * m`; the (month index,
      day) pair it passes to `new Date`. */
  function EasterAsWritten(year: int): (int, int) {
    var (h, l, m) := ComputusTerms(year);
    MonthDay(h + l + 7 * m + 114)
  }

  /** `getEasterDate(year)` with the computus's `- 7 * m`. For a year from 0
      on it falls between 22 March and 25 April. */
  function EasterDate(year: int): (r: Date)
    ensures r.year == year && r.time == 0
    ensures year >= 0 ==> Valid(r) && ((r.month == 2 && 22 <= r.day) || (r.month == 3 && r.day <= 25))
  {
    var (h, l, m) := ComputusTerms(year);
    var (n, p) := MonthDay(h + l - 7 * m + 114);
    ComputusBounds(year);
    Date(year, n, p, 0)
  }

  /** From year 0 on, the day number h + l - 7m + 114 lies in 114..148. */
  lemma ComputusBounds(year: int)
    ensures var (h, l, m) := ComputusTerms(year);
      year >= 0 ==> 114 <= h + l - 7 * m + 114 <= 148
  {
    if year >= 0 {
      var (h, l, m) := ComputusTerms(year);
      var a := JsRem(year, 19);
      assert 0 <= a < 19 && 0 <= h < 30 && 0 <= l < 7;
      assert m == (a + 11 * h + 22 * l) / 451;
      assert 0 <= m <= 1;
      assert m == 1 ==> h + l >= 7;
      assert m == 0 ==> h + l <= 34;
    }
  }

  /** For 1981 the code as written gives month index 4, day 2: 2 May. */
  lemma EasterAsWritten1981()
    ensures EasterAsWritten(1981) == (4, 2)
  {
    Computus1981();
  }

  /** 1981: a = 5, b = 19, c = 81, d = 4, e = 3, f = 1, g = 6, i = 20, k = 1. */
  lemma Computus1981()
    ensures ComputusTerms(1981) == (29, 6, 1)
  {
    assert JsRem(1981, 19) == 5 && JsRem(1981, 100) == 81 && JsRem(19, 4) == 3;
    assert JsRem(19 * 5 + 19 - 4 - 6 + 15, 30) == 29;
    assert JsRem(32 + 2 * 3 + 2 * 20 - 29 - 1, 7) == 6;
    assert (5 + 11 * 29 + 22 * 6) / 451 == 1;
  }

  /** 2024: a = 10, b = 20, c = 24, d = 5, e = 0, f = 1, g = 6, i = 6, k = 0. */
  lemma Computus2024()
    ensures ComputusTerms(2024) == (4, 5, 0)
  {
    assert JsRem(2024, 19) == 10 && JsRem(2024, 100) == 24 && JsRem(20, 4) == 0;
    assert JsRem(19 * 10 + 20 - 5 - 6 + 15, 30) == 4;
    assert JsRem(32 + 2 * 0 + 2 * 6 - 4 - 0, 7) == 5;
    assert (10 + 11 * 4 + 22 * 5) / 451 == 0;
  }

  /** The corrected computus gives 19 April 1981. */
  lemma Easter1981()
    ensures EasterDate(1981) == Date(1981, 3, 19, 0)
  {
    Computus1981();
  }

  /** The corrected computus gives 31 March 2024. */
  lemma Easter2024()
    ensures EasterDate(2024) == Date(2024, 2, 31, 0)
  {
    Computus2024();
  }

  // ---------------------------------------------------------------------
  // Italian holidays

  /** The day after `d`: `setDate(getDate() + 1)`. */
  function NextDay(d: Date): (r: Date)
    requires Valid(d)
    ensures Valid(r) && Before(d, r) && r.time == d.time
    ensures d.day < DaysIn(d.year, d.month) ==> r == d.(day := d.day + 1)
    ensures d.day == DaysIn(d.year, d.month) && d.month < 11 ==> r == d.(month := d.month + 1, day := 1)
    ensures d.day == DaysIn(d.year, d.month) && d.month == 11 ==> r == d.(year := d.year + 1, month := 0, day := 1)
    ensures forall e :: Valid(e) && e.time == d.time && Before(d, e) ==> !Before(e, r)
  {
    if d.day < DaysIn(d.year, d.month) then d.(day := d.day + 1)
    else if d.month < 11 then d.(month := d.month + 1, day := 1)
    else d.(year := d.year + 1, month := 0, day := 1)
  }

  /** Easter Monday 2024 falls on 1 April. */
  lemma Easter2024Monday()
    ensures EasterLabels(2024).1 == "01/04"
  {
    Easter2024();
    assert NextDay(Date(2024, 2, 31, 0)) == Date(2024, 3, 1, 0);
  }

  /** Two-digit zero padding of a day or month number. */
  function Pad2(n: nat): (r: string)
    requires n < 100
    ensures |r| == 2
  {
    if n < 10 then "0" + Text.NatToString(n) else Text.NatToString(n)
  }

  /** The "DD/MM" label of a date. */
  function Label(d: Date): string
    requires Valid(d)
  {
    Pad2(d.day) + "/" + Pad2(d.month + 1)
  }

  /** The fixed holidays, by the name `excluded` uses for each. */
  const HOLIDAYS: seq<(string, string)> := [
    ("CAPODANNO", "01/01"), ("EPIFANIA", "06/01"), ("LIBERAZIONE", "25/04"),
    ("LAVORATORI", "01/05"), ("REPUBBLICA", "02/06"), ("FERRAGOSTO", "15/08"),
    ("OGNISSANTI", "01/11"), ("IMMACOLATA", "08/12"), ("NATALE", "25/12"),
    ("SANTO_STEFANO", "26/12")]

  /** The labels of the fixed holidays among the first `n` that are not excluded, in table order. */
  function FixedLabels(excluded: seq<string>, n: nat): (r: seq<string>)
    requires n <= |HOLIDAYS|
    ensures |r| <= n
  {
    if n == 0 then []
    else FixedLabels(excluded, n - 1) + (if HOLIDAYS[n - 1].0 !in excluded then [HOLIDAYS[n - 1].1] else [])
  }

  /** A label is collected exactly when some holiday among the first `n`
      carries it and is not excluded. */
  lemma {:induction false} FixedLabelsMembers(excluded: seq<string>, n: nat, t: string)
    requires n <= |HOLIDAYS|
    ensures t in FixedLabels(excluded, n) <==> exists j :: 0 <= j < n && HOLIDAYS[j].0 !in excluded && HOLIDAYS[j].1 == t
  {
    if n > 0 {
      FixedLabelsMembers(excluded, n - 1, t);
    }
  }

  /** The labels of Easter Sunday and Easter Monday of a year. */
  function EasterLabels(year: int): (string, string)
    requires year >= 0
  {
    var easter := EasterDate(year);
    (Label(easter), Label(NextDay(easter)))
  }

  /** The labels `isItalianFestivity` collects for a year. */
  function FestivityLabels(year: int, excluded: seq<string>): seq<string>
    requires year >= 0
  {
    var (easter, easterMonday) := EasterLabels(year);
    WithEaster(excluded, easter, easterMonday)
  }

  /** The fixed labels followed by the Easter labels not excluded. */
  function WithEaster(excluded: seq<string>, easter: string, easterMonday: string): seq<string> {
    FixedLabels(excluded, |HOLIDAYS|)
    + (if "PASQUA" !in excluded then [easter] else [])
    + (if "PASQUETTA" !in excluded then [easterMonday] else [])
  }

  /** An entry of the `festivities` list: a label, or one of the `Date`
      objects the `added` argument contributes, which no label equals. */
  datatype Entry = Holiday(name: string) | DateObject(date: Date)

  datatype AddedFestivity = AddedFestivity(date: Date, description: string)

  /** The first loop of `isItalianFestivity`: the fixed holidays not
      excluded, of which `t` is one exactly when its label was collected. */
  method CollectFixed(excludedNames: seq<string>, ghost t: string) returns (festivities: seq<Entry>)
    ensures Holiday(t) in festivities <==> t in FixedLabels(excludedNames, |HOLIDAYS|)
    ensures forall e :: e in festivities ==> e.Holiday?
  {
    festivities := [];
    var i := 0;
    while i < |HOLIDAYS|
      invariant 0 <= i <= |HOLIDAYS|
      invariant Holiday(t) in festivities <==> t in FixedLabels(excludedNames, i)
      invariant forall e :: e in festivities ==> e.Holiday?
    {
      if HOLIDAYS[i].0 !in excludedNames {
        festivities := festivities + [Holiday(HOLIDAYS[i].1)];
      }
      i := i + 1;
    }
  }

  /** The last loop: one `Date` object per `added` entry, which never equals a label. */
  method AppendAdded(festivities: seq<Entry>, addedDates: seq<AddedFestivity>, ghost t: string)
    returns (r: seq<Entry>)
    ensures Holiday(t) in r <==> Holiday(t) in festivities
  {
    r := festivities;
    for k := 0 to |addedDates|
      invariant Holiday(t) in r <==> Holiday(t) in festivities
    {
      r := r + [DateObject(addedDates[k].date)];
    }
  }

  /** The middle of `isItalianFestivity`: Easter Sunday and Easter Monday
      unless excluded. */
  method AddEaster(festivities: seq<Entry>, excludedNames: seq<string>, easter: string, easterMonday: string, ghost t: string)
    returns (r: seq<Entry>)
    requires Holiday(t) in festivities <==> t in FixedLabels(excludedNames, |HOLIDAYS|)
    ensures Holiday(t) in r <==> t in WithEaster(excludedNames, easter, easterMonday)
  {
    r := festivities;
    ghost var labels := FixedLabels(excludedNames, |HOLIDAYS|);
    if "PASQUA" !in excludedNames {
      labels := labels + [easter];
      r := r + [Holiday(easter)];
    }
    if "PASQUETTA" !in excludedNames {
      labels := labels + [easterMonday];
      r := r + [Holiday(easterMonday)];
    }
    assert labels == WithEaster(excludedNames, easter, easterMonday);
  }

  /** `isItalianFestivity(value, excluded, added)` */
  method IsItalianFestivity(value: Date, excluded: Option<seq<string>>, added: Option<seq<AddedFestivity>>) returns (r: bool)
    requires Valid(value) && value.year >= 0
    ensures r <==> Label(value) in FestivityLabels(value.year, excluded.GetOr([]))
  {
    var excludedNames := excluded.GetOr([]);
    var target := Label(value);
    var festivities := CollectFixed(excludedNames, target);
    var (easter, easterMonday) := EasterLabels(value.year);
    festivities := AddEaster(festivities, excludedNames, easter, easterMonday, target);
    festivities := AppendAdded(festivities, added.GetOr([]), target);
    r := Holiday(target) in festivities;
  }

  /** A date is a holiday exactly when it is a fixed holiday not excluded, or
      Easter or Easter Monday of its year unless "PASQUA" or "PASQUETTA" is excluded. */
  lemma FestivityCases(value: Date, excluded: seq<string>)
    requires Valid(value) && value.year >= 0
    ensures Label(value) in FestivityLabels(value.year, excluded) <==>
      || (exists i :: 0 <= i < |HOLIDAYS| && HOLIDAYS[i].0 !in excluded && HOLIDAYS[i].1 == Label(value))
      || ("PASQUA" !in excluded && Label(value) == Label(EasterDate(value.year)))
      || ("PASQUETTA" !in excluded && Label(value) == Label(NextDay(EasterDate(value.year))))
  {
    FixedLabelsMembers(excluded, |HOLIDAYS|, Label(value));
  }

  /** The padded rendering of a day or month number is its two digits. */
  lemma Pad2Digits(n: nat)
    requires n < 100
    ensures Pad2(n) == [Text.DigitChar(n / 10), Text.DigitChar(n % 10)]
  {
    if n >= 10 {
      assert Text.NatToString(n / 10) == [Text.DigitChar(n / 10)];
    }
  }

  /** 25 December carries the label of the "NATALE" entry. */
  lemma ChristmasLabel(year: int)
    ensures Label(Date(year, 11, 25, 0)) == HOLIDAYS[8].1 && HOLIDAYS[8].0 == "NATALE"
  {
    Pad2Digits(25);
    Pad2Digits(12);
  }
}
