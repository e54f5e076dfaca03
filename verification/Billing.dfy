/** The billing months of a plan, counted in UTC from its first instant. Instants are nanoseconds
    since the start of year zero of the proleptic Gregorian calendar. */
module Billing {
  import opened Wrappers
  import opened Sequences

  const DAY: int := 86_400_000_000_000

  /** The last representable instant, 9999-12-30T22:00:00.999999999Z. */
  const LAST: int := 3_652_423 * DAY + 79_200_999_999_999

  // ---------------------------------------------------------------- the calendar

  predicate IsLeap(year: int) { year % 4 == 0 && (year % 100 != 0 || year % 400 == 0) }

  /** Days before the first of January. */
  function YearStart(year: int): int { 365 * year + (year + 3) / 4 - (year + 99) / 100 + (year + 399) / 400 }

  function DaysBefore(month: int, leap: bool): int
    requires 0 <= month < 12
  {
    [0, 31, 59, 90, 120, 151, 181, 212, 243, 273, 304, 334][month] + (if leap && month >= 2 then 1 else 0)
  }

  /** Months are counted from January of year zero. */
  function MonthStart(month: int): int { YearStart(month / 12) + DaysBefore(month % 12, IsLeap(month / 12)) }

  function MonthLength(month: int): (days: int)
    ensures 28 <= days <= 31
  {
    var m := month % 12;
    if m == 1 then (if IsLeap(month / 12) then 29 else 28)
    else if m == 3 || m == 5 || m == 8 || m == 10 then 30
    else 31
  }

  lemma YearsFollow(year: int)
    ensures YearStart(year + 1) == YearStart(year) + (if IsLeap(year) then 366 else 365)
  {
    hide IsLeap;
    Quarter(year, 4);
    Quarter(year, 100);
    Quarter(year, 400);
    LeapYears(year);
  }

  lemma LeapYears(year: int)
    ensures (if IsLeap(year) then 1 else 0) ==
              (if year % 4 == 0 then 1 else 0) - (if year % 100 == 0 then 1 else 0) + (if year % 400 == 0 then 1 else 0)
  {
    assert year % 100 == 0 ==> (25 * (year / 100)) * 4 == year;
    assert year % 400 == 0 ==> (4 * (year / 400)) * 100 == year;
  }

  lemma Quarter(year: int, n: int)
    requires n == 4 || n == 100 || n == 400
    ensures (year + n) / n - (year + n - 1) / n == if year % n == 0 then 1 else 0
  {
  }

  lemma MonthsFollow(month: int)
    ensures MonthStart(month + 1) == MonthStart(month) + MonthLength(month)
  {
    if month % 12 == 11 {
      YearsFollow(month / 12);
      assert (month + 1) / 12 == month / 12 + 1;
    } else {
      assert (month + 1) / 12 == month / 12;
    }
  }

  lemma {:induction false} MonthsIncrease(m: int, n: int)
    requires m < n
    ensures MonthStart(m) + MonthLength(m) <= MonthStart(n)
    decreases n - m
  {
    hide MonthStart, MonthLength;
    if m + 1 < n {
      MonthsIncrease(m, n - 1);
      MonthsFollow(n - 1);
    } else {
      MonthsFollow(m);
    }
  }

  lemma FirstMonth(month: int)
    requires 0 <= month < 1
    ensures MonthStart(month) == 0 && MonthLength(month) == 31
  {
    hide MonthStart, MonthLength, YearStart;
    JanuaryOf(month, month);
    YearZero(month);
  }

  lemma JanuaryOf(month: int, year: int)
    requires month == 12 * year
    ensures MonthStart(month) == YearStart(year) && MonthLength(month) == 31
  {
    hide YearStart, IsLeap;
    assert month / 12 == year && month % 12 == 0;
  }

  lemma YearZero(year: int)
    requires -1 < year < 1
    ensures YearStart(year) == 0
  {
  }

  /** The month a day falls in. */
  function MonthHolding(day: int): (month: int)
    ensures MonthStart(month) <= day < MonthStart(month) + MonthLength(month)
    decreases if day < 0 then -day else day
  {
    hide MonthStart, MonthLength;
    if day == 0 then FirstMonth(day); 0
    else if day > 0 then
      var m := MonthHolding(day - 1);
      MonthsFollow(m);
      if day < MonthStart(m) + MonthLength(m) then m else m + 1
    else
      var m := MonthHolding(day + 1);
      MonthsFollow(m - 1);
      if MonthStart(m) <= day then m else m - 1
  }

  datatype Civil = Civil(month: int, day: int, time: int)

  predicate IsDate(c: Civil) { 1 <= c.day <= MonthLength(c.month) && 0 <= c.time < DAY }

  function InstantOf(c: Civil): int { (MonthStart(c.month) + c.day - 1) * DAY + c.time }

  function CivilOf(instant: int): (c: Civil)
    ensures IsDate(c) && InstantOf(c) == instant
  {
    var day := instant / DAY;
    var m := MonthHolding(day);
    Civil(m, day - MonthStart(m) + 1, instant % DAY)
  }

  /** A date has one instant and an instant one date. */
  lemma DateReadsBack(c: Civil)
    requires IsDate(c)
    ensures CivilOf(InstantOf(c)) == c
  {
    var day := MonthStart(c.month) + c.day - 1;
    hide MonthStart, MonthLength;
    var instant := InstantOf(c);
    DivisionReadsBack(day, c.time);
    var m := MonthHolding(day);
    if m < c.month { MonthsIncrease(m, c.month); }
    if c.month < m { MonthsIncrease(c.month, m); }
  }

  lemma DivisionReadsBack(day: int, time: int)
    requires 0 <= time < DAY
    ensures (day * DAY + time) / DAY == day && (day * DAY + time) % DAY == time
  {
  }

  /** The last instant is ten at night of the thirtieth of December 9999, to the nanosecond. */
  lemma LastInstant(last: Civil)
    requires last.month == 9999 * 12 + 11 && last.day == 30
    requires last.time == (22 * 60 * 60 + 1) * 1_000_000_000 - 1
    ensures DAY == 24 * 60 * 60 * 1_000_000_000 && InstantOf(last) == LAST
  {
    hide IsLeap;
    var month := last.month;
    assert month / 12 == 9999 && month % 12 == 11;
    Year9999(month / 12);
  }

  lemma Year9999(year: int)
    requires 9998 < year < 10000
    ensures YearStart(year) == 3_652_060 && !IsLeap(year)
  {
  }

  // ---------------------------------------------------------------- billing months

  /** `index` months after the anchor, its day clamped to the last of a shorter month. */
  function MonthAfter(anchor: Civil, index: int): Civil {
    var month := anchor.month + index;
    Civil(month, Min(anchor.day, MonthLength(month)), anchor.time)
  }

  function StartOf(anchor: Civil, index: int): int { InstantOf(MonthAfter(anchor, index)) }

  /** Nothing past the last representable instant. */
  function Month(anchor: Civil, index: int): Option<int> {
    if StartOf(anchor, index) <= LAST then Some(StartOf(anchor, index)) else None
  }

  /** The billing month `index` has started by `now`, before the plan's end, and has a next. */
  predicate Bills(anchor: Civil, now: int, end: Option<int>, index: int) {
    && Month(anchor, index).Some? && StartOf(anchor, index) <= now
    && (end.Some? ==> StartOf(anchor, index) < end.value)
    && Month(anchor, index + 1).Some?
  }

  function Clip(end: Option<int>, next: int): int { if end.Some? then Min(end.value, next) else next }

  function PeriodOf(anchor: Civil, end: Option<int>, index: int): (int, int) {
    (StartOf(anchor, index), Clip(end, StartOf(anchor, index + 1)))
  }

  lemma StartsFollow(anchor: Civil, index: int)
    requires IsDate(anchor)
    ensures StartOf(anchor, index) < StartOf(anchor, index + 1)
  {
    var m := anchor.month + index;
    MonthsFollow(m);
    hide MonthStart, MonthLength;
    var a, b := MonthAfter(anchor, index), MonthAfter(anchor, index + 1);
    assert MonthStart(a.month) + a.day <= MonthStart(b.month) + b.day - 1;
    DaysApart(MonthStart(a.month) + a.day - 1, MonthStart(b.month) + b.day - 1, anchor.time);
  }

  lemma DaysApart(a: int, b: int, time: int)
    requires a < b
    ensures a * DAY + time < b * DAY + time
  {
  }

  lemma {:induction false} StartsIncrease(anchor: Civil, i: int, j: int)
    requires IsDate(anchor) && i < j
    ensures StartOf(anchor, i) < StartOf(anchor, j)
    decreases j - i
  {
    hide StartOf;
    StartsFollow(anchor, j - 1);
    if i + 1 < j { StartsIncrease(anchor, i, j - 1); }
  }

  lemma RoomShrinks(anchor: Civil, now: int, index: int)
    requires IsDate(anchor) && StartOf(anchor, index) <= now
    ensures Room(anchor, now, index + 1) < Room(anchor, now, index)
  {
    hide StartOf;
    StartsFollow(anchor, index);
  }

  function Room(anchor: Civil, now: int, index: int): nat {
    if StartOf(anchor, index) <= now then now - StartOf(anchor, index) + 1 else 0
  }

  /** Walks the billing months from the plan's own until one does not bill. It stops because every
      start is later than the one before. */
  method Periods(periodStart: int, end: Option<int>, now: int) returns (periods: seq<(int, int)>)
    ensures var anchor := CivilOf(periodStart);
            && (forall i :: 0 <= i < |periods| ==> Bills(anchor, now, end, i) && periods[i] == PeriodOf(anchor, end, i))
            && !Bills(anchor, now, end, |periods|)
  {
    hide StartOf, CivilOf, LAST, MonthLength, MonthStart, Room;
    var anchor := CivilOf(periodStart);
    periods := [];
    var index := 0;
    while Month(anchor, index).Some?
      invariant index == |periods|
      invariant forall i :: 0 <= i < index ==> Bills(anchor, now, end, i) && periods[i] == PeriodOf(anchor, end, i)
      decreases Room(anchor, now, index)
    {
      var start := Month(anchor, index).value;
      if start > now || (end.Some? && start >= end.value) { break; }
      var next := Month(anchor, index + 1);
      if next.None? { break; }
      RoomShrinks(anchor, now, index);
      periods := periods + [(start, Clip(end, next.value))];
      index := index + 1;
    }
  }

  // ---------------------------------------------------------------- theorems

  ghost predicate ArePeriods(anchor: Civil, now: int, end: Option<int>, periods: seq<(int, int)>) {
    && (forall i :: 0 <= i < |periods| ==> Bills(anchor, now, end, i) && periods[i] == PeriodOf(anchor, end, i))
    && !Bills(anchor, now, end, |periods|)
  }

  lemma BillsEarlier(anchor: Civil, now: int, end: Option<int>, i: int, j: int)
    requires IsDate(anchor) && Bills(anchor, now, end, j) && i <= j
    ensures Bills(anchor, now, end, i)
  {
    hide StartOf, LAST;
    if i < j {
      StartsIncrease(anchor, i, j);
      StartsIncrease(anchor, i + 1, j + 1);
    }
  }

  /** Starts strictly increase, each period ends where the next begins, and only the last can be
      cut short by the plan's end; the first starts with the plan, and every start keeps the
      plan's time of day and its day of the month, or the last of a shorter month. */
  lemma PeriodsTile(periodStart: int, end: Option<int>, now: int, periods: seq<(int, int)>, i: nat)
    requires ArePeriods(CivilOf(periodStart), now, end, periods) && i < |periods|
    ensures periods[0].0 == periodStart && periods[i].0 < periods[i].1 && periods[i].0 <= now
    ensures i + 1 < |periods| ==> periods[i].1 == periods[i + 1].0
    ensures var c, anchor := CivilOf(periods[i].0), CivilOf(periodStart);
            && c.month == anchor.month + i && c.time == anchor.time
            && c.day == Min(anchor.day, MonthLength(c.month))
  {
    hide MonthStart, MonthLength, CivilOf, InstantOf, LAST;
    var anchor := CivilOf(periodStart);
    StartsFollow(anchor, i);
    assert Bills(anchor, now, end, 0) && Bills(anchor, now, end, i);
    assert i + 1 < |periods| ==> Bills(anchor, now, end, i + 1);
    assert MonthAfter(anchor, 0) == anchor;
    DateReadsBack(MonthAfter(anchor, i));
  }

  /** No period runs past the plan's end, and one that ends before its month does ends there. */
  lemma PeriodsEndWithThePlan(periodStart: int, end: int, now: int, periods: seq<(int, int)>, i: nat)
    requires ArePeriods(CivilOf(periodStart), now, Some(end), periods) && i < |periods|
    ensures periods[i].0 < periods[i].1 <= end
    ensures periods[i].1 <= StartOf(CivilOf(periodStart), i + 1)
    ensures periods[i].1 != StartOf(CivilOf(periodStart), i + 1) ==> periods[i].1 == end && i == |periods| - 1
  {
    hide StartOf, CivilOf, LAST;
    var anchor := CivilOf(periodStart);
    StartsFollow(anchor, i);
    assert Bills(anchor, now, Some(end), i);
    if i + 1 < |periods| { assert Bills(anchor, now, Some(end), i + 1); }
  }

  lemma {:induction false} MonthOfInstant(anchor: Civil, t: int, i: nat) returns (k: nat)
    requires IsDate(anchor) && StartOf(anchor, 0) <= t < StartOf(anchor, i)
    ensures StartOf(anchor, k) <= t < StartOf(anchor, k + 1)
  {
    hide StartOf;
    if StartOf(anchor, i - 1) <= t {
      k := i - 1;
    } else {
      k := MonthOfInstant(anchor, t, i - 1);
    }
  }

  /** An instant lies in at most one period. */
  lemma PeriodsAreDisjoint(periodStart: int, end: Option<int>, now: int, periods: seq<(int, int)>, t: int, i: nat,
      j: nat)
    requires ArePeriods(CivilOf(periodStart), now, end, periods) && i < |periods| && j < |periods|
    requires periods[i].0 <= t < periods[i].1 && periods[j].0 <= t < periods[j].1
    ensures i == j
  {
    hide StartOf, CivilOf, LAST;
    var anchor := CivilOf(periodStart);
    if i < j && i + 1 != j { StartsIncrease(anchor, i + 1, j); }
    if j < i && j + 1 != i { StartsIncrease(anchor, j + 1, i); }
  }

  /** Some later billing month can still be written down. */
  ghost predicate HasLaterMonth(anchor: Civil, t: int) {
    exists i: nat :: t < StartOf(anchor, i) <= LAST
  }

  /** An instant of the plan up to now lies in a period, unless the calendar itself ends first. */
  lemma EveryInstantIsBilled(periodStart: int, end: Option<int>, now: int, periods: seq<(int, int)>, t: int)
    requires ArePeriods(CivilOf(periodStart), now, end, periods)
    requires periodStart <= t <= now && (end.Some? ==> t < end.value)
    ensures (exists i :: 0 <= i < |periods| && periods[i].0 <= t < periods[i].1) <==>
              HasLaterMonth(CivilOf(periodStart), t)
  {
    var anchor := CivilOf(periodStart);
    FirstStart(anchor);
    hide StartOf, CivilOf, LAST, InstantOf, MonthLength;
    if HasLaterMonth(anchor, t) {
      var i: nat :| t < StartOf(anchor, i) <= LAST;
      var k := MonthOfInstant(anchor, t, i);
      NextStart(anchor, k, i, t);
      assert Bills(anchor, now, end, k);
      if |periods| <= k { BillsEarlier(anchor, now, end, |periods|, k); }
      assert periods[k] == PeriodOf(anchor, end, k);
    }
    if i :| 0 <= i < |periods| && periods[i].0 <= t < periods[i].1 {
      assert Bills(anchor, now, end, i);
      assert t < StartOf(anchor, i + 1);
    }
  }

  lemma FirstStart(anchor: Civil)
    requires IsDate(anchor)
    ensures StartOf(anchor, 0) == InstantOf(anchor)
  {
  }

  /** The month holding `t` ends no later than any start past `t`. */
  lemma NextStart(anchor: Civil, k: nat, i: nat, t: int)
    requires IsDate(anchor) && StartOf(anchor, k) <= t < StartOf(anchor, k + 1) && t < StartOf(anchor, i)
    ensures StartOf(anchor, k) < StartOf(anchor, k + 1) <= StartOf(anchor, i)
  {
    hide StartOf;
    if i < k { StartsIncrease(anchor, i, k); }
    if k + 1 < i { StartsIncrease(anchor, k + 1, i); }
  }
}
