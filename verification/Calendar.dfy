/** Time values and their calendar, as ECMA-262 section 21.4.1 defines them (milliseconds since
    1970-01-01 UTC, proleptic Gregorian), and the month arithmetic of upgrade orders. */
module Calendar {

  const MS_PER_DAY: int := 86400000

  function Day(t: int): int { t / MS_PER_DAY }

  function TimeWithinDay(t: int): int { t % MS_PER_DAY }

  function MakeDate(day: int, time: int): int { day * MS_PER_DAY + time }

  predicate Leap(y: int) {
    y % 4 == 0 && (y % 100 != 0 || y % 400 == 0)
  }

  function DayFromYear(y: int): int {
    365 * (y - 1970) + (y - 1969) / 4 - (y - 1901) / 100 + (y - 1601) / 400
  }

  /** Days of a year that precede month m. */
  function MonthOffset(m: int, leap: bool): int {
    (match m
     case 0 => 0
     case 1 => 31
     case 2 => 59
     case 3 => 90
     case 4 => 120
     case 5 => 151
     case 6 => 181
     case 7 => 212
     case 8 => 243
     case 9 => 273
     case 10 => 304
     case _ => 334) + if leap && m >= 2 then 1 else 0
  }

  /** Day number of a date whose month and day may lie outside their usual ranges. */
  function MakeDay(year: int, month: int, date: int): int {
    var ym := year + month / 12;
    DayFromYear(ym) + MonthOffset(month % 12, Leap(ym)) + date - 1
  }

  const EPOCH_MONTH: int := 12 * 1970

  /** Months are counted through: month m of year y has index 12 * y + m. */
  function DaysInMonth(k: int): (r: int)
    ensures 28 <= r <= 31
  {
    DaysInMonthOf(k / 12, k % 12)
  }

  function DaysInMonthOf(y: int, m: int): (r: int)
    ensures 28 <= r <= 31
  {
    match m
    case 1 => if Leap(y) then 29 else 28
    case 3 => 30
    case 5 => 30
    case 8 => 30
    case 10 => 30
    case _ => 31
  }

  /** Day number of the first day of a month, by counting month lengths from the epoch. */
  function MonthStart(k: int): int
    decreases if k < EPOCH_MONTH then EPOCH_MONTH - k else k - EPOCH_MONTH
  {
    if k == EPOCH_MONTH then 0
    else if k > EPOCH_MONTH then MonthStart(k - 1) + DaysInMonth(k - 1)
    else MonthStart(k + 1) - DaysInMonth(k)
  }

  lemma MonthLength(k: int)
    ensures MonthStart(k + 1) == MonthStart(k) + DaysInMonth(k)
  {
  }

  lemma LeapSteps4(y: int)
    ensures (y - 1968) / 4 == (y - 1969) / 4 + if y % 4 == 0 then 1 else 0
  {
  }

  lemma LeapSteps100(y: int)
    ensures (y - 1900) / 100 == (y - 1901) / 100 + if y % 100 == 0 then 1 else 0
  {
  }

  lemma LeapSteps400(y: int)
    ensures (y - 1600) / 400 == (y - 1601) / 400 + if y % 400 == 0 then 1 else 0
  {
  }

  lemma Multiple4(y: int, q: int)
    requires y == 4 * q
    ensures y % 4 == 0
  {
  }

  lemma Multiple100(y: int, q: int)
    requires y == 100 * q
    ensures y % 100 == 0
  {
  }

  lemma LeapDivides(y: int)
    ensures y % 400 == 0 ==> y % 100 == 0
    ensures y % 100 == 0 ==> y % 4 == 0
  {
    if y % 400 == 0 {
      Multiple100(y, 4 * (y / 400));
    }
    if y % 100 == 0 {
      Multiple4(y, 25 * (y / 100));
    }
  }

  lemma YearLength(y: int)
    ensures DayFromYear(y + 1) == DayFromYear(y) + if Leap(y) then 366 else 365
  {
    LeapSteps4(y);
    LeapSteps100(y);
    LeapSteps400(y);
    LeapDivides(y);
  }

  /** The closed form for a month inside its year. */
  function FirstOf(y: int, m: int): int {
    DayFromYear(y) + MonthOffset(m, Leap(y))
  }

  lemma FirstOfNext(y: int, m: int)
    requires 0 <= m < 12
    ensures (if m < 11 then FirstOf(y, m + 1) else FirstOf(y + 1, 0)) == FirstOf(y, m) + DaysInMonthOf(y, m)
  {
    if m == 11 {
      YearLength(y);
    }
  }

  lemma NextIndex(k: int)
    ensures k % 12 < 11 ==> (k + 1) / 12 == k / 12 && (k + 1) % 12 == k % 12 + 1
    ensures k % 12 == 11 ==> (k + 1) / 12 == k / 12 + 1 && (k + 1) % 12 == 0
  {
  }

  lemma ClosedFormStep(k: int)
    ensures FirstOf((k + 1) / 12, (k + 1) % 12) == FirstOf(k / 12, k % 12) + DaysInMonth(k)
  {
    NextIndex(k);
    FirstOfNext(k / 12, k % 12);
  }

  /** Counting months one by one agrees with the closed form of the year and month formulas. */
  lemma {:induction false} MonthStartClosedForm(k: int)
    ensures MonthStart(k) == FirstOf(k / 12, k % 12)
    decreases if k < EPOCH_MONTH then EPOCH_MONTH - k else k - EPOCH_MONTH
  {
    if k > EPOCH_MONTH {
      MonthStartClosedForm(k - 1);
      ClosedFormStep(k - 1);
    } else if k < EPOCH_MONTH {
      MonthStartClosedForm(k + 1);
      ClosedFormStep(k);
    }
  }

  /** Normalisation: out-of-range months carry into the year. */
  lemma MakeDayByIndex(year: int, month: int, date: int)
    ensures MakeDay(year, month, date) == MonthStart(12 * year + month) + date - 1
  {
    assert (12 * year + month) / 12 == year + month / 12;
    assert (12 * year + month) % 12 == month % 12;
    MonthStartClosedForm(12 * year + month);
  }

  lemma {:induction false} MonthsGrow(j: int, k: int)
    requires j <= k
    ensures 28 * (k - j) <= MonthStart(k) - MonthStart(j) <= 31 * (k - j)
    decreases k - j
  {
    if j == k {
    } else {
      MonthsGrow(j, k - 1);
      MonthLength(k - 1);
    }
  }

  function MonthAtOrAfter(d: int, k: int): (r: int)
    requires MonthStart(k) <= d
    ensures MonthStart(r) <= d < MonthStart(r + 1)
    decreases d - MonthStart(k)
  {
    MonthLength(k);
    if d < MonthStart(k + 1) then k else MonthAtOrAfter(d, k + 1)
  }

  function MonthBefore(d: int, k: int): (r: int)
    requires d < MonthStart(k)
    ensures MonthStart(r) <= d < MonthStart(r + 1)
    decreases MonthStart(k) - d
  {
    MonthLength(k - 1);
    if MonthStart(k - 1) <= d then k - 1 else MonthBefore(d, k - 1)
  }

  /** The month that contains a day. */
  function MonthOf(d: int): (k: int)
    ensures MonthStart(k) <= d < MonthStart(k + 1)
  {
    if MonthStart(EPOCH_MONTH) <= d then MonthAtOrAfter(d, EPOCH_MONTH) else MonthBefore(d, EPOCH_MONTH)
  }

  lemma MonthOfUnique(d: int, k: int)
    requires MonthStart(k) <= d < MonthStart(k + 1)
    ensures MonthOf(d) == k
  {
    var m := MonthOf(d);
    if m < k { MonthsGrow(m + 1, k); } else if k < m { MonthsGrow(k + 1, m); }
  }

  function YearFromDay(d: int): int { MonthOf(d) / 12 }

  function MonthFromDay(d: int): int { MonthOf(d) % 12 }

  function DateFromDay(d: int): int { d - MonthStart(MonthOf(d)) + 1 }

  /** Date.UTC reads a year from 0 to 99 as one of the twentieth century. */
  function FullYear(y: int): int {
    if 0 <= y <= 99 then 1900 + y else y
  }

  method DateUTC(year: int, month: int, date: int) returns (t: int)
    ensures Day(t) == MonthStart(12 * FullYear(year) + month) + date - 1
  {
    MakeDayByIndex(FullYear(year), month, date);
    t := MakeDate(MakeDay(FullYear(year), month, date), 0);
  }

  /** A mutable date object: its time value and the setters that normalise it. */
  class JsDate {
    var t: int

    constructor (time: int)
      ensures t == time
    {
      t := time;
    }

    function GetUTCDate(): int
      reads this
    {
      DateFromDay(Day(t))
    }

    function GetUTCMonth(): int
      reads this
    {
      MonthFromDay(Day(t))
    }

    function GetUTCFullYear(): int
      reads this
    {
      YearFromDay(Day(t))
    }

    method SetUTCDate(date: int)
      modifies this
      ensures Day(t) == MonthStart(MonthOf(Day(old(t)))) + date - 1
      ensures TimeWithinDay(t) == TimeWithinDay(old(t))
    {
      MakeDayByIndex(GetUTCFullYear(), GetUTCMonth(), date);
      t := MakeDate(MakeDay(GetUTCFullYear(), GetUTCMonth(), date), TimeWithinDay(t));
    }

    method SetUTCMonth(month: int)
      modifies this
      ensures Day(t) == MonthStart(12 * YearFromDay(Day(old(t))) + month) + DateFromDay(Day(old(t))) - 1
      ensures TimeWithinDay(t) == TimeWithinDay(old(t))
    {
      MakeDayByIndex(GetUTCFullYear(), month, GetUTCDate());
      t := MakeDate(MakeDay(GetUTCFullYear(), month, GetUTCDate()), TimeWithinDay(t));
    }
  }

  function Min(a: int, b: int): int { if a <= b then a else b }

  /** Length of the month that a month step lands in. The code asks for day 0 of the following
      month, and Date.UTC takes the year 0 for 1900, which unlike the year 0 has no 29th of
      February. */
  function LastDay(k: int, asCoded: bool): (last: int)
    ensures 28 <= last <= DaysInMonth(k)
  {
    if asCoded && k == 1 then 28 else DaysInMonth(k)
  }

  function Clamped(t: int, n: int, lastDay: int): int {
    MakeDate(MonthStart(MonthOf(Day(t)) + n) + Min(DateFromDay(Day(t)), lastDay) - 1, TimeWithinDay(t))
  }

  /** The same day of the month n months on, or the last day of that month if it is shorter, at
      the same time of day: as documented, or as coded. */
  function StepMonths(t: int, n: int, asCoded: bool): int {
    Clamped(t, n, LastDay(MonthOf(Day(t)) + n, asCoded))
  }

  function AddMonths(t: int, n: int): int {
    StepMonths(t, n, false)
  }

  function AddMonthsAsCoded(t: int, n: int): int {
    StepMonths(t, n, true)
  }

  lemma FullYearLeap(y: int)
    ensures Leap(FullYear(y)) == (Leap(y) && y != 0)
  {
  }

  lemma SplitMonth(k: int, n: int)
    ensures 12 * (k / 12) + (k % 12 + n) == k + n && 0 <= k % 12 < 12
  {
  }

  lemma SplitIndex(y: int, m: int)
    requires 0 <= m < 12
    ensures (12 * y + m) / 12 == y && (12 * y + m) % 12 == m
  {
  }

  lemma LastDayIsMonthLength(y: int, m: int, d: int)
    requires 0 <= m < 12
    requires d == MonthStart(12 * FullYear(y) + (m + 1)) - 1
    ensures DateFromDay(d) == LastDay(12 * y + m, true)
  {
    var j := 12 * FullYear(y) + m;
    MonthLength(j);
    MonthOfUnique(d, j);
    SplitIndex(FullYear(y), m);
    SplitIndex(y, m);
    FullYearLeap(y);
  }

  lemma FirstDayOf(d: int, k: int)
    requires d == MonthStart(k)
    ensures MonthOf(d) == k && DateFromDay(d) == 1
  {
    MonthLength(k);
    MonthOfUnique(d, k);
  }

  lemma ClampedIs(r: int, t: int, n: int, k: int, last: int)
    requires k == MonthOf(Day(t)) + n
    requires Day(r) == MonthStart(k) + Min(DateFromDay(Day(t)), last) - 1
    requires TimeWithinDay(r) == TimeWithinDay(t)
    ensures r == Clamped(t, n, last)
  {
  }

  method LastDayOfMonth(year: int, month: int) returns (last: int)
    requires 0 <= month < 12
    ensures last == LastDay(12 * year + month, true)
  {
    var t := DateUTC(year, month + 1, 0);
    var date := new JsDate(t);
    last := date.GetUTCDate();
    LastDayIsMonthLength(year, month, Day(t));
  }

  method AddCalendarMonths(date: JsDate, months: int) returns (result: JsDate)
    ensures fresh(result) && date.t == old(date.t)
    ensures result.t == AddMonthsAsCoded(date.t, months)
  {
    result := new JsDate(date.t);
    var dayOfMonth := result.GetUTCDate();
    ghost var k := MonthOf(Day(date.t));

    result.SetUTCDate(1);
    FirstDayOf(Day(result.t), k);
    SplitMonth(k, months);
    result.SetUTCMonth(result.GetUTCMonth() + months);
    FirstDayOf(Day(result.t), k + months);
    SplitMonth(k + months, 0);

    var year, month := result.GetUTCFullYear(), result.GetUTCMonth();
    var lastDayOfTargetMonth := LastDayOfMonth(year, month);
    result.SetUTCDate(Min(dayOfMonth, lastDayOfTargetMonth));
    ClampedIs(result.t, date.t, months, k + months, lastDayOfTargetMonth);
  }

  /** The code meets the documented rule exactly when it does not land on the 29th of February
      of the year 0; there it is a day short. */
  lemma AsCodedMeetsRule(t: int, n: int)
    ensures var leapDayOfYearZero := MonthOf(Day(t)) + n == 1 && DateFromDay(Day(t)) >= 29;
      && (AddMonthsAsCoded(t, n) == AddMonths(t, n) <==> !leapDayOfYearZero)
      && (leapDayOfYearZero ==> AddMonthsAsCoded(t, n) == AddMonths(t, n) - MS_PER_DAY)
  {
  }

  lemma FirstOfYear(k: int, y: int)
    requires k == 12 * y
    ensures MonthStart(k) == DayFromYear(y) && DaysInMonth(k) == 31
  {
    assert k / 12 == y && k % 12 == 0;
    MonthStartClosedForm(k);
  }

  lemma LastOfJanuary(d: int, k: int, y: int)
    requires k == 12 * y && d == DayFromYear(y) + 30
    ensures MonthOf(d) == k && DateFromDay(d) == 31
  {
    FirstOfYear(k, y);
    MonthLength(k);
    MonthOfUnique(d, k);
  }

  /** A month after any moment of the 31st of January of the year 0 it is a day short. */
  lemma YearZeroLosesItsLeapDay(t: int)
    requires Day(t) == DayFromYear(0) + 30
    ensures AddMonthsAsCoded(t, 1) == AddMonths(t, 1) - MS_PER_DAY
  {
    LastOfJanuary(Day(t), 0, 0);
    AsCodedMeetsRule(t, 1);
  }

  /** Where the result of a month step lies in the calendar. */
  lemma StepMonthsLands(t: int, n: int, asCoded: bool)
    ensures var k := MonthOf(Day(t)) + n;
      && MonthOf(Day(StepMonths(t, n, asCoded))) == k
      && DateFromDay(Day(StepMonths(t, n, asCoded))) == Min(DateFromDay(Day(t)), LastDay(k, asCoded))
      && TimeWithinDay(StepMonths(t, n, asCoded)) == TimeWithinDay(t)
  {
    var k := MonthOf(Day(t)) + n;
    MonthLength(k);
    MonthOfUnique(Day(StepMonths(t, n, asCoded)), k);
  }

  /** At least one month takes between 28n and 31n days. */
  lemma StepMonthsDuration(t: int, n: nat, asCoded: bool)
    requires n >= 1
    ensures 28 * n <= Day(StepMonths(t, n, asCoded)) - Day(t) <= 31 * n
  {
    var j := MonthOf(Day(t));
    StepMonthsLands(t, n, asCoded);
    MonthsGrow(j, j + n);
    MonthsGrow(j + 1, j + n);
    MonthLength(j);
  }

  /** A result lies before the start of every later month and not before the start of its own. */
  lemma LandsBefore(t: int, n: int, k: int, asCoded: bool)
    ensures MonthOf(Day(t)) + n < k ==> Day(StepMonths(t, n, asCoded)) < MonthStart(k)
    ensures MonthOf(Day(t)) + n == k ==> MonthStart(k) <= Day(StepMonths(t, n, asCoded))
  {
    var j := MonthOf(Day(t)) + n;
    StepMonthsLands(t, n, asCoded);
    if j < k {
      MonthsGrow(j + 1, k);
    }
  }

  lemma DayOrder(s: int, t: int)
    requires Day(s) < Day(t)
    ensures s < t
  {
  }

  /** A longer order always expires later. */
  lemma StepMonthsStrict(t: int, m: int, n: int, asCoded: bool)
    requires m < n
    ensures StepMonths(t, m, asCoded) < StepMonths(t, n, asCoded)
  {
    var k := MonthOf(Day(t)) + n;
    LandsBefore(t, m, k, asCoded);
    LandsBefore(t, n, k, asCoded);
    DayOrder(StepMonths(t, m, asCoded), StepMonths(t, n, asCoded));
  }

  lemma MonthOfMonotone(d: int, e: int)
    requires d <= e
    ensures MonthOf(d) <= MonthOf(e)
  {
    if MonthOf(e) < MonthOf(d) {
      MonthsGrow(MonthOf(e) + 1, MonthOf(d));
    }
  }

  lemma LaterMonthLandsLater(s: int, t: int, n: int, asCoded: bool)
    requires MonthOf(Day(s)) < MonthOf(Day(t))
    ensures Day(StepMonths(s, n, asCoded)) < Day(StepMonths(t, n, asCoded))
  {
    var k := MonthOf(Day(t)) + n;
    LandsBefore(s, n, k, asCoded);
    LandsBefore(t, n, k, asCoded);
  }

  /** Within a month, results fall on one day if and only if both days are clamped or they are one. */
  lemma SameMonthLands(s: int, t: int, n: int, asCoded: bool)
    requires MonthOf(Day(s)) == MonthOf(Day(t)) && Day(s) <= Day(t)
    ensures Day(StepMonths(s, n, asCoded)) <= Day(StepMonths(t, n, asCoded))
    ensures Day(StepMonths(s, n, asCoded)) == Day(StepMonths(t, n, asCoded))
       <==> Day(s) == Day(t) || LastDay(MonthOf(Day(s)) + n, asCoded) <= DateFromDay(Day(s))
  {
    StepMonthsLands(s, n, asCoded);
    StepMonthsLands(t, n, asCoded);
  }

  /** An order placed on a later day never expires on an earlier day. */
  lemma StepMonthsMonotone(s: int, t: int, n: int, asCoded: bool)
    requires Day(s) <= Day(t)
    ensures Day(StepMonths(s, n, asCoded)) <= Day(StepMonths(t, n, asCoded))
  {
    MonthOfMonotone(Day(s), Day(t));
    if MonthOf(Day(s)) < MonthOf(Day(t)) {
      LaterMonthLandsLater(s, t, n, asCoded);
    } else {
      SameMonthLands(s, t, n, asCoded);
    }
  }

  /** Placed on different days of one month, both clamped to the same last day, the order placed on
      the later day earlier in the day. */
  predicate ClampedOutOfOrder(s: int, t: int, n: int, asCoded: bool) {
    MonthOf(Day(s)) == MonthOf(Day(t)) && Day(s) < Day(t)
    && LastDay(MonthOf(Day(s)) + n, asCoded) <= DateFromDay(Day(s)) && TimeWithinDay(t) < TimeWithinDay(s)
  }

  /** To the millisecond, an order placed no later expires no later exactly when the two are not
      clamped out of order. */
  lemma StepMonthsOrderExactly(s: int, t: int, n: int, asCoded: bool)
    requires s <= t
    ensures StepMonths(s, n, asCoded) <= StepMonths(t, n, asCoded) <==> !ClampedOutOfOrder(s, t, n, asCoded)
  {
    assert Day(s) <= Day(t);
    MonthOfMonotone(Day(s), Day(t));
    StepMonthsLands(s, n, asCoded);
    StepMonthsLands(t, n, asCoded);
    var x, y := StepMonths(s, n, asCoded), StepMonths(t, n, asCoded);
    if MonthOf(Day(s)) < MonthOf(Day(t)) {
      LaterMonthLandsLater(s, t, n, asCoded);
      DayOrder(x, y);
    } else {
      SameMonthLands(s, t, n, asCoded);
      if Day(x) < Day(y) {
        DayOrder(x, y);
      }
    }
  }

  /** Whatever the year, at least one month on lies in the future. */
  lemma AddMonthsAsCodedLater(t: int, n: int)
    requires n >= 1
    ensures AddMonthsAsCoded(t, n) > t
  {
    StepMonthsDuration(t, n, true);
    DayOrder(t, AddMonthsAsCoded(t, n));
  }

  /** In 1970 an order of one month placed on 30 January at 23:00 outlives one placed on 31 January
      at 01:00. */
  lemma TimeOfDayIsNotMonotone()
    ensures var s, t := 29 * MS_PER_DAY + 82800000, 30 * MS_PER_DAY + 3600000;
      s < t && AddMonths(s, 1) > AddMonths(t, 1) && ClampedOutOfOrder(s, t, 1, false)
  {
    MonthOfUnique(29, EPOCH_MONTH);
    MonthOfUnique(30, EPOCH_MONTH);
  }
}
