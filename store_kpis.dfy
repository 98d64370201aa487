/** The KPI cards of the admin dashboard: the calendar windows of a period
    (the current day, month or year and the one before it), the percent-change
    rule, and the counts and revenue sums over those windows. The clock's
    current local date is an input, records carry their local calendar date,
    and dates are local midnights. */
module StoreKpis {
  import opened Wrappers

  /** A local calendar date; `month` is 0-based like `Date.getMonth()`. */
  datatype Date = Date(year: int, month: int, day: int)

  predicate IsLeapYear(y: int) {
    (y % 4 == 0 && y % 100 != 0) || y % 400 == 0
  }

  function DaysInMonth(y: int, m: int): (n: int)
    requires 0 <= m < 12
    ensures 28 <= n <= 31
  {
    if m == 1 then (if IsLeapYear(y) then 29 else 28)
    else if m == 3 || m == 5 || m == 8 || m == 10 then 30
    else 31
  }

  predicate Valid(d: Date) {
    0 <= d.month < 12 && 1 <= d.day <= DaysInMonth(d.year, d.month)
  }

  /** Chronological order of midnights: `a < b`. */
  predicate Before(a: Date, b: Date) {
    a.year < b.year ||
    (a.year == b.year && (a.month < b.month || (a.month == b.month && a.day < b.day)))
  }

  /** Brings a day number that lies outside month `m` back into range by
      carrying into the neighbouring months, as the Date constructor does. */
  function Normalize(y: int, m: int, d: int): (r: Date)
    requires 0 <= m < 12
    ensures Valid(r)
    decreases if d < 1 then 1 else 0, if d < 1 then 1 - d else d
  {
    if d < 1 then
      var py := if m == 0 then y - 1 else y;
      var pm := if m == 0 then 11 else m - 1;
      Normalize(py, pm, d + DaysInMonth(py, pm))
    else if d > DaysInMonth(y, m) then
      var ny := if m == 11 then y + 1 else y;
      var nm := if m == 11 then 0 else m + 1;
      Normalize(ny, nm, d - DaysInMonth(y, m))
    else
      Date(y, m, d)
  }

  /** The Date constructor at local midnight: a year argument of 0..99 means
      1900..1999, a month outside 0..11 carries into the year, and a day
      outside the month carries into the neighbouring months. */
  function MakeDate(y: int, m: int, d: int): (r: Date)
    ensures Valid(r)
  {
    var fullYear := if 0 <= y <= 99 then 1900 + y else y;
    Normalize(fullYear + m / 12, m % 12, d)
  }

  /** The four instants `getPeriodRanges` returns. */
  datatype Ranges = Ranges(start: Date, end: Date, prevStart: Date, prevEnd: Date)

  /** `getPeriodRanges(period)` with the clock's date `today`. The period is
      a plain string at run time: anything but "day" and "month" takes the
      year branch. */
  function PeriodRanges(period: string, today: Date): (r: Ranges)
    ensures r.prevEnd == r.start
    ensures period == "day" ==> r.start == MakeDate(today.year, today.month, today.day)
    ensures period == "month" ==> r.start == MakeDate(today.year, today.month, 1)
    ensures period != "day" && period != "month" ==>
              r.start == MakeDate(today.year, 0, 1) && r.end == MakeDate(today.year + 1, 0, 1)
  {
    var year, month, day := today.year, today.month, today.day;
    if period == "day" then
      var start := MakeDate(year, month, day);
      Ranges(start, MakeDate(year, month, day + 1), MakeDate(year, month, day - 1), start)
    else if period == "month" then
      var start := MakeDate(year, month, 1);
      Ranges(start, MakeDate(year, month + 1, 1), MakeDate(year, month - 1, 1), start)
    else
      var start := MakeDate(year, 0, 1);
      Ranges(start, MakeDate(year + 1, 0, 1), MakeDate(year - 1, 0, 1), start)
  }

  /** A date the clock can report; before year 101 the two-digit year rule
      of the Date constructor moves `year - 1` into the 1900s. */
  predicate ClockDate(today: Date) {
    Valid(today) && today.year >= 101
  }

  /** The day after a valid date, with month and year rollover. */
  function NextDay(t: Date): Date
    requires Valid(t)
  {
    if t.day < DaysInMonth(t.year, t.month) then Date(t.year, t.month, t.day + 1)
    else if t.month < 11 then Date(t.year, t.month + 1, 1)
    else Date(t.year + 1, 0, 1)
  }

  /** The day before a valid date, with month and year rollback. */
  function PrevDay(t: Date): Date
    requires Valid(t)
  {
    if t.day > 1 then Date(t.year, t.month, t.day - 1)
    else if t.month > 0 then Date(t.year, t.month - 1, DaysInMonth(t.year, t.month - 1))
    else Date(t.year - 1, 11, 31)
  }

  /** Day period: today's midnight to the next day's, the previous window
      starting at yesterday's midnight. */
  lemma DayRanges(today: Date)
    requires ClockDate(today)
    ensures PeriodRanges("day", today) ==
            Ranges(today, NextDay(today), PrevDay(today), today)
  {
    var y, m, d := today.year, today.month, today.day;
    assert MakeDate(y, m, d) == today;
    assert MakeDate(y, m, d + 1) == Normalize(y, m, d + 1);
    if d < DaysInMonth(y, m) {
      assert Normalize(y, m, d + 1) == NextDay(today);
    } else if m < 11 {
      assert Normalize(y, m, d + 1) == Normalize(y, m + 1, 1);
    } else {
      assert Normalize(y, m, d + 1) == Normalize(y + 1, 0, 1);
    }
    assert MakeDate(y, m, d - 1) == Normalize(y, m, d - 1);
    if d > 1 {
      assert Normalize(y, m, d - 1) == PrevDay(today);
    } else if m > 0 {
      assert Normalize(y, m, d - 1) == Normalize(y, m - 1, DaysInMonth(y, m - 1));
    } else {
      assert Normalize(y, m, d - 1) == Normalize(y - 1, 11, 31);
    }
  }

  /** Month period: the first of this month to the first of the next,
      December rolling over to January of the next year; the previous window
      starts on the first of the previous month, January rolling back to
      December of the year before. */
  lemma MonthRanges(today: Date)
    requires ClockDate(today)
    ensures var r := PeriodRanges("month", today);
      && r.start == Date(today.year, today.month, 1)
      && r.end == (if today.month == 11 then Date(today.year + 1, 0, 1)
                   else Date(today.year, today.month + 1, 1))
      && r.prevStart == (if today.month == 0 then Date(today.year - 1, 11, 1)
                         else Date(today.year, today.month - 1, 1))
      && r.prevEnd == r.start
  {
  }

  /** Year period: Jan 1 of this year to Jan 1 of the next, the previous
      window starting on Jan 1 of the year before. */
  lemma YearRanges(today: Date)
    requires ClockDate(today)
    ensures PeriodRanges("year", today) ==
            Ranges(Date(today.year, 0, 1), Date(today.year + 1, 0, 1),
                   Date(today.year - 1, 0, 1), Date(today.year, 0, 1))
  {
  }

  /** Any period string other than "day" and "month" is treated as "year". */
  lemma OtherPeriodIsYear(period: string, today: Date)
    requires period != "day" && period != "month"
    ensures PeriodRanges(period, today) == PeriodRanges("year", today)
  {
  }

  /** In every branch both windows are non-empty and adjacent: the previous
      window ends where the current one starts. */
  lemma RangesOrdered(period: string, today: Date)
    requires ClockDate(today)
    ensures var r := PeriodRanges(period, today);
      Before(r.start, r.end) && Before(r.prevStart, r.prevEnd) && r.prevEnd == r.start
  {
    if period == "day" {
      DayRanges(today);
    } else if period == "month" {
      MonthRanges(today);
    } else {
      YearRanges(today);
    }
  }

  /** The window is half-open: from `lo` included to `hi` excluded. */
  predicate InWindow(x: Date, lo: Date, hi: Date) {
    !Before(x, lo) && Before(x, hi)
  }

  /** The day windows hold exactly one calendar day each: today, and the day
      before. */
  lemma DayWindowIsOneDay(today: Date, x: Date)
    requires ClockDate(today) && Valid(x)
    ensures var r := PeriodRanges("day", today);
      && (InWindow(x, r.start, r.end) <==> x == today)
      && (InWindow(x, r.prevStart, r.prevEnd) <==> x == PrevDay(today))
  {
    DayRanges(today);
  }

  /** The month windows hold exactly the days of this month and of the
      previous month. */
  lemma MonthWindowIsOneMonth(today: Date, x: Date)
    requires ClockDate(today) && Valid(x)
    ensures var r := PeriodRanges("month", today);
      && (InWindow(x, r.start, r.end) <==> x.year == today.year && x.month == today.month)
      && (InWindow(x, r.prevStart, r.prevEnd) <==>
            if today.month == 0 then x.year == today.year - 1 && x.month == 11
            else x.year == today.year && x.month == today.month - 1)
  {
    MonthRanges(today);
  }

  /** The year windows hold exactly the days of this year and the previous. */
  lemma YearWindowIsOneYear(today: Date, x: Date)
    requires ClockDate(today) && Valid(x)
    ensures var r := PeriodRanges("year", today);
      && (InWindow(x, r.start, r.end) <==> x.year == today.year)
      && (InWindow(x, r.prevStart, r.prevEnd) <==> x.year == today.year - 1)
  {
    YearRanges(today);
  }

  /** What the two-digit year rule does at year 100: the previous year window
      starts in 1999, after the current window. */
  lemma TwoDigitYearAtYear100()
    ensures PeriodRanges("year", Date(100, 5, 10)).prevStart == Date(1999, 0, 1)
  {
  }

  /** `pctChange(current, previous)` */
  function PctChange(current: real, previous: real): (r: real)
    ensures previous == 0.0 ==> r == (if current == 0.0 then 0.0 else 100.0)
    ensures previous != 0.0 ==> (r == 0.0 <==> current == previous)
    ensures previous != 0.0 ==> (r > 0.0 <==> current > previous)
    ensures previous != 0.0 ==> (r < 0.0 <==> current < previous)
    ensures previous != 0.0 ==> r * (if previous < 0.0 then -previous else previous) == (current - previous) * 100.0
  {
    if previous == 0.0 then (if current == 0.0 then 0.0 else 100.0)
    else
      var mag := if previous < 0.0 then -previous else previous;
      ((current - previous) / mag) * 100.0
  }

  /** An order as the KPI queries see it. */
  datatype OrderRecord = OrderRecord(createdAt: Date, totalAmount: Option<real>)

  function CountDates(ds: seq<Date>, lo: Date, hi: Date): nat {
    if ds == [] then 0
    else CountDates(ds[..|ds| - 1], lo, hi) + (if InWindow(ds[|ds| - 1], lo, hi) then 1 else 0)
  }

  function Count(os: seq<OrderRecord>, lo: Date, hi: Date): nat {
    if os == [] then 0
    else Count(os[..|os| - 1], lo, hi) + (if InWindow(os[|os| - 1].createdAt, lo, hi) then 1 else 0)
  }

  /** The sum aggregate of the total amounts: the sum of the non-null amounts
      of the orders in the window, null when there is none. */
  function SumAggregate(os: seq<OrderRecord>, lo: Date, hi: Date): Option<real> {
    if os == [] then None
    else
      var acc := SumAggregate(os[..|os| - 1], lo, hi);
      var o := os[|os| - 1];
      if InWindow(o.createdAt, lo, hi) && o.totalAmount.Some? then
        Some(acc.GetOr(0.0) + o.totalAmount.value)
      else acc
  }

  /** The plain total of the window, a null amount counting as 0. */
  function WindowTotal(os: seq<OrderRecord>, lo: Date, hi: Date): real {
    if os == [] then 0.0
    else
      var o := os[|os| - 1];
      WindowTotal(os[..|os| - 1], lo, hi) +
        (if InWindow(o.createdAt, lo, hi) then o.totalAmount.GetOr(0.0) else 0.0)
  }

  /** The revenue, a missing sum read as 0, is the window total with null amounts
      counted as 0, and 0 for an empty window. */
  lemma {:induction false} RevenueIsWindowTotal(os: seq<OrderRecord>, lo: Date, hi: Date)
    ensures SumAggregate(os, lo, hi).GetOr(0.0) == WindowTotal(os, lo, hi)
  {
    if os != [] {
      RevenueIsWindowTotal(os[..|os| - 1], lo, hi);
    }
  }

  datatype Kpis = Kpis(
    period: string, start: Date, end: Date,
    totalProducts: nat, productsInPeriod: nat, productsPrevPeriod: nat, productsChange: real,
    ordersInPeriod: nat, ordersPrevPeriod: nat, ordersChange: real,
    revenue: real, revenuePrev: real, revenueChange: real)

  /** `getStoreKpis(period)` over the product creation dates and the orders. */
  function StoreKpis(period: string, today: Date, products: seq<Date>, orders: seq<OrderRecord>): (k: Kpis)
    ensures k.period == period && k.totalProducts == |products|
    ensures k.start == PeriodRanges(period, today).start && k.end == PeriodRanges(period, today).end
    ensures k.productsInPeriod <= |products| && k.ordersInPeriod <= |orders| && k.ordersPrevPeriod <= |orders|
  {
    var r := PeriodRanges(period, today);
    CountDatesBound(products, r.start, r.end);
    CountBound(orders, r.start, r.end);
    CountBound(orders, r.prevStart, r.prevEnd);
    var productsIn := CountDates(products, r.start, r.end);
    var productsPrev := CountDates(products, r.prevStart, r.prevEnd);
    var ordersIn := Count(orders, r.start, r.end);
    var ordersPrev := Count(orders, r.prevStart, r.prevEnd);
    var revenue := SumAggregate(orders, r.start, r.end).GetOr(0.0);
    var revenuePrev := SumAggregate(orders, r.prevStart, r.prevEnd).GetOr(0.0);
    Kpis(period, r.start, r.end,
         |products|, productsIn, productsPrev, PctChange(productsIn as real, productsPrev as real),
         ordersIn, ordersPrev, PctChange(ordersIn as real, ordersPrev as real),
         revenue, revenuePrev, PctChange(revenue, revenuePrev))
  }

  /** Orders counted in two adjacent windows are counted in their union. */
  lemma {:induction false} CountAdjacent(os: seq<OrderRecord>, a: Date, b: Date, c: Date)
    requires !Before(b, a) && !Before(c, b)
    ensures Count(os, a, b) + Count(os, b, c) == Count(os, a, c)
  {
    if os != [] {
      CountAdjacent(os[..|os| - 1], a, b, c);
    }
  }

  /** The KPI record's fields: the products-in-period count never exceeds the
      catalog size, the revenue is the window total, and each change field
      follows the percent-change rule on its current and previous values. */
  lemma {:induction false} KpisProperties(period: string, today: Date, products: seq<Date>, orders: seq<OrderRecord>)
    ensures var k := StoreKpis(period, today, products, orders);
      var r := PeriodRanges(period, today);
      && k.productsInPeriod <= k.totalProducts
      && k.productsPrevPeriod <= k.totalProducts
      && k.ordersInPeriod <= |orders|
      && k.revenue == WindowTotal(orders, r.start, r.end)
      && k.revenuePrev == WindowTotal(orders, r.prevStart, r.prevEnd)
      && k.productsChange == PctChange(k.productsInPeriod as real, k.productsPrevPeriod as real)
      && k.ordersChange == PctChange(k.ordersInPeriod as real, k.ordersPrevPeriod as real)
      && k.revenueChange == PctChange(k.revenue, k.revenuePrev)
      && k.revenueChange == PctChange(WindowTotal(orders, r.start, r.end), WindowTotal(orders, r.prevStart, r.prevEnd))
      && (k.productsPrevPeriod == 0 ==> k.productsChange == (if k.productsInPeriod == 0 then 0.0 else 100.0))
      && (k.ordersPrevPeriod > 0 ==> (k.ordersChange > 0.0 <==> k.ordersInPeriod > k.ordersPrevPeriod))
  {
    var r := PeriodRanges(period, today);
    CountDatesBound(products, r.start, r.end);
    CountDatesBound(products, r.prevStart, r.prevEnd);
    CountBound(orders, r.start, r.end);
    RevenueIsWindowTotal(orders, r.start, r.end);
    RevenueIsWindowTotal(orders, r.prevStart, r.prevEnd);
  }

  lemma {:induction false} CountDatesBound(ds: seq<Date>, lo: Date, hi: Date)
    ensures CountDates(ds, lo, hi) <= |ds|
  {
    if ds != [] {
      CountDatesBound(ds[..|ds| - 1], lo, hi);
    }
  }

  lemma {:induction false} CountBound(os: seq<OrderRecord>, lo: Date, hi: Date)
    ensures Count(os, lo, hi) <= |os|
  {
    if os != [] {
      CountBound(os[..|os| - 1], lo, hi);
    }
  }
}
