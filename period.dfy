/** The period dimension: Monday-start weeks clipped to their month
    (`get_week_ranges`) and the year / quarter / month / week table with a
    dense depth-first `date_key` (`generate_dim_period`). */
module PeriodDimension {
  import opened Common
  import opened Calendar

  /** One week of a month; `start` and `end` are days of that month. */
  datatype WeekRange = WeekRange(week: int, start: int, end: int)

  function Min(a: int, b: int): int { if a <= b then a else b }
  function Max(a: int, b: int): int { if a >= b then a else b }

  /** The weeks of month `m` of year `y` from day `cur` on, numbered from `num`:
      each runs from the Monday on or before `cur` to the following Sunday,
      both clipped to the month. */
  function WeeksFrom(y: int, m: int, cur: int, num: int): seq<WeekRange>
    requires ValidMonth(y, m) && 1 <= cur
    decreases DaysInMonth(y, m) + 1 - cur
  {
    if cur > DaysInMonth(y, m) then []
    else
      var monday := cur - Weekday(y, m, cur);
      var start := Max(monday, 1);
      var end := Min(monday + 6, DaysInMonth(y, m));
      [WeekRange(num, start, end)] + WeeksFrom(y, m, end + 1, num + 1)
  }

  function WeekRanges(y: int, m: int): seq<WeekRange>
    requires ValidMonth(y, m)
  {
    WeeksFrom(y, m, 1, 1)
  }

  /** `get_week_ranges(year, month)`. */
  method GetWeekRanges(y: int, m: int) returns (weeks: seq<WeekRange>)
    requires ValidMonth(y, m)
    ensures weeks == WeekRanges(y, m)
  {
    var lastDay := DaysInMonth(y, m);
    weeks := [];
    var current := 1;
    var weekNum := 1;
    while current <= lastDay
      invariant 1 <= current
      invariant weeks + WeeksFrom(y, m, current, weekNum) == WeekRanges(y, m)
      decreases lastDay + 1 - current
    {
      var daysSinceMonday := Weekday(y, m, current);
      var weekStart := current - daysSinceMonday;
      var weekEnd := weekStart + 6;
      if weekStart < 1 {
        weekStart := 1;
      }
      if weekEnd > lastDay {
        weekEnd := lastDay;
      }
      ghost var rest := WeeksFrom(y, m, weekEnd + 1, weekNum + 1);
      assert WeeksFrom(y, m, current, weekNum) == [WeekRange(weekNum, weekStart, weekEnd)] + rest;
      assert weeks + [WeekRange(weekNum, weekStart, weekEnd)] + rest
          == weeks + ([WeekRange(weekNum, weekStart, weekEnd)] + rest);
      weeks := weeks + [WeekRange(weekNum, weekStart, weekEnd)];
      current := weekEnd + 1;
      weekNum := weekNum + 1;
    }
    assert weeks + [] == weeks;
  }

  /** `ws` splits the days `first..last` into consecutive, non-empty runs of at
      most seven days, numbered `num, num + 1, ...`. */
  ghost predicate IsWeekPartition(ws: seq<WeekRange>, first: int, last: int, num: int) {
    && |ws| > 0
    && ws[0].start == first
    && ws[|ws| - 1].end == last
    && (forall i :: 0 <= i < |ws| ==> ws[i].week == num + i && ws[i].start <= ws[i].end <= ws[i].start + 6)
    && (forall i :: 0 <= i < |ws| - 1 ==> ws[i + 1].start == ws[i].end + 1)
  }

  /** What one step of `WeeksFrom` produces from a day that is the first of
      the month or a Monday. */
  lemma WeekStep(y: int, m: int, cur: int)
    requires ValidMonth(y, m) && 1 <= cur <= DaysInMonth(y, m)
    requires cur == 1 || Weekday(y, m, cur) == 0
    ensures Max(cur - Weekday(y, m, cur), 1) == cur
    ensures var end := Min(cur - Weekday(y, m, cur) + 6, DaysInMonth(y, m));
      && cur <= end <= cur + 6
      && (end < DaysInMonth(y, m) ==> Weekday(y, m, end) == 6 && Weekday(y, m, end + 1) == 0)
  {
    var wd := Weekday(y, m, cur);
    WeekdayShift(y, m, cur, 6 - wd);
    WeekdayShift(y, m, cur, 7 - wd);
  }

  lemma {:induction false} WeeksFromPartition(y: int, m: int, cur: int, num: int)
    requires ValidMonth(y, m) && 1 <= cur <= DaysInMonth(y, m)
    requires cur == 1 || Weekday(y, m, cur) == 0
    ensures IsWeekPartition(WeeksFrom(y, m, cur, num), cur, DaysInMonth(y, m), num)
    decreases DaysInMonth(y, m) + 1 - cur
  {
    var last := DaysInMonth(y, m);
    WeekStep(y, m, cur);
    var end := Min(cur - Weekday(y, m, cur) + 6, last);
    var ws := WeeksFrom(y, m, cur, num);
    var rest := WeeksFrom(y, m, end + 1, num + 1);
    assert ws == [WeekRange(num, cur, end)] + rest;
    if end < last {
      WeeksFromPartition(y, m, end + 1, num + 1);
      PartitionCons(WeekRange(num, cur, end), rest, last);
    } else {
      assert rest == [];
    }
  }

  /** A week put in front of a partition of the days after it extends the
      partition. */
  lemma PartitionCons(w: WeekRange, rest: seq<WeekRange>, last: int)
    requires w.start <= w.end <= w.start + 6
    requires IsWeekPartition(rest, w.end + 1, last, w.week + 1)
    ensures IsWeekPartition([w] + rest, w.start, last, w.week)
  {
    var ws := [w] + rest;
    forall i | 0 < i < |ws| ensures ws[i] == rest[i - 1] { }
  }

  /** Every week after the first starts on a Monday. */
  lemma {:induction false} WeeksFromStarts(y: int, m: int, cur: int, num: int)
    requires ValidMonth(y, m) && 1 <= cur <= DaysInMonth(y, m)
    requires cur == 1 || Weekday(y, m, cur) == 0
    ensures forall i :: 0 < i < |WeeksFrom(y, m, cur, num)| ==>
              Weekday(y, m, WeeksFrom(y, m, cur, num)[i].start) == 0
    decreases DaysInMonth(y, m) + 1 - cur
  {
    var last := DaysInMonth(y, m);
    WeekStep(y, m, cur);
    var end := Min(cur - Weekday(y, m, cur) + 6, last);
    var ws := WeeksFrom(y, m, cur, num);
    var rest := WeeksFrom(y, m, end + 1, num + 1);
    assert ws == [WeekRange(num, cur, end)] + rest;
    if end < last {
      WeeksFromStarts(y, m, end + 1, num + 1);
      WeekStep(y, m, end + 1);
      assert rest[0].start == end + 1;
      forall i | 0 < i < |ws| ensures Weekday(y, m, ws[i].start) == 0 {
        assert ws[i] == rest[i - 1];
      }
    }
  }

  /** Every week before the last ends on a Sunday. */
  lemma {:induction false} WeeksFromEnds(y: int, m: int, cur: int, num: int)
    requires ValidMonth(y, m) && 1 <= cur <= DaysInMonth(y, m)
    requires cur == 1 || Weekday(y, m, cur) == 0
    ensures forall i :: 0 <= i < |WeeksFrom(y, m, cur, num)| - 1 ==>
              Weekday(y, m, WeeksFrom(y, m, cur, num)[i].end) == 6
    decreases DaysInMonth(y, m) + 1 - cur
  {
    var last := DaysInMonth(y, m);
    WeekStep(y, m, cur);
    var end := Min(cur - Weekday(y, m, cur) + 6, last);
    var ws := WeeksFrom(y, m, cur, num);
    var rest := WeeksFrom(y, m, end + 1, num + 1);
    assert ws == [WeekRange(num, cur, end)] + rest;
    if end < last {
      WeeksFromEnds(y, m, end + 1, num + 1);
      forall i | 0 <= i < |ws| - 1 ensures Weekday(y, m, ws[i].end) == 6 {
        if i > 0 {
          assert ws[i] == rest[i - 1];
        }
      }
    } else {
      assert rest == [];
    }
  }

  /** The weeks of every month partition the month from day 1 to its last day;
      every week but the first starts on a Monday and every week but the last
      ends on a Sunday. */
  lemma WeekRangesPartition(y: int, m: int)
    requires ValidMonth(y, m)
    ensures IsWeekPartition(WeekRanges(y, m), 1, DaysInMonth(y, m), 1)
    ensures forall i :: 0 < i < |WeekRanges(y, m)| ==> Weekday(y, m, WeekRanges(y, m)[i].start) == 0
    ensures forall i :: 0 <= i < |WeekRanges(y, m)| - 1 ==> Weekday(y, m, WeekRanges(y, m)[i].end) == 6
  {
    WeeksFromPartition(y, m, 1, 1);
    WeeksFromStarts(y, m, 1, 1);
    WeeksFromEnds(y, m, 1, 1);
  }

  lemma {:induction false} PartitionOrdered(ws: seq<WeekRange>, first: int, last: int, num: int, i: int, j: int)
    requires IsWeekPartition(ws, first, last, num) && 0 <= i < j < |ws|
    ensures ws[i].end < ws[j].start
    decreases j - i
  {
    if j > i + 1 {
      PartitionOrdered(ws, first, last, num, i, j - 1);
    }
  }

  lemma {:induction false} PartitionCovers(ws: seq<WeekRange>, first: int, last: int, num: int, d: int)
    requires IsWeekPartition(ws, first, last, num) && first <= d <= last
    ensures exists i :: 0 <= i < |ws| && ws[i].start <= d <= ws[i].end
    decreases |ws|
  {
    if d > ws[0].end {
      assert |ws| > 1;
      var tail := ws[1..];
      assert IsWeekPartition(tail, ws[0].end + 1, last, num + 1) by {
        forall i | 0 <= i < |tail| ensures tail[i].week == num + 1 + i { assert tail[i] == ws[i + 1]; }
        forall i | 0 <= i < |tail| - 1 ensures tail[i + 1].start == tail[i].end + 1 { assert tail[i] == ws[i + 1]; }
      }
      PartitionCovers(tail, ws[0].end + 1, last, num + 1, d);
      var i :| 0 <= i < |tail| && tail[i].start <= d <= tail[i].end;
      assert ws[i + 1] == tail[i];
    }
  }

  /** Every day of a month lies in exactly one of its weeks. */
  lemma EveryDayInExactlyOneWeek(y: int, m: int, d: int)
    requires ValidDate(y, m, d)
    ensures exists i :: 0 <= i < |WeekRanges(y, m)| && WeekRanges(y, m)[i].start <= d <= WeekRanges(y, m)[i].end
    ensures forall i, j :: 0 <= i < |WeekRanges(y, m)| && 0 <= j < |WeekRanges(y, m)| &&
              WeekRanges(y, m)[i].start <= d <= WeekRanges(y, m)[i].end &&
              WeekRanges(y, m)[j].start <= d <= WeekRanges(y, m)[j].end
              ==> i == j
  {
    var ws := WeekRanges(y, m);
    WeekRangesPartition(y, m);
    PartitionCovers(ws, 1, DaysInMonth(y, m), 1, d);
    forall i, j | 0 <= i < |ws| && 0 <= j < |ws| && ws[i].start <= d <= ws[i].end && ws[j].start <= d <= ws[j].end
      ensures i == j
    {
      if i < j { PartitionOrdered(ws, 1, DaysInMonth(y, m), 1, i, j); }
      if j < i { PartitionOrdered(ws, 1, DaysInMonth(y, m), 1, j, i); }
    }
  }

  function SpanDays(ws: seq<WeekRange>): int {
    if ws == [] then 0 else (ws[0].end - ws[0].start + 1) + SpanDays(ws[1..])
  }

  lemma {:induction false} PartitionSpans(ws: seq<WeekRange>, first: int, last: int, num: int)
    requires IsWeekPartition(ws, first, last, num)
    ensures SpanDays(ws) == last - first + 1
    decreases |ws|
  {
    if |ws| > 1 {
      var tail := ws[1..];
      assert IsWeekPartition(tail, ws[0].end + 1, last, num + 1) by {
        forall i | 0 <= i < |tail| ensures tail[i].week == num + 1 + i { assert tail[i] == ws[i + 1]; }
        forall i | 0 <= i < |tail| - 1 ensures tail[i + 1].start == tail[i].end + 1 { assert tail[i] == ws[i + 1]; }
      }
      PartitionSpans(tail, ws[0].end + 1, last, num + 1);
    }
  }

  /** The day spans of a month's weeks add up to the length of the month. */
  lemma WeekSpansSumToMonth(y: int, m: int)
    requires ValidMonth(y, m)
    ensures SpanDays(WeekRanges(y, m)) == DaysInMonth(y, m)
  {
    WeekRangesPartition(y, m);
    PartitionSpans(WeekRanges(y, m), 1, DaysInMonth(y, m), 1);
  }

  lemma WeeksFromMonday(y: int, m: int, cur: int, num: int)
    requires ValidMonth(y, m) && 1 <= cur <= DaysInMonth(y, m) && Weekday(y, m, cur) == 0
    ensures WeeksFrom(y, m, cur, num)
         == [WeekRange(num, cur, Min(cur + 6, DaysInMonth(y, m)))] + WeeksFrom(y, m, Min(cur + 6, DaysInMonth(y, m)) + 1, num + 1)
  {
  }

  /** A 31-day month that starts on a Saturday has six week rows:
      1-2, 3-9, 10-16, 17-23, 24-30 and 31. */
  lemma SaturdayStartWeeks(y: int, m: int)
    requires ValidMonth(y, m) && DaysInMonth(y, m) == 31 && Weekday(y, m, 1) == 5
    ensures WeekRanges(y, m) == [WeekRange(1, 1, 2), WeekRange(2, 3, 9), WeekRange(3, 10, 16),
                                 WeekRange(4, 17, 23), WeekRange(5, 24, 30), WeekRange(6, 31, 31)]
  {
    WeekdayShift(y, m, 1, 2);
    WeekdayShift(y, m, 1, 9);
    WeekdayShift(y, m, 1, 16);
    WeekdayShift(y, m, 1, 23);
    WeekdayShift(y, m, 1, 30);
    WeeksFromMonday(y, m, 31, 6);
    WeeksFromMonday(y, m, 24, 5);
    WeeksFromMonday(y, m, 17, 4);
    WeeksFromMonday(y, m, 10, 3);
    WeeksFromMonday(y, m, 3, 2);
    assert WeeksFrom(y, m, 32, 7) == [];
    assert WeeksFrom(y, m, 1, 1) == [WeekRange(1, 1, 2)] + WeeksFrom(y, m, 3, 2);
  }

  /** 1 January 2022 is a Saturday, so January 2022 has six week rows. */
  lemma January2022Weeks()
    ensures WeekRanges(2022, 1) == [WeekRange(1, 1, 2), WeekRange(2, 3, 9), WeekRange(3, 10, 16),
                                    WeekRange(4, 17, 23), WeekRange(5, 24, 30), WeekRange(6, 31, 31)]
  {
    FirstOf2022IsSaturday();
    SaturdayStartWeeks(2022, 1);
  }

  // ---------------------------------------------------------------------------
  // The period table

  datatype Date = Date(year: int, month: int, day: int)

  /** One node of the calendar hierarchy; a coarser node leaves the finer
      fields `None`. */
  datatype Period = Period(year: int, quarter: Option<int>, month: Option<int>, week: Option<int>,
                           start: Date, end: Date)

  datatype PeriodRow = PeriodRow(dateKey: int, period: Period)

  /** 1 for a year row, 2 for a quarter row, 3 for a month row, 4 for a week row. */
  function PeriodLevel(p: Period): int {
    if p.quarter.None? then 1 else if p.month.None? then 2 else if p.week.None? then 3 else 4
  }

  function FirstMonthOf(q: int): int { 3 * q - 2 }
  function LastMonthOf(q: int): int { 3 * q }

  function YearPeriod(y: int): Period {
    Period(y, None, None, None, Date(y, 1, 1), Date(y, 12, 31))
  }

  function QuarterPeriod(y: int, q: int): Period
    requires 1 <= q <= 4
  {
    Period(y, Some(q), None, None, Date(y, FirstMonthOf(q), 1),
           Date(y, LastMonthOf(q), DaysInMonth(y, LastMonthOf(q))))
  }

  function MonthPeriod(y: int, q: int, m: int): Period
    requires 1 <= m <= 12
  {
    Period(y, Some(q), Some(m), None, Date(y, m, 1), Date(y, m, DaysInMonth(y, m)))
  }

  function WeekPeriod(y: int, q: int, m: int, w: WeekRange): Period {
    Period(y, Some(q), Some(m), Some(w.week), Date(y, m, w.start), Date(y, m, w.end))
  }

  function WeekPeriods(y: int, q: int, m: int, ws: seq<WeekRange>): seq<Period> {
    if ws == [] then [] else WeekPeriods(y, q, m, ws[..|ws| - 1]) + [WeekPeriod(y, q, m, ws[|ws| - 1])]
  }

  /** A month row followed by the rows of its weeks. */
  function MonthBlock(y: int, q: int, m: int): seq<Period>
    requires ValidMonth(y, m)
  {
    [MonthPeriod(y, q, m)] + WeekPeriods(y, q, m, WeekRanges(y, m))
  }

  /** The blocks of the months `first .. m - 1`, all labelled with quarter `q`. */
  function MonthsBetween(y: int, q: int, first: int, m: int): seq<Period>
    requires 1 <= first <= m <= 13
    decreases m
  {
    if m == first then [] else MonthsBetween(y, q, first, m - 1) + MonthBlock(y, q, m - 1)
  }

  /** A quarter row followed by the blocks of its three months. */
  function QuarterBlock(y: int, q: int): seq<Period>
    requires 1 <= q <= 4
  {
    [QuarterPeriod(y, q)] + MonthsBetween(y, q, FirstMonthOf(q), LastMonthOf(q) + 1)
  }

  /** The blocks of the quarters of year `y` that come before quarter `q`. */
  function QuartersOfYear(y: int, q: int): seq<Period>
    requires 1 <= q <= 5
  {
    if q == 1 then [] else QuartersOfYear(y, q - 1) + QuarterBlock(y, q - 1)
  }

  /** A year row followed by the blocks of its four quarters. */
  function YearBlock(y: int): seq<Period>
  {
    [YearPeriod(y)] + QuartersOfYear(y, 5)
  }

  /** The blocks of the years `first .. y - 1`. */
  function YearsFrom(first: int, y: int): seq<Period>
    decreases y - first
  {
    if y <= first then [] else YearsFrom(first, y - 1) + YearBlock(y - 1)
  }

  /** The whole table for the years `startYear .. endYear`, in depth-first order. */
  function PeriodTable(startYear: int, endYear: int): seq<Period>
  {
    YearsFrom(startYear, endYear + 1)
  }

  /** The source runs over 2022 .. 2025. */
  const StartYear: int := 2022
  const EndYear: int := 2025

  /** The rows that carry `ps` with the keys 1, 2, 3, ... */
  function KeyRows(ps: seq<Period>): (rows: seq<PeriodRow>)
    ensures |rows| == |ps|
  {
    if ps == [] then [] else KeyRows(ps[..|ps| - 1]) + [PeriodRow(|ps|, ps[|ps| - 1])]
  }

  lemma KeyRowsAppend(ps: seq<Period>, p: Period)
    ensures KeyRows(ps + [p]) == KeyRows(ps) + [PeriodRow(|ps| + 1, p)]
  {
    assert (ps + [p])[..|ps|] == ps;
  }

  lemma {:induction false} KeyRowsIndex(ps: seq<Period>)
    ensures forall i :: 0 <= i < |ps| ==> KeyRows(ps)[i] == PeriodRow(i + 1, ps[i])
  {
    if ps != [] {
      KeyRowsIndex(ps[..|ps| - 1]);
    }
  }

  /** The inner `for week_info in weeks` loop: one row per week of the month. */
  method AppendWeekRows(rows: seq<PeriodRow>, ghost done: seq<Period>, dateKey: int, y: int, q: int, m: int)
    returns (out: seq<PeriodRow>, nextKey: int)
    requires ValidMonth(y, m) && rows == KeyRows(done) && dateKey == |rows| + 1
    ensures out == KeyRows(done + WeekPeriods(y, q, m, WeekRanges(y, m))) && nextKey == |out| + 1
  {
    out, nextKey := rows, dateKey;
    var weeks := GetWeekRanges(y, m);
    assert done + WeekPeriods(y, q, m, weeks[..0]) == done;
    for k := 0 to |weeks|
      invariant out == KeyRows(done + WeekPeriods(y, q, m, weeks[..k])) && nextKey == |out| + 1
    {
      var wp := Period(y, Some(q), Some(m), Some(weeks[k].week),
                       Date(y, m, weeks[k].start), Date(y, m, weeks[k].end));
      ghost var before := done + WeekPeriods(y, q, m, weeks[..k]);
      assert weeks[..k + 1][..k] == weeks[..k];
      assert before + [wp] == done + WeekPeriods(y, q, m, weeks[..k + 1]);
      KeyRowsAppend(before, wp);
      out, nextKey := out + [PeriodRow(nextKey, wp)], nextKey + 1;
    }
    assert weeks[..|weeks|] == WeekRanges(y, m);
  }

  /** One pass of the month loop: the month row, then its weeks. */
  method AppendMonth(rows: seq<PeriodRow>, ghost done: seq<Period>, dateKey: int, y: int, q: int, m: int)
    returns (out: seq<PeriodRow>, nextKey: int)
    requires ValidMonth(y, m) && rows == KeyRows(done) && dateKey == |rows| + 1
    ensures out == KeyRows(done + MonthBlock(y, q, m)) && nextKey == |out| + 1
  {
    var mp := Period(y, Some(q), Some(m), None, Date(y, m, 1), Date(y, m, DaysInMonth(y, m)));
    KeyRowsAppend(done, mp);
    out, nextKey := AppendWeekRows(rows + [PeriodRow(dateKey, mp)], done + [mp], dateKey + 1, y, q, m);
    assert done + [mp] + WeekPeriods(y, q, m, WeekRanges(y, m)) == done + MonthBlock(y, q, m);
  }

  lemma AppendAssoc<T>(a: seq<T>, b: seq<T>, c: seq<T>)
    ensures a + b + c == a + (b + c)
  {
  }

  lemma MonthsBetweenStep(y: int, q: int, first: int, m: int)
    requires 1 <= first <= m <= 12
    ensures MonthsBetween(y, q, first, m + 1) == MonthsBetween(y, q, first, m) + MonthBlock(y, q, m)
  {
  }

  lemma QuartersOfYearStep(y: int, q: int)
    requires 1 <= q <= 4
    ensures QuartersOfYear(y, q + 1) == QuartersOfYear(y, q) + QuarterBlock(y, q)
  {
  }

  /** The month loop of one quarter, over `first .. last`. */
  method AppendMonths(rows: seq<PeriodRow>, ghost done: seq<Period>, dateKey: int, y: int, q: int,
                      first: int, last: int)
    returns (out: seq<PeriodRow>, nextKey: int)
    requires 1 <= first <= last + 1 <= 13 && rows == KeyRows(done) && dateKey == |rows| + 1
    ensures out == KeyRows(done + MonthsBetween(y, q, first, last + 1)) && nextKey == |out| + 1
  {
    out, nextKey := rows, dateKey;
    assert done + MonthsBetween(y, q, first, first) == done;
    for month := first to last + 1
      invariant out == KeyRows(done + MonthsBetween(y, q, first, month)) && nextKey == |out| + 1
    {
      out, nextKey := AppendMonth(out, done + MonthsBetween(y, q, first, month), nextKey, y, q, month);
      MonthsBetweenStep(y, q, first, month);
      AppendAssoc(done, MonthsBetween(y, q, first, month), MonthBlock(y, q, month));
    }
  }

  /** One pass of the quarter loop: the quarter row, then its three months. */
  method AppendQuarter(rows: seq<PeriodRow>, ghost done: seq<Period>, dateKey: int, y: int, q: int)
    returns (out: seq<PeriodRow>, nextKey: int)
    requires 1 <= q <= 4 && rows == KeyRows(done) && dateKey == |rows| + 1
    ensures out == KeyRows(done + QuarterBlock(y, q)) && nextKey == |out| + 1
  {
    var quarterStartMonth := (q - 1) * 3 + 1;
    var quarterEndMonth := q * 3;
    var qp := Period(y, Some(q), None, None, Date(y, quarterStartMonth, 1),
                     Date(y, quarterEndMonth, DaysInMonth(y, quarterEndMonth)));
    assert qp == QuarterPeriod(y, q);
    KeyRowsAppend(done, qp);
    out, nextKey := AppendMonths(rows + [PeriodRow(dateKey, qp)], done + [qp], dateKey + 1, y, q,
                                 quarterStartMonth, quarterEndMonth);
    AppendAssoc(done, [qp], MonthsBetween(y, q, FirstMonthOf(q), LastMonthOf(q) + 1));
  }

  /** One pass of the year loop: the year row, then its four quarters. */
  method AppendYear(rows: seq<PeriodRow>, ghost done: seq<Period>, dateKey: int, y: int)
    returns (out: seq<PeriodRow>, nextKey: int)
    requires rows == KeyRows(done) && dateKey == |rows| + 1
    ensures out == KeyRows(done + YearBlock(y)) && nextKey == |out| + 1
  {
    var yp := Period(y, None, None, None, Date(y, 1, 1), Date(y, 12, 31));
    KeyRowsAppend(done, yp);
    out, nextKey := rows + [PeriodRow(dateKey, yp)], dateKey + 1;
    ghost var head := done + [yp];
    assert head + QuartersOfYear(y, 1) == head;
    for quarter := 1 to 5
      invariant out == KeyRows(head + QuartersOfYear(y, quarter)) && nextKey == |out| + 1
    {
      ghost var before := head + QuartersOfYear(y, quarter);
      out, nextKey := AppendQuarter(out, before, nextKey, y, quarter);
      QuartersOfYearStep(y, quarter);
      AppendAssoc(head, QuartersOfYear(y, quarter), QuarterBlock(y, quarter));
    }
    AppendAssoc(done, [yp], QuartersOfYear(y, 5));
  }

  lemma YearsFromStep(startYear: int, year: int)
    requires startYear <= year
    ensures YearsFrom(startYear, year + 1) == YearsFrom(startYear, year) + YearBlock(year)
  {
  }

  /** `generate_dim_period` for the years `startYear .. endYear` (the source
      fixes them to `StartYear .. EndYear`): the rows of the depth-first
      table, keyed 1, 2, 3, ... (see `KeyRowsIndex`). */
  method GenerateDimPeriod(startYear: int, endYear: int) returns (rows: seq<PeriodRow>)
    requires startYear <= endYear + 1
    ensures rows == KeyRows(PeriodTable(startYear, endYear))
  {
    rows := [];
    var dateKey := 1;
    for year := startYear to endYear + 1
      invariant rows == KeyRows(YearsFrom(startYear, year)) && dateKey == |rows| + 1
    {
      rows, dateKey := AppendYear(rows, YearsFrom(startYear, year), dateKey, year);
      YearsFromStep(startYear, year);
    }
  }

  // ---------------------------------------------------------------------------
  // Shape of the table

  /** Number of rows of `ps` at hierarchy level `l`. */
  function LevelCount(ps: seq<Period>, l: int): nat {
    if ps == [] then 0 else (if PeriodLevel(ps[0]) == l then 1 else 0) + LevelCount(ps[1..], l)
  }

  lemma {:induction false} LevelCountAppend(a: seq<Period>, b: seq<Period>, l: int)
    ensures LevelCount(a + b, l) == LevelCount(a, l) + LevelCount(b, l)
  {
    if a != [] {
      assert (a + b)[1..] == a[1..] + b;
      LevelCountAppend(a[1..], b, l);
    } else {
      assert a + b == b;
    }
  }

  lemma {:induction false} WeekPeriodsLevels(y: int, q: int, m: int, ws: seq<WeekRange>, l: int)
    ensures LevelCount(WeekPeriods(y, q, m, ws), l) == if l == 4 then |ws| else 0
  {
    if ws != [] {
      WeekPeriodsLevels(y, q, m, ws[..|ws| - 1], l);
      LevelCountAppend(WeekPeriods(y, q, m, ws[..|ws| - 1]), [WeekPeriod(y, q, m, ws[|ws| - 1])], l);
    }
  }

  lemma MonthBlockLevels(y: int, q: int, m: int, l: int)
    requires ValidMonth(y, m) && l < 4
    ensures LevelCount(MonthBlock(y, q, m), l) == if l == 3 then 1 else 0
  {
    WeekPeriodsLevels(y, q, m, WeekRanges(y, m), l);
    LevelCountAppend([MonthPeriod(y, q, m)], WeekPeriods(y, q, m, WeekRanges(y, m)), l);
  }

  lemma {:induction false} MonthsBetweenLevels(y: int, q: int, first: int, m: int, l: int)
    requires 1 <= first <= m <= 13 && l < 4
    ensures LevelCount(MonthsBetween(y, q, first, m), l) == if l == 3 then m - first else 0
    decreases m
  {
    if m != first {
      MonthsBetweenLevels(y, q, first, m - 1, l);
      MonthBlockLevels(y, q, m - 1, l);
      LevelCountAppend(MonthsBetween(y, q, first, m - 1), MonthBlock(y, q, m - 1), l);
    }
  }

  lemma QuarterBlockLevels(y: int, q: int, l: int)
    requires 1 <= q <= 4 && l < 4
    ensures LevelCount(QuarterBlock(y, q), l) == if l == 2 then 1 else if l == 3 then 3 else 0
  {
    MonthsBetweenLevels(y, q, FirstMonthOf(q), LastMonthOf(q) + 1, l);
    LevelCountAppend([QuarterPeriod(y, q)], MonthsBetween(y, q, FirstMonthOf(q), LastMonthOf(q) + 1), l);
  }

  lemma {:induction false} QuartersOfYearLevels(y: int, q: int, l: int)
    requires 1 <= q <= 5 && l < 4
    ensures LevelCount(QuartersOfYear(y, q), l) == if l == 2 then q - 1 else if l == 3 then 3 * (q - 1) else 0
  {
    if q != 1 {
      QuartersOfYearLevels(y, q - 1, l);
      QuarterBlockLevels(y, q - 1, l);
      LevelCountAppend(QuartersOfYear(y, q - 1), QuarterBlock(y, q - 1), l);
    }
  }

  /** Every year contributes one year row, four quarter rows and twelve month rows. */
  lemma YearBlockLevels(y: int)
    ensures LevelCount(YearBlock(y), 1) == 1
    ensures LevelCount(YearBlock(y), 2) == 4
    ensures LevelCount(YearBlock(y), 3) == 12
  {
    forall l | 1 <= l <= 3
      ensures LevelCount(YearBlock(y), l) == if l == 1 then 1 else if l == 2 then 4 else 12
    {
      QuartersOfYearLevels(y, 5, l);
      LevelCountAppend([YearPeriod(y)], QuartersOfYear(y, 5), l);
    }
  }

  lemma {:induction false} YearsFromLevels(first: int, y: int)
    requires first <= y
    ensures LevelCount(YearsFrom(first, y), 1) == y - first
    ensures LevelCount(YearsFrom(first, y), 2) == 4 * (y - first)
    ensures LevelCount(YearsFrom(first, y), 3) == 12 * (y - first)
    decreases y - first
  {
    if y != first {
      YearsFromLevels(first, y - 1);
      YearBlockLevels(y - 1);
      LevelCountAppend(YearsFrom(first, y - 1), YearBlock(y - 1), 1);
      LevelCountAppend(YearsFrom(first, y - 1), YearBlock(y - 1), 2);
      LevelCountAppend(YearsFrom(first, y - 1), YearBlock(y - 1), 3);
    }
  }

  /** The table over `startYear .. endYear` has one year row per year, four
      quarter rows per year and twelve month rows per year. */
  lemma PeriodTableLevels(startYear: int, endYear: int)
    requires startYear <= endYear + 1
    ensures LevelCount(PeriodTable(startYear, endYear), 1) == endYear - startYear + 1
    ensures LevelCount(PeriodTable(startYear, endYear), 2) == 4 * (endYear - startYear + 1)
    ensures LevelCount(PeriodTable(startYear, endYear), 3) == 12 * (endYear - startYear + 1)
  {
    YearsFromLevels(startYear, endYear + 1);
  }

  /** What each row of the table promises: its dates lie in its own year,
      the fields finer than its level are empty, a quarter spans the first
      day of its first month to the last day of its last month, a month spans
      its whole month, and a week is one to seven days of one month. */
  ghost predicate WellFormedPeriod(p: Period) {
    && p.start.year == p.year && p.end.year == p.year
    && match PeriodLevel(p)
       case 1 =>
         && p.month.None? && p.week.None?
         && p.start == Date(p.year, 1, 1) && p.end == Date(p.year, 12, 31)
       case 2 =>
         var q := p.quarter.value;
         && p.week.None? && 1 <= q <= 4
         && p.start == Date(p.year, FirstMonthOf(q), 1)
         && p.end == Date(p.year, LastMonthOf(q), DaysInMonth(p.year, LastMonthOf(q)))
       case 3 =>
         var q := p.quarter.value;
         var m := p.month.value;
         && 1 <= q <= 4 && FirstMonthOf(q) <= m <= LastMonthOf(q)
         && p.start == Date(p.year, m, 1) && p.end == Date(p.year, m, DaysInMonth(p.year, m))
       case _ =>
         var q := p.quarter.value;
         var m := p.month.value;
         && 1 <= q <= 4 && FirstMonthOf(q) <= m <= LastMonthOf(q) && 1 <= p.week.value
         && p.start.month == m && p.end.month == m
         && 1 <= p.start.day <= p.end.day <= DaysInMonth(p.year, m)
         && p.end.day - p.start.day <= 6
  }

  ghost predicate AllWellFormed(ps: seq<Period>, firstYear: int, lastYear: int) {
    forall i :: 0 <= i < |ps| ==> WellFormedPeriod(ps[i]) && firstYear <= ps[i].year <= lastYear
  }

  lemma AllWellFormedAppend(a: seq<Period>, b: seq<Period>, firstYear: int, lastYear: int)
    requires AllWellFormed(a, firstYear, lastYear) && AllWellFormed(b, firstYear, lastYear)
    ensures AllWellFormed(a + b, firstYear, lastYear)
  {
    forall i | 0 <= i < |a + b|
      ensures WellFormedPeriod((a + b)[i]) && firstYear <= (a + b)[i].year <= lastYear
    {
      if i >= |a| { assert (a + b)[i] == b[i - |a|]; }
    }
  }

  /** Every week of a partition lies between its first and last day. */
  lemma PartitionBounds(ws: seq<WeekRange>, first: int, last: int, num: int)
    requires IsWeekPartition(ws, first, last, num)
    ensures forall i :: 0 <= i < |ws| ==> first <= ws[i].start && ws[i].end <= last && num <= ws[i].week
  {
    forall i | 0 <= i < |ws| ensures first <= ws[i].start && ws[i].end <= last {
      if i > 0 { PartitionOrdered(ws, first, last, num, 0, i); }
      if i < |ws| - 1 { PartitionOrdered(ws, first, last, num, i, |ws| - 1); }
    }
  }

  lemma {:induction false} WeekPeriodsWellFormed(y: int, q: int, m: int, ws: seq<WeekRange>)
    requires 1 <= q <= 4 && FirstMonthOf(q) <= m <= LastMonthOf(q)
    requires forall i :: 0 <= i < |ws| ==>
               1 <= ws[i].week && 1 <= ws[i].start <= ws[i].end <= DaysInMonth(y, m) && ws[i].end - ws[i].start <= 6
    ensures AllWellFormed(WeekPeriods(y, q, m, ws), y, y)
  {
    if ws != [] {
      WeekPeriodsWellFormed(y, q, m, ws[..|ws| - 1]);
      var w := ws[|ws| - 1];
      assert WellFormedPeriod(WeekPeriod(y, q, m, w));
      AllWellFormedAppend(WeekPeriods(y, q, m, ws[..|ws| - 1]), [WeekPeriod(y, q, m, w)], y, y);
    }
  }

  lemma MonthBlockWellFormed(y: int, q: int, m: int)
    requires 1 <= q <= 4 && FirstMonthOf(q) <= m <= LastMonthOf(q)
    ensures AllWellFormed(MonthBlock(y, q, m), y, y)
  {
    var ws := WeekRanges(y, m);
    WeekRangesPartition(y, m);
    PartitionBounds(ws, 1, DaysInMonth(y, m), 1);
    WeekPeriodsWellFormed(y, q, m, ws);
    assert WellFormedPeriod(MonthPeriod(y, q, m));
    AllWellFormedAppend([MonthPeriod(y, q, m)], WeekPeriods(y, q, m, ws), y, y);
  }

  lemma {:induction false} MonthsBetweenWellFormed(y: int, q: int, m: int)
    requires 1 <= q <= 4 && FirstMonthOf(q) <= m <= LastMonthOf(q) + 1
    ensures AllWellFormed(MonthsBetween(y, q, FirstMonthOf(q), m), y, y)
    decreases m
  {
    if m != FirstMonthOf(q) {
      MonthsBetweenWellFormed(y, q, m - 1);
      MonthBlockWellFormed(y, q, m - 1);
      AllWellFormedAppend(MonthsBetween(y, q, FirstMonthOf(q), m - 1), MonthBlock(y, q, m - 1), y, y);
    }
  }

  lemma QuarterBlockWellFormed(y: int, q: int)
    requires 1 <= q <= 4
    ensures AllWellFormed(QuarterBlock(y, q), y, y)
  {
    MonthsBetweenWellFormed(y, q, LastMonthOf(q) + 1);
    assert WellFormedPeriod(QuarterPeriod(y, q));
    AllWellFormedAppend([QuarterPeriod(y, q)], MonthsBetween(y, q, FirstMonthOf(q), LastMonthOf(q) + 1), y, y);
  }

  lemma {:induction false} QuartersOfYearWellFormed(y: int, q: int)
    requires 1 <= q <= 5
    ensures AllWellFormed(QuartersOfYear(y, q), y, y)
  {
    if q != 1 {
      QuartersOfYearWellFormed(y, q - 1);
      QuarterBlockWellFormed(y, q - 1);
      AllWellFormedAppend(QuartersOfYear(y, q - 1), QuarterBlock(y, q - 1), y, y);
    }
  }

  lemma YearBlockWellFormed(y: int)
    ensures AllWellFormed(YearBlock(y), y, y)
  {
    QuartersOfYearWellFormed(y, 5);
    assert WellFormedPeriod(YearPeriod(y));
    AllWellFormedAppend([YearPeriod(y)], QuartersOfYear(y, 5), y, y);
  }

  lemma {:induction false} YearsFromWellFormed(first: int, y: int)
    requires first <= y
    ensures AllWellFormed(YearsFrom(first, y), first, y - 1)
    decreases y - first
  {
    if y != first {
      YearsFromWellFormed(first, y - 1);
      assert AllWellFormed(YearsFrom(first, y - 1), first, y - 1);
      YearBlockWellFormed(y - 1);
      assert AllWellFormed(YearBlock(y - 1), first, y - 1);
      AllWellFormedAppend(YearsFrom(first, y - 1), YearBlock(y - 1), first, y - 1);
    }
  }

  /** Every row of the table is well formed and belongs to one of the years
      `startYear .. endYear`. */
  lemma PeriodTableWellFormed(startYear: int, endYear: int)
    requires startYear <= endYear + 1
    ensures forall i :: 0 <= i < |PeriodTable(startYear, endYear)| ==>
              WellFormedPeriod(PeriodTable(startYear, endYear)[i]) &&
              startYear <= PeriodTable(startYear, endYear)[i].year <= endYear
  {
    YearsFromWellFormed(startYear, endYear + 1);
  }
}
