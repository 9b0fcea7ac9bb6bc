/**
 * The task layout engine: where the bar of a task goes inside the visible
 * window, as percentages of the window's width. A task wholly outside the
 * window is hidden; otherwise its dates are clipped to the window, its left
 * edge is placed at the start of its first visible month column, and its
 * width is the fraction of the days it covers in each visible month.
 */
module Layout {
  import opened Calendar

  /** `{ left, width, display }`: `visible` is `display: "flex"`, its negation `"none"`. */
  datatype Position = Position(left: real, width: real, visible: bool)

  /** The task's range clipped to the window: adjusted start and end month and day. */
  datatype Clipped = Clipped(startMonth: int, startDay: int, endMonth: int, endDay: int)

  /** `visibleEndMonth`: the last month index of the window. */
  function VisibleEnd(visStart: int, visCount: int): int {
    visStart + visCount - 1
  }

  /** The task ends before the window starts or starts after it ends. */
  predicate Culled(s: Date, e: Date, visStart: int, visCount: int) {
    e.month < visStart || s.month > VisibleEnd(visStart, visCount)
  }

  /**
   * Clipping to the window: a start before the window moves to day 1 of its
   * first month, an end after the window moves to the last day of its last
   * month. The clipped range lies in the window and, for an ordered task,
   * inside the task and in order.
   */
  function Clip(s: Date, e: Date, visStart: int, visCount: int): (c: Clipped)
    requires ValidDate(s) && ValidDate(e) && visCount > 0
    requires !Culled(s, e, visStart, visCount)
    ensures c.startMonth == if s.month < visStart then visStart else s.month
    ensures c.endMonth == if e.month > VisibleEnd(visStart, visCount) then VisibleEnd(visStart, visCount) else e.month
    ensures c.startDay == if s.month < visStart then 1 else s.day
    ensures ValidDate(Date(c.startMonth, c.startDay)) && ValidDate(Date(c.endMonth, c.endDay))
    ensures e.month > VisibleEnd(visStart, visCount) ==> c.endDay == DaysInMonth2025(c.endMonth)
    ensures e.month <= VisibleEnd(visStart, visCount) ==> c.endDay == e.day
    ensures visStart <= c.startMonth && c.endMonth <= VisibleEnd(visStart, visCount)
    ensures DateLe(s, e) ==>
      && DateLe(s, Date(c.startMonth, c.startDay))
      && DateLe(Date(c.startMonth, c.startDay), Date(c.endMonth, c.endDay))
      && DateLe(Date(c.endMonth, c.endDay), e)
  {
    var visibleEndMonth := VisibleEnd(visStart, visCount);
    var startOffset := if visStart - s.month > 0 then visStart - s.month else 0;
    var adjustedStartMonth := s.month + startOffset;
    var adjustedStartDay := if startOffset > 0 then 1 else s.day;
    var endOffset := if e.month - visibleEndMonth > 0 then e.month - visibleEndMonth else 0;
    var adjustedEndMonth := e.month - endOffset;
    var adjustedEndDay := if endOffset > 0 then DaysInMonth2025(adjustedEndMonth) else e.day;
    Clipped(adjustedStartMonth, adjustedStartDay, adjustedEndMonth, adjustedEndDay)
  }

  /** The width of one month column, `100 / visibleMonthsCount`. */
  function ColumnWidth(visCount: int): (w: real)
    requires visCount > 0
    ensures w > 0.0
  {
    100.0 / visCount as real
  }

  /** `((adjustedStartMonth - visibleStartMonth) / visibleMonthsCount) * 100`. */
  function LeftPercent(c: Clipped, visStart: int, visCount: int): real
    requires visCount > 0
  {
    ((c.startMonth - visStart) as real / visCount as real) * 100.0
  }

  /**
   * The width formula of the chart, with the lengths of the first and the
   * last month passed in: the covered share of one column when the clipped
   * range is one month; otherwise the share of the first month, the share of
   * the last month and one whole column of width `col` per month in between.
   */
  function BarWidth(c: Clipped, daysFirst: int, daysLast: int, col: real): real
    requires daysFirst > 0 && daysLast > 0
  {
    if c.startMonth == c.endMonth then
      ((c.endDay - c.startDay + 1) as real / daysFirst as real) * col
    else
      var monthsSpan := c.endMonth - c.startMonth + 1;
      var firstMonthPercentage := ((daysFirst - c.startDay + 1) as real / daysFirst as real) * col;
      var lastMonthPercentage := (c.endDay as real / daysLast as real) * col;
      var middleMonthsPercentage := if monthsSpan > 2 then (monthsSpan - 2) as real * col else 0.0;
      firstMonthPercentage + lastMonthPercentage + middleMonthsPercentage
  }

  /**
   * `calculateTaskPosition` as written: the month lengths in the width are
   * those of the task's own start and end months, taken before clipping.
   */
  function TaskPosition(s: Date, e: Date, visStart: int, visCount: int): (p: Position)
    requires ValidDate(s) && ValidDate(e) && visCount > 0
    ensures !p.visible <==> Culled(s, e, visStart, visCount)
    ensures !p.visible ==> p.left == 0.0 && p.width == 0.0
  {
    if Culled(s, e, visStart, visCount) then Position(0.0, 0.0, false)
    else
      var c := Clip(s, e, visStart, visCount);
      var daysInStartMonth := DaysInMonth2025(s.month);
      var daysInEndMonth := DaysInMonth2025(e.month);
      Position(LeftPercent(c, visStart, visCount),
               BarWidth(c, daysInStartMonth, daysInEndMonth, ColumnWidth(visCount)), true)
  }

  /**
   * The same layout with the month lengths taken from the clipped start and
   * end months, so that each visible month contributes the share of its own
   * days that the task covers.
   */
  function TaskPositionIntended(s: Date, e: Date, visStart: int, visCount: int): (p: Position)
    requires ValidDate(s) && ValidDate(e) && visCount > 0
    ensures !p.visible <==> Culled(s, e, visStart, visCount)
    ensures !p.visible ==> p.left == 0.0 && p.width == 0.0
  {
    if Culled(s, e, visStart, visCount) then Position(0.0, 0.0, false)
    else
      var c := Clip(s, e, visStart, visCount);
      Position(LeftPercent(c, visStart, visCount),
               BarWidth(c, DaysInMonth2025(c.startMonth), DaysInMonth2025(c.endMonth), ColumnWidth(visCount)), true)
  }

  /**
   * A visible bar starts inside the chart, at the same place in both
   * layouts; `ClippedLeft` says where: at the left edge of the column of its
   * clipped start month.
   */
  lemma LeftInsideWindow(s: Date, e: Date, visStart: int, visCount: int)
    requires ValidDate(s) && ValidDate(e) && visCount > 0
    requires !Culled(s, e, visStart, visCount)
    ensures 0.0 <= TaskPosition(s, e, visStart, visCount).left < 100.0
    ensures TaskPositionIntended(s, e, visStart, visCount).left == TaskPosition(s, e, visStart, visCount).left
  {
    PositionLeft(s, e, visStart, visCount);
    ClippedLeft(Clip(s, e, visStart, visCount), visStart, visCount);
  }

  /** Both layouts of a visible task place its left edge by the clipped start month. */
  lemma PositionLeft(s: Date, e: Date, visStart: int, visCount: int)
    requires ValidDate(s) && ValidDate(e) && visCount > 0
    requires !Culled(s, e, visStart, visCount)
    ensures TaskPosition(s, e, visStart, visCount).left == LeftPercent(Clip(s, e, visStart, visCount), visStart, visCount)
    ensures TaskPositionIntended(s, e, visStart, visCount).left == LeftPercent(Clip(s, e, visStart, visCount), visStart, visCount)
  {
  }

  /** A clipped range starting inside the window is offset by whole columns, within [0, 100). */
  lemma ClippedLeft(c: Clipped, visStart: int, visCount: int)
    requires visCount > 0 && visStart <= c.startMonth <= VisibleEnd(visStart, visCount)
    ensures 0.0 <= LeftPercent(c, visStart, visCount) < 100.0
    ensures LeftPercent(c, visStart, visCount) == (c.startMonth - visStart) as real * ColumnWidth(visCount)
  {
    LeftBounds(c, visStart, visCount);
    LeftAtMonth(c, c.startMonth - visStart, visStart, visCount);
  }

  /** A range starting `k` months into the window is offset by `k` columns. */
  lemma LeftAtMonth(c: Clipped, k: int, visStart: int, visCount: int)
    requires visCount > 0 && c.startMonth - visStart == k
    ensures LeftPercent(c, visStart, visCount) == k as real * ColumnWidth(visCount)
  {
    var n := visCount as real;
    assert LeftPercent(c, visStart, visCount) == (k as real / n) * 100.0;
    assert (k as real / n) * 100.0 == k as real * (100.0 / n);
  }

  /** A clipped start month inside the window gives an offset in [0, 100). */
  lemma LeftBounds(c: Clipped, visStart: int, visCount: int)
    requires visCount > 0 && visStart <= c.startMonth <= VisibleEnd(visStart, visCount)
    ensures 0.0 <= LeftPercent(c, visStart, visCount) < 100.0
  {
    var k, n := (c.startMonth - visStart) as real, visCount as real;
    assert k < n;
    assert k / n < 1.0;
  }

  // ---------------------------------------------------------------- bounds on the width

  /** A share `a / d` of a column, for `0 < a <= d`, is positive and at most the column. */
  lemma ShareOfColumn(a: int, d: int, col: real)
    requires 0 < a <= d && col > 0.0
    ensures 0.0 < (a as real / d as real) * col <= col
  {
    var f := a as real / d as real;
    assert f * d as real == a as real;
    assert 0.0 < f <= 1.0;
    assert (1.0 - f) * col >= 0.0;
  }

  /**
   * The width formula yields a positive width whenever both end days are
   * real days of the range: the start day is within the first month's length
   * and, in the one-month case, not after the end day.
   */
  lemma BarWidthPositive(c: Clipped, daysFirst: int, daysLast: int, col: real)
    requires daysFirst > 0 && daysLast > 0 && col > 0.0
    requires 1 <= c.startDay <= daysFirst && 1 <= c.endDay
    requires c.startMonth == c.endMonth ==> c.startDay <= c.endDay
    ensures BarWidth(c, daysFirst, daysLast, col) > 0.0
  {
    if c.startMonth == c.endMonth {
      var f := (c.endDay - c.startDay + 1) as real / daysFirst as real;
      assert f > 0.0;
      assert f * col > 0.0;
    } else {
      ShareOfColumn(daysFirst - c.startDay + 1, daysFirst, col);
      var g := c.endDay as real / daysLast as real;
      assert g > 0.0;
      assert g * col > 0.0;
      var monthsSpan := c.endMonth - c.startMonth + 1;
      assert (if monthsSpan > 2 then (monthsSpan - 2) as real * col else 0.0) >= 0.0;
    }
  }

  /**
   * When both end days are within the lengths passed for their months, the
   * bar is no wider than the columns of the months it spans.
   */
  lemma BarWidthAtMostSpan(c: Clipped, daysFirst: int, daysLast: int, col: real)
    requires daysFirst > 0 && daysLast > 0 && col > 0.0
    requires c.startMonth <= c.endMonth
    requires 1 <= c.startDay <= daysFirst && 1 <= c.endDay <= daysLast
    requires c.startMonth == c.endMonth ==> c.startDay <= c.endDay <= daysFirst
    ensures BarWidth(c, daysFirst, daysLast, col) <= (c.endMonth - c.startMonth + 1) as real * col
  {
    if c.startMonth == c.endMonth {
      OneMonthAtMostColumn(c, daysFirst, daysLast, col);
    } else {
      SeveralMonthsAtMostSpan(c, daysFirst, daysLast, col);
    }
  }

  /** A one-month bar is at most one column wide. */
  lemma OneMonthAtMostColumn(c: Clipped, daysFirst: int, daysLast: int, col: real)
    requires daysFirst > 0 && daysLast > 0 && col > 0.0 && c.startMonth == c.endMonth
    requires 1 <= c.startDay <= c.endDay <= daysFirst
    ensures BarWidth(c, daysFirst, daysLast, col) <= (c.endMonth - c.startMonth + 1) as real * col
  {
    OneMonthBarWidth(c, daysFirst, daysLast, col);
    ShareOfColumn(c.endDay - c.startDay + 1, daysFirst, col);
    assert (c.endMonth - c.startMonth + 1) as real == 1.0;
  }

  /** A bar over several months is at most as wide as the columns of those months. */
  lemma SeveralMonthsAtMostSpan(c: Clipped, daysFirst: int, daysLast: int, col: real)
    requires daysFirst > 0 && daysLast > 0 && col > 0.0 && c.startMonth < c.endMonth
    requires 1 <= c.startDay <= daysFirst && 1 <= c.endDay <= daysLast
    ensures BarWidth(c, daysFirst, daysLast, col) <= (c.endMonth - c.startMonth + 1) as real * col
  {
    var n := c.endMonth - c.startMonth + 1;
    var first := ((daysFirst - c.startDay + 1) as real / daysFirst as real) * col;
    var last := (c.endDay as real / daysLast as real) * col;
    var middle := if n > 2 then (n - 2) as real * col else 0.0;
    SeveralMonthsBarWidth(c, daysFirst, daysLast, col);
    ShareOfColumn(daysFirst - c.startDay + 1, daysFirst, col);
    ShareOfColumn(c.endDay, daysLast, col);
    SpanSum(first, last, middle, col, n);
  }

  /**
   * Unfolding helper: the several-months branch of `BarWidth` written out
   * (first share, last share, whole middle columns), for the lemmas that bound it.
   */
  lemma SeveralMonthsBarWidth(c: Clipped, daysFirst: int, daysLast: int, col: real)
    requires daysFirst > 0 && daysLast > 0 && c.startMonth != c.endMonth
    ensures BarWidth(c, daysFirst, daysLast, col)
         == ((daysFirst - c.startDay + 1) as real / daysFirst as real) * col
          + (c.endDay as real / daysLast as real) * col
          + (if c.endMonth - c.startMonth + 1 > 2 then (c.endMonth - c.startMonth + 1 - 2) as real * col else 0.0)
  {
  }

  /** Two shares of at most a column each, plus `n - 2` whole columns, are at most `n` columns. */
  lemma SpanSum(first: real, last: real, middle: real, col: real, n: int)
    requires first <= col && last <= col && n >= 2
    requires middle == if n > 2 then (n - 2) as real * col else 0.0
    ensures first + last + middle <= n as real * col
  {
    assert n as real * col == (n - 2) as real * col + 2.0 * col;
  }

  /** Every visible bar of an ordered task (start not after end) has positive width. */
  lemma WidthPositive(s: Date, e: Date, visStart: int, visCount: int)
    requires ValidDate(s) && ValidDate(e) && visCount > 0 && DateLe(s, e)
    requires !Culled(s, e, visStart, visCount)
    ensures TaskPosition(s, e, visStart, visCount).width > 0.0
    ensures TaskPositionIntended(s, e, visStart, visCount).width > 0.0
  {
    var c := Clip(s, e, visStart, visCount);
    BarWidthPositive(c, DaysInMonth2025(s.month), DaysInMonth2025(e.month), ColumnWidth(visCount));
    BarWidthPositive(c, DaysInMonth2025(c.startMonth), DaysInMonth2025(c.endMonth), ColumnWidth(visCount));
  }

  /**
   * A task that starts and ends in one visible month is not clipped, and its
   * bar is the one-month width formula over its own days (by
   * `OneMonthBarWidth`, its inclusive duration over the month's length, in
   * column units): more than nothing and at most one column.
   */
  lemma SingleMonthWidth(s: Date, e: Date, visStart: int, visCount: int)
    requires ValidDate(s) && ValidDate(e) && visCount > 0 && DateLe(s, e)
    requires s.month == e.month && visStart <= s.month <= VisibleEnd(visStart, visCount)
    ensures TaskPosition(s, e, visStart, visCount).visible
    ensures TaskPosition(s, e, visStart, visCount).width
         == BarWidth(Clipped(s.month, s.day, e.month, e.day), DaysInMonth2025(s.month), DaysInMonth2025(s.month), ColumnWidth(visCount))
    ensures 0.0 < TaskPosition(s, e, visStart, visCount).width <= ColumnWidth(visCount)
  {
    var c := Clip(s, e, visStart, visCount);
    assert c == Clipped(s.month, s.day, e.month, e.day);
    var d, col := DaysInMonth2025(s.month), ColumnWidth(visCount);
    OneMonthAtMostColumn(c, d, d, col);
    BarWidthPositive(c, d, d, col);
  }

  /**
   * Unfolding helper: the one-month branch of `BarWidth` written out, the
   * month's covered share of a column.
   */
  lemma OneMonthBarWidth(c: Clipped, daysFirst: int, daysLast: int, col: real)
    requires daysFirst > 0 && daysLast > 0 && c.startMonth == c.endMonth
    ensures BarWidth(c, daysFirst, daysLast, col) == ((c.endDay - c.startDay + 1) as real / daysFirst as real) * col
  {
  }

  // ---------------------------------------------------------------- reference width

  /**
   * The share of month `m`'s days that the clipped range covers: from its
   * start day (or day 1) to its end day (or the month's last day).
   */
  function MonthShare(c: Clipped, m: int): real
    requires 0 <= m < 12
  {
    var lo := if m == c.startMonth then c.startDay else 1;
    var hi := if m == c.endMonth then c.endDay else DaysInMonth2025(m);
    (hi - lo + 1) as real / DaysInMonth2025(m) as real
  }

  /** The summed shares of months `first` .. `last`: how many columns' worth is covered. */
  function CoveredColumns(c: Clipped, first: int, last: int): real
    requires 0 <= first && last < 12
    decreases last - first
  {
    if last < first then 0.0 else CoveredColumns(c, first, last - 1) + MonthShare(c, last)
  }

  /** Up to (not including) the end month, every month after the first is wholly covered. */
  lemma {:induction false} CoveredPrefix(c: Clipped, k: int)
    requires 0 <= c.startMonth <= k < c.endMonth < 12
    ensures CoveredColumns(c, c.startMonth, k) == MonthShare(c, c.startMonth) + (k - c.startMonth) as real
    decreases k
  {
    if k > c.startMonth {
      CoveredPrefix(c, k - 1);
      WholeMonthShare(c, k);
    }
  }

  /** A month strictly inside the clipped range is wholly covered. */
  lemma WholeMonthShare(c: Clipped, m: int)
    requires 0 <= c.startMonth < m < c.endMonth < 12
    ensures MonthShare(c, m) == 1.0
  {
    var d := DaysInMonth2025(m) as real;
    assert MonthShare(c, m) == d / d;
  }

  /**
   * The corrected width of a clipped range (the width formula fed the
   * lengths of the clipped first and last months, as the corrected layout
   * does) is exactly the column width `col` times the covered share of each
   * month of the range, summed over those months.
   */
  lemma ClippedWidthIsCoveredShare(c: Clipped, daysFirst: int, daysLast: int, col: real)
    requires 0 <= c.startMonth <= c.endMonth < 12
    requires daysFirst == DaysInMonth2025(c.startMonth) && daysLast == DaysInMonth2025(c.endMonth)
    ensures BarWidth(c, daysFirst, daysLast, col) == CoveredColumns(c, c.startMonth, c.endMonth) * col
  {
    CoveredTotal(c, daysFirst, daysLast);
    BarWidthBySpan(c, daysFirst, daysLast, col, CoveredColumns(c, c.startMonth, c.endMonth));
  }

  /** The covered columns of a clipped range: one share, or first share + middle months + last share. */
  lemma CoveredTotal(c: Clipped, daysFirst: int, daysLast: int)
    requires 0 <= c.startMonth <= c.endMonth < 12
    requires daysFirst == DaysInMonth2025(c.startMonth) && daysLast == DaysInMonth2025(c.endMonth)
    ensures c.startMonth == c.endMonth ==>
      CoveredColumns(c, c.startMonth, c.endMonth) == (c.endDay - c.startDay + 1) as real / daysFirst as real
    ensures c.startMonth < c.endMonth ==>
      CoveredColumns(c, c.startMonth, c.endMonth)
        == (daysFirst - c.startDay + 1) as real / daysFirst as real
         + (c.endMonth - c.startMonth - 1) as real
         + c.endDay as real / daysLast as real
  {
    if c.startMonth == c.endMonth {
      assert CoveredColumns(c, c.startMonth, c.startMonth - 1) == 0.0;
    } else {
      CoveredPrefix(c, c.endMonth - 1);
    }
  }

  /**
   * The width formula is the column width times the shares it adds up: the
   * one share of a one-month range, or first share + whole middle months +
   * last share.
   */
  lemma BarWidthBySpan(c: Clipped, daysFirst: int, daysLast: int, col: real, total: real)
    requires daysFirst > 0 && daysLast > 0 && c.startMonth <= c.endMonth
    requires c.startMonth == c.endMonth ==>
      total == (c.endDay - c.startDay + 1) as real / daysFirst as real
    requires c.startMonth < c.endMonth ==>
      total == (daysFirst - c.startDay + 1) as real / daysFirst as real
             + (c.endMonth - c.startMonth - 1) as real
             + c.endDay as real / daysLast as real
    ensures BarWidth(c, daysFirst, daysLast, col) == total * col
  {
    if c.startMonth < c.endMonth {
      Distribute(BarWidth(c, daysFirst, daysLast, col),
                 (daysFirst - c.startDay + 1) as real / daysFirst as real,
                 c.endDay as real / daysLast as real,
                 (c.endMonth - c.startMonth - 1) as real, col);
    }
  }

  lemma Distribute(w: real, a: real, b: real, k: real, col: real)
    requires w == a * col + b * col + k * col
    ensures w == (a + k + b) * col
  {
  }

  /**
   * With the corrected month lengths, every visible bar of an ordered task
   * stays inside the chart: it starts at or after the left edge and ends at or
   * before the right edge.
   */
  lemma IntendedBarFitsWindow(s: Date, e: Date, visStart: int, visCount: int)
    requires ValidDate(s) && ValidDate(e) && visCount > 0 && DateLe(s, e)
    requires !Culled(s, e, visStart, visCount)
    ensures var p := TaskPositionIntended(s, e, visStart, visCount);
      0.0 <= p.left && 0.0 < p.width && p.left + p.width <= 100.0
  {
    var c := Clip(s, e, visStart, visCount);
    WidthPositive(s, e, visStart, visCount);
    ClippedBarFits(c, visStart, visCount);
  }

  /** The bar of a clipped range with valid, ordered end days ends inside the window. */
  lemma ClippedBarFits(c: Clipped, visStart: int, visCount: int)
    requires visCount > 0
    requires visStart <= c.startMonth <= c.endMonth <= VisibleEnd(visStart, visCount)
    requires ValidDate(Date(c.startMonth, c.startDay)) && ValidDate(Date(c.endMonth, c.endDay))
    requires DateLe(Date(c.startMonth, c.startDay), Date(c.endMonth, c.endDay))
    ensures LeftPercent(c, visStart, visCount)
          + BarWidth(c, DaysInMonth2025(c.startMonth), DaysInMonth2025(c.endMonth), ColumnWidth(visCount)) <= 100.0
  {
    BarFitsWithLengths(c, DaysInMonth2025(c.startMonth), DaysInMonth2025(c.endMonth), visStart, visCount);
  }

  /**
   * A bar whose end days fit the month lengths it is measured against ends
   * inside the window.
   */
  lemma BarFitsWithLengths(c: Clipped, daysFirst: int, daysLast: int, visStart: int, visCount: int)
    requires daysFirst > 0 && daysLast > 0 && visCount > 0
    requires visStart <= c.startMonth <= c.endMonth <= VisibleEnd(visStart, visCount)
    requires 1 <= c.startDay <= daysFirst && 1 <= c.endDay <= daysLast
    requires c.startMonth == c.endMonth ==> c.startDay <= c.endDay <= daysFirst
    ensures LeftPercent(c, visStart, visCount) + BarWidth(c, daysFirst, daysLast, ColumnWidth(visCount)) <= 100.0
  {
    BarWidthAtMostSpan(c, daysFirst, daysLast, ColumnWidth(visCount));
    LeftAtMonth(c, c.startMonth - visStart, visStart, visCount);
    ColumnsFitWindow(c.startMonth - visStart, c.endMonth - c.startMonth + 1, visCount);
  }

  /** `k` columns of offset and `span` columns of bar fit in a window of `visCount` columns. */
  lemma ColumnsFitWindow(k: int, span: int, visCount: int)
    requires 0 <= k && 0 <= span && k + span <= visCount && 0 < visCount
    ensures k as real * ColumnWidth(visCount) + span as real * ColumnWidth(visCount) <= 100.0
  {
    var col := ColumnWidth(visCount);
    assert col * visCount as real == 100.0;
    assert k as real * col + span as real * col == (k + span) as real * col;
    assert (k + span) as real * col <= visCount as real * col;
  }

  /**
   * The chart as written agrees with the corrected layout whenever the task
   * is not clipped, that is, it lies wholly inside the window.
   */
  lemma AsWrittenIsIntendedInsideWindow(s: Date, e: Date, visStart: int, visCount: int)
    requires ValidDate(s) && ValidDate(e) && visCount > 0
    requires visStart <= s.month && e.month <= VisibleEnd(visStart, visCount)
    ensures TaskPosition(s, e, visStart, visCount) == TaskPositionIntended(s, e, visStart, visCount)
  {
  }

  // ---------------------------------------------------------------- examples

  /** Window January-May, task 1 January - 15 April 2025: left 0, width 20 + 40 + 10. */
  lemma WorkedExample()
    ensures TaskPosition(Date(0, 1), Date(3, 15), 0, 5) == Position(0.0, 70.0, true)
  {
  }

  /**
   * Window January-May, task from 31 May (the last day of the window) to
   * 10 June: one visible day, a thirty-first of a twenty-percent column.
   */
  lemma LastVisibleDayExample()
    ensures TaskPosition(Date(4, 31), Date(5, 10), 0, 5) == Position(80.0, 20.0 / 31.0, true)
  {
  }

  /**
   * Window January-March (zoom 1.5, three months), task 1 January - 10 April:
   * as written, the clipped March end is measured against April's 30 days, so
   * the bar runs past the right edge of the chart; the corrected layout ends
   * it exactly at the edge.
   */
  lemma AsWrittenOverflowsWindow()
    ensures var p := TaskPosition(Date(0, 1), Date(3, 10), 0, 3);
      p.visible && p.left + p.width == 910.0 / 9.0 && p.left + p.width > 100.0
    ensures var q := TaskPositionIntended(Date(0, 1), Date(3, 10), 0, 3);
      q.visible && q.left + q.width == 100.0
  {
  }

  /**
   * Window March-April, task 10 February - 31 March: the clipped range is all
   * of March, but as written it is measured against February's 28 days and
   * comes out wider than March's column.
   */
  lemma AsWrittenOverflowsColumn()
    ensures var p := TaskPosition(Date(1, 10), Date(2, 31), 2, 2);
      p.visible && p.width == 31.0 / 28.0 * 50.0 && p.width > ColumnWidth(2)
    ensures TaskPositionIntended(Date(1, 10), Date(2, 31), 2, 2).width == ColumnWidth(2)
  {
  }
}
