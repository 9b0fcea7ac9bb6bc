/**
 * The viewport controller of the Gantt chart: the zoom level, the first
 * visible month and the number of visible months, the handlers that change
 * them (zoom buttons, pan buttons, mouse drag, quarter buttons), and the
 * values the chart derives from them (the visible months, which quarter
 * button is pressed).
 */
module Viewport {
  import opened Options

  /** One entry of the fixed year table: month index, Spanish name, quarter label. */
  datatype Month = Month(month: int, name: string, quarter: string)

  /** `allMonths`: the twelve months of the year, in order. */
  const AllMonths: seq<Month> := [
    Month(0, "Enero", "Q1"),
    Month(1, "Febrero", "Q1"),
    Month(2, "Marzo", "Q1"),
    Month(3, "Abril", "Q2"),
    Month(4, "Mayo", "Q2"),
    Month(5, "Junio", "Q2"),
    Month(6, "Julio", "Q3"),
    Month(7, "Agosto", "Q3"),
    Month(8, "Septiembre", "Q3"),
    Month(9, "Octubre", "Q4"),
    Month(10, "Noviembre", "Q4"),
    Month(11, "Diciembre", "Q4")
  ]

  /** The label "Q1" .. "Q4" of quarter `q`. */
  function QuarterLabel(q: int): string
    requires 1 <= q <= 4
  {
    ["Q1", "Q2", "Q3", "Q4"][q - 1]
  }

  /** Entry `i` of the table is month `i`, and it lies in quarter `i / 3 + 1`. */
  lemma AllMonthsIndexed()
    ensures |AllMonths| == 12
    ensures forall i :: 0 <= i < 12 ==>
      AllMonths[i].month == i && AllMonths[i].quarter == QuarterLabel(i / 3 + 1)
  {
  }

  function Min(a: int, b: int): int { if a <= b then a else b }
  function Max(a: int, b: int): int { if a <= b then b else a }

  // ---------------------------------------------------------------- zoom

  const MinZoom: real := 0.5
  const MaxZoom: real := 3.0

  /** `Math.max(0.5, Math.min(3, z))`. */
  function ClampZoom(z: real): (c: real)
    ensures MinZoom <= c <= MaxZoom
    ensures MinZoom <= z <= MaxZoom ==> c == z
    ensures z < MinZoom ==> c == MinZoom
    ensures z > MaxZoom ==> c == MaxZoom
  {
    if z < MinZoom then MinZoom else if z > MaxZoom then MaxZoom else z
  }

  /** `Math.round(x)`: the nearest integer, halves rounded up. */
  function Round(x: real): (n: int)
    ensures n as real - 0.5 <= x < n as real + 0.5
  {
    (x + 0.5).Floor
  }

  /** `Math.round(5 / z)`: the number of months shown at zoom level `z`. */
  function MonthsForZoom(z: real): (n: int)
    requires MinZoom <= z <= MaxZoom
    ensures 2 <= n <= 10
    ensures z == 1.0 ==> n == 5
  {
    var q := 5.0 / z;
    assert q * z == 5.0;
    assert 5.0 / 3.0 <= q <= 10.0;
    Round(q)
  }

  /** Zooming in never shows more months. */
  lemma MonthsForZoomAntitone(z1: real, z2: real)
    requires MinZoom <= z1 <= z2 <= MaxZoom
    ensures MonthsForZoom(z2) <= MonthsForZoom(z1)
  {
    var q1, q2 := 5.0 / z1, 5.0 / z2;
    assert q1 * z1 == 5.0 && q2 * z2 == 5.0;
    assert q2 <= q1;
  }

  /** The counts the zoom buttons (steps of 0.25) reach. */
  lemma ZoomStepCounts()
    ensures MonthsForZoom(0.5) == 10 && MonthsForZoom(0.75) == 7
    ensures MonthsForZoom(1.0) == 5 && MonthsForZoom(1.25) == 4
    ensures MonthsForZoom(1.5) == 3 && MonthsForZoom(1.75) == 3
    ensures MonthsForZoom(2.0) == 3 && MonthsForZoom(2.25) == 2
    ensures MonthsForZoom(2.5) == 2 && MonthsForZoom(2.75) == 2
    ensures MonthsForZoom(3.0) == 2
  {
  }

  // ---------------------------------------------------------------- pan

  datatype Direction = Left | Right

  /**
   * The first visible month after one pan step: one month back, floored at
   * January; or one month on, capped at `12 - count` (which can move the
   * window back when it already runs past December).
   */
  function PanTarget(start: int, count: int, dir: Direction): (r: int)
    ensures dir == Left ==> 0 <= r && (start > 0 ==> r == start - 1) && (start <= 0 ==> r == 0)
    ensures dir == Right ==> r + count <= 12
    ensures dir == Right && start + count < 12 ==> r == start + 1
    ensures dir == Right && start + count >= 12 ==> r == 12 - count
  {
    match dir
    case Left => Max(0, start - 1)
    case Right => Min(12 - count, start + 1)
  }

  /**
   * The pan buttons are disabled (`visibleStartMonth <= 0`,
   * `visibleStartMonth + visibleMonthsCount >= 12`) exactly when a pan in that
   * direction could not move the window on.
   */
  lemma PanButtonsDisabledWhenStuck(start: int, count: int)
    requires 0 <= start
    ensures start <= 0 <==> PanTarget(start, count, Left) == start
    ensures start + count >= 12 <==> PanTarget(start, count, Right) <= start
  {
  }

  // ---------------------------------------------------------------- drag

  /** Horizontal drag distance, in pixels, beyond which a drag pans. */
  const DragThreshold: int := 50

  /**
   * The pan a drag of `delta` pixels triggers: rightward drags move the window
   * back, leftward drags move it on, and short drags do nothing.
   */
  function DragPan(delta: int): (r: Option<Direction>)
    ensures r == Some(Left) <==> delta > DragThreshold
    ensures r == Some(Right) <==> delta < -DragThreshold
    ensures r == None <==> -DragThreshold <= delta <= DragThreshold
  {
    var magnitude := if delta < 0 then -delta else delta;
    if magnitude > DragThreshold then Some(if delta > 0 then Left else Right) else None
  }

  // ---------------------------------------------------------------- quarters

  /** The month a quarter button jumps to: `(quarter - 1) * 3`. */
  function QuarterStart(q: int): (m: int)
    requires 1 <= q <= 4
    ensures 0 <= m <= 9 && m % 3 == 0
    ensures AllMonths[m].quarter == QuarterLabel(q)
    ensures m == 0 || AllMonths[m - 1].quarter != QuarterLabel(q)
  {
    (q - 1) * 3
  }

  /** `aria-pressed` of quarter button `q` when the window starts at `start`. */
  predicate QuarterPressed(start: int, q: int) {
    if q == 1 then start < 3
    else if q == 2 then 3 <= start < 6
    else if q == 3 then 6 <= start < 9
    else if q == 4 then start >= 9
    else false
  }

  /** The four buttons partition the start months: exactly one is pressed. */
  function PressedQuarter(start: int): (q: int)
    ensures 1 <= q <= 4 && QuarterPressed(start, q)
    ensures forall q' :: QuarterPressed(start, q') ==> q' == q
  {
    if start < 3 then 1 else if start < 6 then 2 else if start < 9 then 3 else 4
  }

  /** For a start month of the year, the pressed button is that month's quarter. */
  lemma PressedIsQuarterOfFirstMonth(start: int, q: int)
    requires 0 <= start < 12 && 1 <= q <= 4
    ensures QuarterPressed(start, q) <==> AllMonths[start].quarter == QuarterLabel(q)
  {
    AllMonthsIndexed();
    assert AllMonths[start].quarter == QuarterLabel(start / 3 + 1);
  }

  /** After a jump to quarter `q`, button `q` and no other is pressed. */
  lemma JumpPressesThatButton(q: int, q': int)
    requires 1 <= q <= 4
    ensures QuarterPressed(QuarterStart(q), q') <==> q' == q
  {
  }

  // ---------------------------------------------------------------- visible months

  /** Index conversion of `Array.prototype.slice` on a 12-entry array. */
  function SliceIndex(k: int): (i: int)
    ensures 0 <= i <= 12
    ensures 0 <= k <= 12 ==> i == k
    ensures k > 12 ==> i == 12
    ensures -12 <= k < 0 ==> i == 12 + k
    ensures k < -12 ==> i == 0
  {
    if k < 0 then Max(0, 12 + k) else Min(k, 12)
  }

  /** `allMonths.slice(start, start + count)`. */
  function VisibleMonths(start: int, count: int): (r: seq<Month>)
    ensures 0 <= start <= 12 && 0 <= count ==> |r| == Min(count, 12 - start)
    ensures 0 <= start ==> forall i :: 0 <= i < |r| ==>
      start + i < 12 && r[i] == AllMonths[start + i] && r[i].month == start + i
  {
    var b, e := SliceIndex(start), SliceIndex(start + count);
    AllMonthsIndexed();
    if b < e then AllMonths[b..e] else []
  }

  /** A window the controller can reach shows at least two months. */
  lemma VisibleMonthsNonEmpty(start: int, count: int)
    requires 0 <= start <= 10 && 2 <= count <= 10
    ensures 2 <= |VisibleMonths(start, count)| <= count
    ensures VisibleMonths(start, count)[0].month == start
  {
  }

  /** Worked cases: a capped right pan, a clamped zoom, a Q4 jump near December. */
  lemma ViewportExamples()
    ensures PanTarget(8, 5, Right) == 7
    ensures ClampZoom(10.0) == 3.0 && MonthsForZoom(ClampZoom(10.0)) == 2
    ensures PanTarget(QuarterStart(4), 5, Right) == 7
    ensures |VisibleMonths(QuarterStart(4), 5)| == 3
  {
  }

  // ---------------------------------------------------------------- state

  /** The chart's viewport state slots and their event handlers. */
  class ViewportController {
    var zoomLevel: real
    var visibleStartMonth: int
    var visibleMonthsCount: int
    var isDragging: bool
    var dragStartX: int

    /**
     * The zoom stays within its bounds, the month count is always the one the
     * zoom derives, and the window starts in the year at a month no later than
     * November (`12 - 2`, the cap a right pan applies at the smallest count).
     */
    ghost predicate Valid()
      reads this
    {
      && MinZoom <= zoomLevel <= MaxZoom
      && visibleMonthsCount == MonthsForZoom(zoomLevel)
      && 0 <= visibleStartMonth <= 10
    }

    /** The initial state: 100% zoom, five months from January, not dragging. */
    constructor ()
      ensures Valid()
      ensures zoomLevel == 1.0 && visibleStartMonth == 0 && visibleMonthsCount == 5
      ensures !isDragging && dragStartX == 0
    {
      zoomLevel := 1.0;
      visibleStartMonth := 0;
      visibleMonthsCount := 5;
      isDragging := false;
      dragStartX := 0;
    }

    /** `handleZoomChange`: clamp the zoom and derive the month count from it. */
    method HandleZoomChange(newZoom: real)
      requires Valid()
      modifies this
      ensures Valid()
      ensures zoomLevel == ClampZoom(newZoom)
      ensures visibleMonthsCount == MonthsForZoom(ClampZoom(newZoom))
      ensures visibleStartMonth == old(visibleStartMonth)
      ensures isDragging == old(isDragging) && dragStartX == old(dragStartX)
    {
      var clamped := ClampZoom(newZoom);
      zoomLevel := clamped;
      visibleMonthsCount := MonthsForZoom(clamped);
    }

    /** `handlePan`: move the window one month in `dir`, within the year. */
    method HandlePan(dir: Direction)
      requires Valid()
      modifies this
      ensures Valid()
      ensures visibleStartMonth == PanTarget(old(visibleStartMonth), visibleMonthsCount, dir)
      ensures dir == Right ==> visibleStartMonth + visibleMonthsCount <= 12
      ensures zoomLevel == old(zoomLevel) && visibleMonthsCount == old(visibleMonthsCount)
      ensures isDragging == old(isDragging) && dragStartX == old(dragStartX)
    {
      if dir == Left {
        visibleStartMonth := Max(0, visibleStartMonth - 1);
      } else {
        var maxStartMonth := 12 - visibleMonthsCount;
        visibleStartMonth := Min(maxStartMonth, visibleStartMonth + 1);
      }
    }

    /** `handleDragStart`: remember where the mouse went down. */
    method HandleDragStart(clientX: int)
      requires Valid()
      modifies this
      ensures Valid()
      ensures isDragging && dragStartX == clientX
      ensures zoomLevel == old(zoomLevel) && visibleMonthsCount == old(visibleMonthsCount)
      ensures visibleStartMonth == old(visibleStartMonth)
    {
      isDragging := true;
      dragStartX := clientX;
    }

    /**
     * `handleDragMove`: while dragging, a move of more than 50 pixels from the
     * last anchor pans one month and re-anchors at the current position;
     * anything else changes nothing.
     */
    method HandleDragMove(clientX: int)
      requires Valid()
      modifies this
      ensures Valid()
      ensures !old(isDragging) || DragPan(clientX - old(dragStartX)) == None ==>
        visibleStartMonth == old(visibleStartMonth) && dragStartX == old(dragStartX)
      ensures old(isDragging) && DragPan(clientX - old(dragStartX)).Some? ==>
        visibleStartMonth == PanTarget(old(visibleStartMonth), visibleMonthsCount,
                                       DragPan(clientX - old(dragStartX)).value)
        && dragStartX == clientX
      ensures isDragging == old(isDragging)
      ensures zoomLevel == old(zoomLevel) && visibleMonthsCount == old(visibleMonthsCount)
    {
      if !isDragging {
        return;
      }
      var deltaX := clientX - dragStartX;
      if deltaX > DragThreshold || deltaX < -DragThreshold {
        if deltaX > 0 {
          HandlePan(Left);
        } else {
          HandlePan(Right);
        }
        dragStartX := clientX;
      }
    }

    /** `handleDragEnd`: stop dragging; the window stays where it is. */
    method HandleDragEnd()
      requires Valid()
      modifies this
      ensures Valid()
      ensures !isDragging && dragStartX == old(dragStartX)
      ensures zoomLevel == old(zoomLevel) && visibleMonthsCount == old(visibleMonthsCount)
      ensures visibleStartMonth == old(visibleStartMonth)
    {
      isDragging := false;
    }

    /**
     * `jumpToQuarter`: start the window at the quarter's first month, without
     * fitting the month count into the year.
     */
    method JumpToQuarter(q: int)
      requires Valid()
      requires 1 <= q <= 4
      modifies this
      ensures Valid()
      ensures visibleStartMonth == QuarterStart(q)
      ensures forall q' :: QuarterPressed(visibleStartMonth, q') <==> q' == q
      ensures zoomLevel == old(zoomLevel) && visibleMonthsCount == old(visibleMonthsCount)
      ensures isDragging == old(isDragging) && dragStartX == old(dragStartX)
    {
      visibleStartMonth := (q - 1) * 3;
    }
  }
}
