# Gantt chart core, modelled in Dafny

This project models the client-side logic of a single-year (2025) Gantt chart
component, together with its task tooltip:

- **The viewport controller** (`Viewport`). The chart keeps a zoom level, a
  first visible month and a count of visible months. It changes them through
  the zoom buttons, the pan buttons, mouse dragging and the quarter buttons.
  From them it derives the visible month headers and the pressed quarter
  button. The state is the class `Viewport.ViewportController`, which has one
  method per event handler. The derived values are functions of the state slots.
- **The task layout engine** (`Layout`). `calculateTaskPosition` either hides a
  task's bar or places it inside the window as a left offset and a width, both
  percentages of the chart width. `Layout.TaskPosition` models it as written. As
  written, the month lengths come from the task's own (unclipped) start and end
  months. `Layout.TaskPositionIntended` uses the clipped months instead (see
  Findings).
- **The task list** (`TaskList`): the search filter and the local delete and
  completion-toggle updates that run after the store reports success.
- **The tooltip** (`ClassTokens`, `Status`):
  - the nine task states;
  - their colour-class strings and Spanish names, with the fallbacks for an
    unknown status string;
  - the extraction of the first `bg-` and `text-` class from a colour string;
  - the completion badge.

Supporting modules:
- `Calendar`: dates are (month 0-11, day) pairs in 2025, with month lengths.
- `Strings`: `startsWith`, `includes` and ASCII lower-casing.
- `Options`: the optional value.

Percentages and the zoom level are exact `real`s. `Math.round` is
`floor(x + 1/2)`.

## Model

| member | source | states |
|---|---|---|
| Status.ParseStatus | types/task.ts:1-10 | a stored status string names a state exactly when it is one of the nine keys, and then it names that state |
| Status.StatusKey | types/task.ts:1-10 | definition: the string key of each of the nine states (its injectivity is `Status.StatusKeyInjective`) |
| Status.StatusKeyInjective | types/task.ts:1-10 | distinct states have distinct keys |
| Status.StatusColor | components/task-tooltip.tsx:10-20 | every state has a non-empty colour-class string (the map is total) |
| Status.StatusName | components/task-tooltip.tsx:23-33 | every state has a non-empty Spanish label (the map is total) |
| Status.StatusNameInjective | components/task-tooltip.tsx:23-33 | distinct states have distinct Spanish labels |
| Status.TooltipStatusColor | components/task-tooltip.tsx:52 | a known key gives its map entry (the fallback never fires); an unknown string gives "bg-gray-100" |
| Status.TooltipStatusName | components/task-tooltip.tsx:53 | a known key gives its Spanish label; an unknown string gives the string itself |
| Strings.IncludesIffOccurs | components/gantt-chart-db.tsx:532-535 | the left-to-right `includes` search holds exactly when the needle occurs at some index |
| Strings.StartsWith | components/task-tooltip.tsx:42 | definition: `startsWith`, the prefix of the string's length equals the given prefix |
| Strings.Includes | components/gantt-chart-db.tsx:532-535 | definition: `includes` as a search from the left, one position at a time (characterised by `Strings.IncludesIffOccurs`) |
| Strings.OccursInTail | components/gantt-chart-db.tsx:532-535 | an occurrence past the first character is an occurrence in the rest, one index earlier, and back |
| Strings.Lower | components/gantt-chart-db.tsx:530 | lower-casing keeps the length and folds each character on its own (ASCII letters only) |
| Strings.LowerChar | components/gantt-chart-db.tsx:530 | an ASCII capital becomes the small letter 32 code points above it; every other character is kept |
| Strings.LowerIdempotent | components/gantt-chart-db.tsx:530 | lower-casing twice is lower-casing once |
| Strings.LowerHasNoUpper | components/gantt-chart-db.tsx:530 | a lower-cased string has no upper-case ASCII letter |
| Calendar.DaysInMonth2025 | components/gantt-chart-db.tsx:476-477 | month lengths of 2025: 28 to 31 days, and 28 exactly for February |
| Viewport.AllMonthsIndexed | components/gantt-chart-db.tsx:185-198 | table entry i is month i and lies in quarter i/3+1 |
| Viewport.ClampZoom | components/gantt-chart-db.tsx:403 | the zoom is clamped into [0.5, 3]: in-range values are kept, others go to the nearer bound |
| Viewport.Round | components/gantt-chart-db.tsx:407 | `Math.round` gives the integer within half a unit, halves rounded up |
| Viewport.MonthsForZoom | components/gantt-chart-db.tsx:407 | at any clamped zoom the month count is between 2 and 10, and 5 at zoom 1 |
| Viewport.MonthsForZoomAntitone | components/gantt-chart-db.tsx:401-409 | zooming in never shows more months |
| Viewport.ZoomStepCounts | components/gantt-chart-db.tsx:678 | the counts at all eleven zoom-button steps of 0.25 from 0.5 to 3: 10, 7, 5, 4, 3, 3, 3, 2, 2, 2 and 2 months |
| Viewport.PanTarget | components/gantt-chart-db.tsx:412-421 | a left pan goes one month back and stops at 0; after a right pan start+count <= 12; a window past December is pulled back to 12-count |
| Viewport.PanButtonsDisabledWhenStuck | components/gantt-chart-db.tsx:634 | a pan button is disabled exactly when panning that way would not move the window on |
| Viewport.DragPan | components/gantt-chart-db.tsx:433-440 | a drag of more than 50 px to the right pans left, more than 50 px to the left pans right, and anything else does nothing |
| Viewport.QuarterStart | components/gantt-chart-db.tsx:451-454 | a jump goes to 0, 3, 6 or 9, the first month of the quarter in the month table |
| Viewport.PressedQuarter | components/gantt-chart-db.tsx:725-758 | for every start month exactly one quarter button is pressed |
| Viewport.PressedIsQuarterOfFirstMonth | components/gantt-chart-db.tsx:725-758 | the pressed button is the quarter of the first visible month |
| Viewport.QuarterPressed | components/gantt-chart-db.tsx:725-758 | definition: the four `aria-pressed` tests on the first visible month (partitioned by `Viewport.PressedQuarter`) |
| Viewport.JumpPressesThatButton | components/gantt-chart-db.tsx:725-758 | after a jump to quarter q, button q and no other is pressed |
| Viewport.VisibleMonths | components/gantt-chart-db.tsx:200-202 | the slice has min(count, 12-start) entries, and entry i is table entry start+i |
| Viewport.SliceIndex | components/gantt-chart-db.tsx:201 | `slice` index normalisation on the 12 months: an index in [0, 12] is kept, one past 12 becomes 12, one in [-12, 0) counts from the end (12 + k), and one below -12 becomes 0 |
| Viewport.VisibleMonthsNonEmpty | components/gantt-chart-db.tsx:200-202 | a reachable window shows 2 to count months, starting at its first month |
| Viewport.ViewportExamples | components/gantt-chart-db.tsx:412-454 | examples: a right pan at start 8 with count 5 moves back to 7; a Q4 jump shows 3 months and a right pan from it goes to 7 |
| Viewport.ViewportController.constructor | components/gantt-chart-db.tsx:86-90 | the initial state: zoom 1, five months from January, not dragging |
| Viewport.ViewportController.HandleZoomChange | components/gantt-chart-db.tsx:401-409 | sets the clamped zoom and the month count derived from it; the invariant holds and nothing else changes |
| Viewport.ViewportController.HandlePan | components/gantt-chart-db.tsx:412-421 | the start becomes the pan target; the count and zoom are unchanged, and start+count <= 12 after a right pan |
| Viewport.ViewportController.HandleDragStart | components/gantt-chart-db.tsx:424-427 | dragging begins, anchored at the pointer position |
| Viewport.ViewportController.HandleDragMove | components/gantt-chart-db.tsx:430-443 | nothing changes unless dragging and past the threshold; otherwise one pan in the drag's direction, re-anchored at the pointer |
| Viewport.ViewportController.HandleDragEnd | components/gantt-chart-db.tsx:446-448 | dragging stops and the window stays |
| Viewport.ViewportController.JumpToQuarter | components/gantt-chart-db.tsx:451-454 | the start becomes the quarter's first month, unclamped against the count, and exactly that button is pressed |
| Layout.Clip | components/gantt-chart-db.tsx:479-486 | the clipped range lies in the window; a start cut on the left is day 1; an end cut on the right is the last day of its month; for an ordered task the range is ordered and inside the task |
| Layout.VisibleEnd | components/gantt-chart-db.tsx:462 | definition: the last visible month index, start + count - 1 |
| Layout.Culled | components/gantt-chart-db.tsx:465 | definition: the task ends before the window or starts after it |
| Layout.ColumnWidth | components/gantt-chart-db.tsx:492-516 | the column width `100 / visibleMonthsCount` is positive |
| Layout.LeftPercent | components/gantt-chart-db.tsx:492 | definition: the left offset formula (its value is given by `Layout.ClippedLeft`) |
| Layout.BarWidth | components/gantt-chart-db.tsx:494-516 | definition: the width formula, one-month branch and several-months branch, with the month lengths and the column width as parameters (bounded by `Layout.BarWidthPositive` and `Layout.BarWidthAtMostSpan`, and tied to the per-month reference by `Layout.ClippedWidthIsCoveredShare`) |
| Layout.TaskPosition | components/gantt-chart-db.tsx:457-524 | the bar is hidden, at 0% and 0%, exactly when the task lies wholly outside the window |
| Layout.TaskPositionIntended | components/gantt-chart-db.tsx:457-524 | the same visibility rule for the corrected layout |
| Layout.LeftInsideWindow | components/gantt-chart-db.tsx:492 | a visible bar starts in [0, 100), at the same offset in both layouts |
| Layout.PositionLeft | components/gantt-chart-db.tsx:492 | both layouts place a visible bar's left edge from the clipped start month alone |
| Layout.ClippedLeft | components/gantt-chart-db.tsx:492 | a clipped start month inside the window is offset by exactly its number of whole columns from the window's first month, within [0, 100) |
| Layout.LeftAtMonth | components/gantt-chart-db.tsx:492 | a range starting k months into the window is k column widths from the left |
| Layout.LeftBounds | components/gantt-chart-db.tsx:492 | a clipped start month inside the window gives a left offset in [0, 100) |
| Layout.BarWidthPositive | components/gantt-chart-db.tsx:494-516 | the width formula is positive when the end days are real days of the range |
| Layout.BarWidthAtMostSpan | components/gantt-chart-db.tsx:494-516 | a bar is no wider than the columns of the months it spans when its days fit the lengths passed in |
| Layout.OneMonthAtMostColumn | components/gantt-chart-db.tsx:494-496 | a one-month bar whose days fit the month is at most one column wide |
| Layout.SeveralMonthsAtMostSpan | components/gantt-chart-db.tsx:503-516 | a bar over n > 1 months whose end days fit the lengths passed in is at most n columns wide |
| Layout.WidthPositive | components/gantt-chart-db.tsx:494-516 | every visible bar of an ordered task has positive width, as written and corrected |
| Layout.SingleMonthWidth | components/gantt-chart-db.tsx:494-496 | a one-month task inside the window is visible and not clipped; its width is the one-month formula over its own days, more than 0 and at most one column |
| Layout.OneMonthBarWidth | components/gantt-chart-db.tsx:494-496 | the one-month width is the inclusive day count over the month's length, times the column width |
| Layout.CoveredPrefix | components/gantt-chart-db.tsx:513-514 | up to a month before the last, the covered share is the first month's share plus one column per further month |
| Layout.WholeMonthShare | components/gantt-chart-db.tsx:513-514 | a month strictly between the first and the last is wholly covered |
| Layout.CoveredTotal | components/gantt-chart-db.tsx:494-516 | the covered share of a range is one share, or first share + middle months + last share |
| Layout.BarWidthBySpan | components/gantt-chart-db.tsx:494-516 | the width formula is the column width times the shares it adds up |
| Layout.ClippedWidthIsCoveredShare | components/gantt-chart-db.tsx:494-516 | fed the clipped months' lengths, the width formula equals the column width times the summed covered share of each month |
| Layout.ShareOfColumn | components/gantt-chart-db.tsx:496 | a share a/d of a column, with 0 < a <= d, lies in (0, column] |
| Layout.ColumnsFitWindow | components/gantt-chart-db.tsx:492-496 | an offset of k columns plus a span of s columns with k+s <= count fits in 100% |
| Layout.ClippedBarFits | components/gantt-chart-db.tsx:492-516 | a clipped range with valid, ordered end days ends inside the chart when the clipped months' lengths are used |
| Layout.BarFitsWithLengths | components/gantt-chart-db.tsx:492-516 | a bar whose end days fit the month lengths it is measured against ends inside the chart |
| Layout.IntendedBarFitsWindow | components/gantt-chart-db.tsx:457-524 | in the corrected layout every visible bar of an ordered task lies within [0%, 100%] |
| Layout.AsWrittenIsIntendedInsideWindow | components/gantt-chart-db.tsx:476-477 | the two layouts agree for every task lying wholly inside the window |
| Layout.WorkedExample | components/gantt-chart-db.tsx:457-524 | window Jan-May, task 1 Jan-15 Apr: left 0 and width 70 (20+40+10) |
| Layout.LastVisibleDayExample | components/gantt-chart-db.tsx:484-516 | window Jan-May, task 31 May-10 Jun: left 80 and one day of May's column |
| Layout.AsWrittenOverflowsWindow | components/gantt-chart-db.tsx:476-477 | as written, window Jan-Mar and task 1 Jan-10 Apr give a bar ending at 910/9 % > 100%; the corrected layout ends it at exactly 100% |
| Layout.AsWrittenOverflowsColumn | components/gantt-chart-db.tsx:476-477 | as written, window Mar-Apr and task 10 Feb-31 Mar give a March-only bar wider than March's column |
| TaskList.Filter | components/gantt-chart-db.tsx:527 | `filter` keeps an order-preserving subsequence holding exactly the accepted elements, each as often as in the input |
| TaskList.FilterIdempotent | components/gantt-chart-db.tsx:527 | filtering twice with one test is filtering once |
| TaskList.FilterAll | components/gantt-chart-db.tsx:528 | a test accepting every element keeps the whole list |
| TaskList.FieldMatches | components/gantt-chart-db.tsx:533-534 | definition: an optional field matches when present, non-empty and holding the lower-cased term |
| TaskList.MatchesSearch | components/gantt-chart-db.tsx:528-536 | definition: the search test over name, details, responsible and status label (its consequences are `TaskList.NameOccurrenceMatches`, `TaskList.AbsentFieldDoesNotMatch` and `TaskList.NoOccurrenceRejects`) |
| TaskList.FilteredTasks | components/gantt-chart-db.tsx:527-537 | the shown tasks are an order-preserving subsequence: a task is kept (with its multiplicity) iff it matches the term; an empty term keeps the list |
| TaskList.SearchIdempotent | components/gantt-chart-db.tsx:527-537 | searching the result again with the same term changes nothing |
| TaskList.SearchIgnoresTermCase | components/gantt-chart-db.tsx:530 | a term and its lower-cased form select the same tasks |
| TaskList.NameOccurrenceMatches | components/gantt-chart-db.tsx:532 | a term occurring in the name, ignoring case, selects the task |
| TaskList.AbsentFieldDoesNotMatch | components/gantt-chart-db.tsx:533-534 | an optional field in which the term occurs nowhere does not match |
| TaskList.NoOccurrenceRejects | components/gantt-chart-db.tsx:531-536 | a non-empty term occurring in none of name, details, responsible and status label rejects the task |
| TaskList.RemoveTask | components/gantt-chart-db.tsx:273 | the local delete leaves an order-preserving subsequence with no task of that id and every other task with its multiplicity |
| TaskList.RemoveIdempotent | components/gantt-chart-db.tsx:273 | deleting the same id twice is deleting it once |
| TaskList.RemoveAbsent | components/gantt-chart-db.tsx:273 | deleting an id no task has leaves the list unchanged |
| TaskList.AfterDelete | components/gantt-chart-db.tsx:265-273 | the list is filtered only when the store reports success |
| TaskList.FindById | components/gantt-chart-db.tsx:295-296 | the first task with the id, or none exactly when no task has it |
| TaskList.Flipped | components/gantt-chart-db.tsx:308 | only the completion flag is flipped |
| TaskList.ToggleCompleted | components/gantt-chart-db.tsx:308 | same length and order; each task with the id has only its flag flipped; every other task is unchanged |
| TaskList.ToggleTwice | components/gantt-chart-db.tsx:308 | toggling the same id twice restores the list |
| TaskList.ToggleAbsent | components/gantt-chart-db.tsx:308 | toggling an id no task has leaves the list unchanged |
| TaskList.ToggleKeepsIds | components/gantt-chart-db.tsx:308 | every task keeps its id at its position |
| TaskList.AfterToggle | components/gantt-chart-db.tsx:294-308 | no change when no task has the id or the store fails; otherwise the toggle |
| ClassTokens.FirstSpace | components/task-tooltip.tsx:42 | the first space of a string that holds one |
| ClassTokens.Split | components/task-tooltip.tsx:42 | `split(" ")` gives at least one piece, and no piece holds a space |
| ClassTokens.Join | components/task-tooltip.tsx:42 | definition: the pieces joined with single spaces, the inverse of `split(" ")` (`ClassTokens.JoinSplit`, `ClassTokens.SplitJoin`) |
| ClassTokens.JoinSplit | components/task-tooltip.tsx:42 | joining the split pieces with spaces gives back the string |
| ClassTokens.SplitWord | components/task-tooltip.tsx:42 | a space-free word followed by a space splits off as the first piece |
| ClassTokens.SplitSingle | components/task-tooltip.tsx:42 | a string without a space splits into itself alone |
| ClassTokens.SplitJoin | components/task-tooltip.tsx:42 | splitting a join of space-free pieces gives back the pieces |
| ClassTokens.JoinPieces | components/task-tooltip.tsx:42 | a join of two or three pieces puts single spaces between them |
| ClassTokens.FirstWithPrefix | components/task-tooltip.tsx:42 | `find(startsWith(prefix))` gives the first token with the prefix, or none exactly when no token has it |
| ClassTokens.FirstOfThree | components/task-tooltip.tsx:42 | the first prefixed token among three, when only the first or only the last has the prefix |
| ClassTokens.FirstOfTwo | components/task-tooltip.tsx:42 | the first prefixed token among two in each case: the first when it has the prefix, else the second when it has it, else none |
| ClassTokens.BgColorClass | components/task-tooltip.tsx:41-44 | the result always starts with "bg-"; when some piece starts with "bg-" it is the first such piece, and otherwise it is "bg-gray-100" |
| ClassTokens.TextColorClass | components/task-tooltip.tsx:47-50 | the result is empty or starts with "text-"; it is empty exactly when no piece starts with "text-", else it is the first such piece |
| ClassTokens.DefaultTokens | components/task-tooltip.tsx:43-52 | the grey fallback yields itself as background and no text colour |
| ClassTokens.CriticalColorIsJoin | components/task-tooltip.tsx:12 | the "critical" colour string is its three classes joined by spaces |
| ClassTokens.PrioritizedColorIsJoin | components/task-tooltip.tsx:11 | the "prioritized" colour string is its two classes joined by a space |
| ClassTokens.CriticalSplit | components/task-tooltip.tsx:12 | the "critical" string splits into "bg-indigo-700", "border-indigo-800" and "text-white" |
| ClassTokens.PrioritizedSplit | components/task-tooltip.tsx:11 | the "prioritized" string splits into "bg-blue-100" and "border-blue-200" |
| ClassTokens.SplitThree | components/task-tooltip.tsx:42 | three space-free classes joined by single spaces split back into those three |
| ClassTokens.SplitTwo | components/task-tooltip.tsx:42 | two space-free classes joined by a single space split back into those two |
| ClassTokens.TokenPrefixes | components/task-tooltip.tsx:11-12 | which of those classes start with "bg-" or "text-" |
| ClassTokens.CriticalBadgeTokens | components/task-tooltip.tsx:12 | a "critical" badge gets "bg-indigo-700" and "text-white" |
| ClassTokens.PrioritizedBadgeTokens | components/task-tooltip.tsx:11 | a "prioritized" badge gets "bg-blue-100" and no text class |
| ClassTokens.BadgeColorClasses | components/task-tooltip.tsx:52-53 | a known status's badge gets the first `bg-` and the first `text-` token of that status's colour string; an unknown status gets the grey default and no text class; either way a `bg-` class and an empty or `text-` class |
| ClassTokens.CompletionBadge | components/task-tooltip.tsx:94 | the badge reads "Completada" exactly for a completed task, otherwise "En progreso" |

## Left out

- Store calls are not modelled. This covers the creation, update, delete and toggle requests, loading tasks and seeding. The delete and toggle handlers (components/gantt-chart-db.tsx:262-291, 294-325) keep only the local list update, and whether the store succeeded is a parameter (`TaskList.AfterDelete`, `TaskList.AfterToggle`). The thrown-error path gives the same result as a failure, so it is not modelled separately.
- Timing and UI effects are not modelled: asynchronous ordering, loading flags, toasts, JSX markup, the add and edit forms and their handlers.
- The "Estás aquí" marker and the minimap are not modelled. They are visual approximations (day / 30) with no stated contract.
- `cn` class merging and the date-fns formatting in the tooltip are not modelled. They are library calls whose behaviour is not visible here.
- JavaScript `Date` is reduced to a (month, day) pair in 2025. The chart asks for month lengths in 2025 only, so February has 28 days and no leap year arises. Tasks that cross a year boundary are not handled by the chart and are not modelled. Dates are assumed valid days of 2025 (`Calendar.ValidDate`).
- `Strings.Lower` folds only the ASCII letters A-Z. Full Unicode case mapping is not modelled. All nine Spanish status labels have only ASCII capitals.
- Floating point is not modelled: percentages and the zoom level are exact reals. `Math.round` is modelled as rounding half up, which is what it does for positive numbers. Float rounding of the zoom steps is not modelled either.
- Mouse positions (`clientX`) are integers.
- The stray tokens at components/gantt-chart-db.tsx:498-502 make the file unparseable as shown. `Layout.BarWidth` models the evident branch structure: the one-month branch at 494-496, then the several-months body at 503-516.
- Viewport.ViewportController.JumpToQuarter: accepts only quarters 1 to 4, the only values the four buttons pass.
- Status.TooltipStatusColor: the model follows the declared `TaskStatus` type (types/task.ts:1-10, 17), so its fallback covers every string that is not one of the nine keys. The source looks the key up on a plain object literal (components/task-tooltip.tsx:52), so a status string naming an `Object.prototype` member (`"constructor"`, `"toString"`, `"__proto__"`, ...) finds an inherited, truthy value and never reaches the `"bg-gray-100"` fallback. Prototype lookup is not modelled.
- Status.TooltipStatusName: for the same inherited names the source yields the inherited function or object instead of the raw string (components/task-tooltip.tsx:53). The model gives the raw string.
- ClassTokens.BadgeColorClasses: for those inherited names the source calls `split` on a function or object and throws (components/task-tooltip.tsx:42, 52). The model gives the grey default and no text class.
- TaskList.FilteredTasks: a task's status is a `TaskStatus`, as the type declares (types/task.ts:17). The source reads `statusNames[task.status].toLowerCase()` with no fallback (components/gantt-chart-db.tsx:535), so a stored status outside the nine keys, with a non-empty term that no earlier field matches, throws. The model cannot represent such a task.
- The completion flag is optional in the chart's record type and is read by truthiness, so an absent flag is modelled as `false`.
- Layout.TaskPositionIntended: its covered-share property is stated for the clipped range (`Layout.ClippedWidthIsCoveredShare`), which is what its width is computed from. It is not restated at the level of the task's dates.

## Findings

| source | as written | input that shows it | evidently intended | confidence | as-written member | corrected member |
|---|---|---|---|---|---|---|
| components/gantt-chart-db.tsx:476-477 | the first- and last-month shares divide the clipped days by the lengths of the task's unclipped start and end months | window January-March (zoom 1.5, three columns), task 1 January - 10 April: the end is clipped to 31 March but divided by April's 30 days, so left + width = 910/9 % > 100% | divide by the lengths of the clipped months, so each visible month contributes the share of its own days and the bar ends inside the chart | not executed | Layout.AsWrittenOverflowsWindow | Layout.IntendedBarFitsWindow |
