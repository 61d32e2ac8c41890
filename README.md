# Production schedule viewer — verified model of the timeline core

The viewer shows the schedule of the plant's production lines as a calendar.
It has two views:

- a **daily view** with one timeline column per machine;
- an **individual view** with seven day columns for one machine.

The schedule comes from an optimiser as items placed at hour offsets from a
start instant. The viewer turns them into *blocks*. Production blocks come
from `OT` items and adjustment blocks from `SETUP` items. It then keeps the
blocks of the visible window and a 24-hour vertical timeline lays them out.

This project models that core in Dafny:

- **Column layout** (`ColumnLayout`, `DayColumn`, `MachineColumn`): the loop
  that gives each block, in start order, a top, a height and an
  `isLast` flag.
  - The raw rectangle comes from the block's minutes and is capped at the
    24-hour bound.
  - A 2 px gap shift applies when a block starts within 1 px of the previous
    block's end.
  - Every block but the last shrinks by 2 px.
  - Heights have a 40 px minimum, never reaching past the bound.
  - The day column and the machine column share one imperative loop,
    `PlaceColumn`. They differ only in how minutes are obtained:
    - the day column uses offsets from the column's midnight, clamped to the
      day;
    - the machine column uses wall-clock hour and minute, with a negative
      duration wrapped past midnight.
- **Day splitting** (`Layout`): the fragments of a block shown in each of the
  seven day columns. Each fragment is clipped to its day and flagged as a
  continuation or as partial. The fragments tile the block.
- **Machine selection** (`Layout`): the visible machines, the filter toggle
  and the view-mode switch.
- **Schedule conversion, window filters and the error text**
  (`ProductionData`).
- **Small display rules**:
  - the mobile cards (`MobileScheduleView`);
  - the rendered block and its 40 px floor (`ProductionBlock`);
  - the details dialog (`DetailsModal`);
  - the log-line classifier (`ConsoleModal`);
  - the date navigation and machine options (`CalendarHeader`).
- **Shared modules**: `Blocks` holds the vocabulary all of the above share:
  the block record, time constants, filter and stable sort. `Text` holds the
  JavaScript string operations the components rely on.

Conventions:

- Time is an integer number of milliseconds on the local wall clock, and a
  day is a fixed 86 400 000 ms.
- Pixels are exact rationals (`real`), at 80 px per hour in the application.
- JavaScript's `||` fallbacks, `%` (truncating), `Math.floor` and the
  truncation of `new Date(x)` are written out explicitly.

Notes on the code:

- **Item types.** The converter maps only `OT` and `SETUP` items. It drops
  `PRODUCTION` items and never builds order-id lists or merged delay records.
- **Non-overlap and top bound.** Neither holds in general:
  - `InflatedBlockOverlapsNext` shows entries that overlap;
  - `ShiftPastBound` shows a top below the 24-hour bound and a negative
    height.

  Non-overlap is proved under explicit preconditions (`LayoutNoOverlap`).
  For the top, `LayoutTopNonNegative` proves it is never above the column.
  `LayoutOvershootAtMostGap` proves it is at most one 2 px gap past the
  bound, with a height of at least -2 px. `LayoutTopWithinBound` proves it
  stays inside the column, with a positive height, when the raw top is at
  least 3 px above the bound.
- **Invalid dates.** An `OT` or `SETUP` item whose start or end is missing,
  not a number, or out of a `Date`'s range makes `toISOString` throw. The
  load catches the error and shows no blocks at all (`LoadSchedule`).
- **Intersection test.** The day test is a three-case disjunction, not
  interval overlap. The two agree for blocks of positive length
  (`IntersectsIff`).
- **Stale-fetch suppression.** There is none in the code.

## Model

| member | source | states |
|---|---|---|
| Blocks.SortByStart | src/components/DayColumn.jsx:7 | the sorted copy has the same length, is ascending by start time and is a permutation of the input |
| Blocks.SortStable | src/components/DayColumn.jsx:7 | blocks with equal start times keep their input order (ECMAScript sorts are stable) |
| Blocks.Filter | src/components/MachineColumn.jsx:30-31 | every kept element is in the input and passes the test, and every input element that passes is kept |
| Blocks.FilterFilter | src/hooks/useProductionData.js:217-245 | two successive filters keep exactly what one filter on the conjunction keeps |
| Blocks.Midnight | src/components/DayColumn.jsx:18-19 | midnight of `t` is a whole number of days and `t` lies in the day that starts there |
| Blocks.MidnightShift | src/components/Layout.jsx:216-218 | moving an instant by `k` days moves its midnight by `k` days |
| Blocks.Trunc | src/hooks/useProductionData.js:89-90 | a fractional time value is rounded toward zero |
| Blocks.DurationSplit | src/components/DetailsModal.jsx:206 | for a non-negative duration, hours * 60 + minutes is the duration and the minutes lie in [0, 60) |
| Blocks.NegativeDurationSplit | src/components/DetailsModal.jsx:206 | for a negative duration (-30 min) floor and the truncating `%` disagree: -1 h -30 m |
| Text.TrimEmpty | src/components/ConsoleModal.jsx:57 | a line trims to the empty string exactly when it consists of whitespace only |
| Text.NatToStringRoundTrip | src/hooks/useProductionData.js:154 | the decimal text of the status code reads back as the code |
| Text.NatToStringInjective | src/hooks/useProductionData.js:154 | distinct status codes give distinct texts |
| Text.JsonEscapePlain | src/hooks/useProductionData.js:146 | `JSON.stringify` leaves a string without quotes, backslashes or control characters unchanged inside the quotes |
| ColumnLayout.BaseHeight | src/components/DayColumn.jsx:29-34 | the raw height is the duration's height or the space to the bound, whichever is less |
| ColumnLayout.ShiftedTopRange | src/components/DayColumn.jsx:37-45 | the gap shift never moves a top up and moves it down by less than 3 px |
| ColumnLayout.FinalCheckNeverFires | src/components/DayColumn.jsx:57-63 | after the min/max clamp the block ends by the bound, so the final check never changes the height |
| ColumnLayout.LayoutAt | src/components/DayColumn.jsx:38-40 | each entry is the step rule applied to the block and the previous entry |
| ColumnLayout.LayoutShape | src/components/DayColumn.jsx:65-70 | one entry per block, and `isLast` holds exactly for the final index |
| ColumnLayout.LayoutWithinBound | src/components/DayColumn.jsx:48-63 | every entry ends by `24 * hourHeight` and is at least `min(40, space left)` tall |
| ColumnLayout.LayoutFirstUnshifted | src/components/DayColumn.jsx:37-38 | the first block keeps its raw top |
| ColumnLayout.LayoutShiftRule | src/components/DayColumn.jsx:37-45 | a later block moves to the previous end + 2 exactly when its raw top is within 1 px of that end |
| ColumnLayout.LayoutShrinkRule | src/components/DayColumn.jsx:52-57 | a block with room for the minimum gets its raw height, less 2 px unless it is the last |
| ColumnLayout.LayoutTopNonNegative | src/components/DayColumn.jsx:22-29 | with a non-negative start offset a top is never above the column |
| ColumnLayout.LayoutOvershootAtMostGap | src/components/DayColumn.jsx:37-57 | a block whose raw top is not past the bound ends up at most one 2 px gap past it, with height at least -2 |
| ColumnLayout.LayoutTopWithinBound | src/components/DayColumn.jsx:37-57 | a block whose raw top is at least 3 px above the bound gets a top inside the column and a positive height of at least `min(40, space left)` |
| ColumnLayout.LayoutNoOverlap | src/components/DayColumn.jsx:37-57 | consecutive entries do not overlap when their raw rectangles do not and the earlier is at least 42 px tall |
| ColumnLayout.AdjacentBlocksExample | src/components/DayColumn.jsx:29-57 | [0h,3h) and [3h,5h) at 80 px/h give (0, 238) and (240, 160): the gap comes from the shrink |
| ColumnLayout.InflatedBlockOverlapsNext | src/components/DayColumn.jsx:42-57 | a 10-minute block inflated to 40 px overlaps a block starting 15 minutes in |
| ColumnLayout.ShiftPastBound | src/components/DayColumn.jsx:42-57 | a short block inflated to 40 px reaches the bound at 24:00; the next block shifts to 1922 px, past the 1920 px bound, and gets height -2 |
| ColumnLayout.PlaceColumn | src/components/DayColumn.jsx:13-71 | the loop pushes one entry per block with the block unchanged; the entries are the column layout, end by the bound and respect the minimum |
| DayColumn.DaySpan | src/components/DayColumn.jsx:17-26 | the start offset is at least 0 and the end offset at most 1440 minutes from the column's midnight |
| DayColumn.DaySpanInside | src/components/DayColumn.jsx:22-26 | a block inside the day keeps its exact offsets and duration |
| DayColumn.LayoutDayColumn | src/components/DayColumn.jsx:7-71 | one entry per block, in stable ascending start order, a permutation of the input, placed by the column layout of the clamped minutes |
| DayColumn.DayColumnTopsNonNegative | src/components/DayColumn.jsx:22-29 | no day-column block is placed above the top |
| MachineColumn.WallMinutes | src/components/MachineColumn.jsx:41-42 | `hour * 60 + minute` is the minute of the day, in [0, 1440) |
| MachineColumn.WallMinutesIgnoresSeconds | src/components/MachineColumn.jsx:41-42 | seconds and milliseconds do not change the minute |
| MachineColumn.MachineSpan | src/components/MachineColumn.jsx:41-49 | the duration is the end minute − start minute modulo 1440, in [0, 1440) |
| MachineColumn.EndsAtMidnightReachesBottom | src/components/MachineColumn.jsx:45-57 | a block ending at the next midnight reaches the bottom of the column |
| MachineColumn.FullDayCollapses | src/components/MachineColumn.jsx:45-49 | a block of exactly 24 hours gets a zero duration |
| MachineColumn.MachineBlocks | src/components/MachineColumn.jsx:30-32 | only the machine's blocks, ascending by start, a permutation of the filtered blocks |
| MachineColumn.LayoutMachineColumn | src/components/MachineColumn.jsx:30-94 | one entry per block of the machine, ascending, unchanged, placed by the column layout of the wall-clock minutes |
| Layout.ColumnDay | src/components/Layout.jsx:215-218 | day column `k` starts at the current day's midnight plus `k` days |
| Layout.IntersectsIff | src/components/Layout.jsx:233-238 | for a block of positive length the three-case test is `start < nextDay && end > dayDate` |
| Layout.Clip | src/components/Layout.jsx:240-254 | the fragment keeps id, machine and payload, is clipped to the day, and is flagged continuation / partial exactly when cut |
| Layout.SplitForDay | src/components/Layout.jsx:229-257 | the step-by-step copy-and-overwrite yields the clipped fragment exactly for intersecting blocks, else nothing |
| Layout.DayBlocksMembers | src/components/Layout.jsx:228-259 | a day column shows exactly the clipped fragments of the blocks that intersect the day |
| Layout.DayBlocksInOrder | src/components/Layout.jsx:228-259 | the day column's fragments are, one for one and in data order, the clips of the intersecting blocks |
| Layout.DayBlocksConcat | src/components/Layout.jsx:228-259 | the fragments of a concatenation are those of each part, in order |
| Layout.WeekColumns | src/components/Layout.jsx:215-228 | seven columns, column `k` holding the fragments for day `k` |
| Layout.FragmentsTile | src/components/Layout.jsx:215-259 | across consecutive day columns the fragments of a block cover its in-range part end to end, without gap or overlap |
| Layout.Slice | src/components/Layout.jsx:36 | `slice` keeps the elements from position `from` up to `min(to, length)`: exactly `min(to, length) - from` of them when `from` is in range, none when `to <= from` |
| Layout.VisibleMachines | src/components/Layout.jsx:34-42 | the daily view shows a window of at most 7 selected machines in order (the first 7 from index 0); the individual view shows exactly its machine |
| Layout.ToggleMachine | src/components/Layout.jsx:54-60 | the toggled id flips membership, every other id keeps its membership, and an absent id is appended at the end |
| Layout.ToggleTwiceAbsent | src/components/Layout.jsx:54-60 | toggling an absent id twice restores the selection |
| Layout.ToggleTwicePresent | src/components/Layout.jsx:54-60 | toggling a present id twice moves it to the end, the others keep their order |
| Layout.InitialSelection | src/components/Layout.jsx:12-22 | the page starts in the daily view with all machines selected and the first machine as individual machine |
| Layout.InitialView | src/components/Layout.jsx:12-42 | on the first render the daily view shows every known machine in order, and the individual machine is selected |
| Layout.ChangeViewMode | src/components/Layout.jsx:75-80 | the mode is set; entering the individual view with an unselected machine picks `selected[0] \|\| MACHINE_IDS[0]` |
| Layout.IndividualIsSelected | src/components/Layout.jsx:77-78 | after entering the individual view the machine is selected when the first selected id is non-empty |
| Layout.EmptySelectionFallback | src/components/Layout.jsx:78 | with nothing selected the individual machine becomes `Linea_1` |
| ProductionData.OrNumber | src/hooks/useProductionData.js:101 | `a \|\| b` on numbers: absent and zero fall back |
| ProductionData.OrText | src/hooks/useProductionData.js:116 | `a \|\| b` on strings: absent and empty fall back |
| ProductionData.AbsoluteTime | src/hooks/useProductionData.js:89-90 | the instant is the origin plus the hour offset, within 1 ms, not before the origin for non-negative offsets |
| ProductionData.AbsoluteTimeExact | src/hooks/useProductionData.js:89-90 | an offset of whole milliseconds is kept exactly |
| ProductionData.ConvertItem | src/hooks/useProductionData.js:86-121 | an item of another type is dropped; an `OT` or `SETUP` item throws iff a time is not a valid date, else OT gives a production block named after its id and SETUP an adjustment with the synthesised id |
| ProductionData.QuantityFallback | src/hooks/useProductionData.js:101-105 | quantity is `qty_cliente`, else `qty`, else 0, skipping zero; the extra quantity is kept when truthy and is 0 exactly when absent or zero |
| ProductionData.SetupFormat | src/hooks/useProductionData.js:116 | a setup's format is the item's non-empty format, else `N/A` |
| ProductionData.SetupIdsDistinct | src/hooks/useProductionData.js:110 | two setups on one machine share an id exactly when their start offsets format equally |
| ProductionData.ConvertScheduleFails | src/hooks/useProductionData.js:86-121 | the conversion of a schedule fails iff some item's conversion throws |
| ProductionData.ConvertScheduleKnown | src/hooks/useProductionData.js:86-121 | a successful conversion drops exactly the unknown items and converts the others in order |
| ProductionData.ConvertScheduleConcat | src/hooks/useProductionData.js:83-122 | converting a concatenation converts each part, and fails iff either part fails |
| ProductionData.ScheduleOrigin | src/hooks/useProductionData.js:206-207 | the request starts at 08:00 of the selected day |
| ProductionData.LoadSchedule | src/hooks/useProductionData.js:203-255 | a schedule with an item that throws leaves no blocks; otherwise the blocks are the visible ones of the conversion from 08:00 of the day |
| ProductionData.LoadedBlocks | src/hooks/useProductionData.js:215-245 | the successive reassignments keep, in order, exactly the blocks of the selected machine (individual view) that start in the half-open 7-day or 1-day window |
| ProductionData.ValidationLines | src/hooks/useProductionData.js:145 | one `loc.join('.'): msg` line per validation error |
| ProductionData.ErrorMessage | src/hooks/useProductionData.js:137-154 | the message starts with the chosen text, ends with ` (Status: <code>)` and is exactly as long as the two together |
| ProductionData.ValidationMessageListsErrors | src/hooks/useProductionData.js:143-148 | a 422 with a list detail starts with the validation header and contains every error line |
| ProductionData.UnreadableBodyMessage | src/hooks/useProductionData.js:151-154 | an unreadable body reports the status text, else the default text |
| ProductionData.ListDetailOutside422 | src/hooks/useProductionData.js:141 | outside 422 a list detail is shown as `[object Object],[object Object]` |
| MobileScheduleView.DailyCards | src/components/MobileScheduleView.jsx:9-14 | one card per listed machine with blocks, in order, holding that machine's blocks by start |
| MobileScheduleView.DailyCardsExact | src/components/MobileScheduleView.jsx:9-14 | a machine has a card iff it is listed and has blocks, and no card is empty |
| MobileScheduleView.DayCardBlocks | src/components/MobileScheduleView.jsx:97-105 | a day card lists, sorted, exactly the blocks starting in `[dayDate, nextDay)` |
| MobileScheduleView.ContinuationNotListed | src/components/MobileScheduleView.jsx:100-104 | a block begun on an earlier day is not listed |
| MobileScheduleView.ShownDays | src/components/MobileScheduleView.jsx:96-107 | only positions of days with blocks |
| MobileScheduleView.IndividualCards | src/components/MobileScheduleView.jsx:96-107 | one non-empty card per day with blocks, keyed by its position |
| MobileScheduleView.IndividualCardsComplete | src/components/MobileScheduleView.jsx:107 | every day with blocks has a card |
| MobileScheduleView.Label | src/components/MobileScheduleView.jsx:45 | production rows show `productName \|\| id`, others the description |
| MobileScheduleView.RowOf | src/components/MobileScheduleView.jsx:27-69 | the title is `Label`; the badge follows the kind; the format and quantity lines appear only for production with a truthy value, and show the block's values; the duration is split exactly |
| ProductionBlock.Render | src/components/ProductionBlock.jsx:9-48 | the given top is used, else the wall-clock top; the height is at least 40 and the given or computed height; small iff under 60; `p-1` iff small; quantity iff production and not small |
| ProductionBlock.FallbackTopIsMachineTop | src/components/ProductionBlock.jsx:9-11 | without a column top the block sits at the machine column's raw top |
| ProductionBlock.FallbackHeightCases | src/components/ProductionBlock.jsx:13-15 | the computed height is the raw duration height without a midnight crossing; across midnight it is negative and renders at 40 px |
| ProductionBlock.ReinflatedPastBound | src/components/ProductionBlock.jsx:24 | a block the layout truncated to 20 px at 24:00 renders 40 px tall, 20 px past the bound |
| DetailsModal.FindDelayed | src/components/DetailsModal.jsx:77-78 | an OT is delayed iff some entry has its id, and the first such entry is returned |
| DetailsModal.OtRows | src/components/DetailsModal.jsx:69-100 | one row per OT id, with delay hours exactly when a delay entry names it, taken from the first such entry |
| DetailsModal.ConvertedBlockHasNoOtRows | src/components/DetailsModal.jsx:69 | a converted block never shows the OT list |
| DetailsModal.Plural | src/components/DetailsModal.jsx:118-121 | the word itself iff the count is exactly one, else the word with `s` (`OT`/`OTs`, `atrasada`/`atrasadas`) |
| DetailsModal.ProductLabel | src/components/DetailsModal.jsx:66 | the label falls back from `productName` to `product` to `id` |
| DetailsModal.ConvertedProductLabel | src/components/DetailsModal.jsx:66 | a converted production block is labelled with its OT id |
| DetailsModal.Modal | src/components/DetailsModal.jsx:5-206 | nothing when closed or no block; the production title, type, `ProductLabel` and quantity iff production, the description iff not; the format iff truthy and the extra quantity iff > 0, with their values; the OT rows `OtRows` and the `Plural` count iff there are OTs; the delayed count iff there are OTs and delay entries; the duration is split exactly |
| ConsoleModal.Classify | src/components/ConsoleModal.jsx:57-80 | the kind is the first test passed in the order separator, header, success, info, warning, error, saved |
| ConsoleModal.WhiteIffNoTest | src/components/ConsoleModal.jsx:65-80 | a line is white exactly when it passes no test |
| ConsoleModal.BlankLineIsSeparator | src/components/ConsoleModal.jsx:57 | a whitespace-only line is a separator |
| ConsoleModal.HeaderOutranksError | src/components/ConsoleModal.jsx:58-69 | a summary line that also reports an error is coloured as a header |
| ConsoleModal.Display | src/components/ConsoleModal.jsx:84 | an empty line is drawn as a non-breaking space, any other line as itself |
| ConsoleModal.Body | src/components/ConsoleModal.jsx:14-87 | nothing iff closed; the loading placeholder iff open with no logs; else one classified, displayed line per log line |
| CalendarHeader.StepDays | src/components/CalendarHeader.jsx:24-38 | a step is 1 day in the daily view and 7 days otherwise |
| CalendarHeader.Previous | src/components/CalendarHeader.jsx:24-30 | previous moves back by one step |
| CalendarHeader.Next | src/components/CalendarHeader.jsx:32-38 | next moves forward by one step |
| CalendarHeader.NavigationRoundTrip | src/components/CalendarHeader.jsx:24-38 | next after previous, and previous after next, return the original date |
| CalendarHeader.NextShowsFollowingColumns | src/components/CalendarHeader.jsx:32-38 | after next every day column shows the day one step later |
| CalendarHeader.RangeMatchesColumns | src/components/CalendarHeader.jsx:58-60 | the individual range runs from the first to the seventh day column |
| CalendarHeader.MachineOptions | src/components/CalendarHeader.jsx:142-150 | one checkbox per known machine, checked iff selected |
| CalendarHeader.ToggleFlipsOneOption | src/components/CalendarHeader.jsx:147-150 | clicking a checkbox flips that box and no other |

## Left out

- Network and fetch plumbing are left out because they are I/O against a backend that is not part of this model. This covers the HTTP request of schedule loading, the log fetch, the test request fixture (src/hooks/useProductionData.js:6-80, 125-189), and both the success and failure parts of the response handling. `ErrorMessage` takes the status, the status text and the parsed body as parameters.
- The React lifecycle is left out.
  - State hooks, effects and loading flags are not modelled. Of the error path of the load, only the conversion error is modelled (`LoadSchedule`). A failed request is network I/O.
  - The DOM scroll effects, the per-minute clock and the current-time line are not modelled either (src/components/MachineColumn.jsx:11-27, src/components/Layout.jsx:103-118).
  - The code has no stale-fetch suppression, so none is modelled.
- Time zones, daylight saving and `setHours`/`setDate`/`addDays` local-time calendar arithmetic are replaced by a fixed 86 400 000 ms day. The wall clock is the time of day of the millisecond count. The Santiago-time helpers of src/utils/constants.js are not part of this model. Only `MACHINE_IDS` and the two view modes are taken from it.
- Display formatting is left out: `format`, `toLocaleDateString`, `toLocaleString` and `toFixed`, as well as JSX styling. `toISOString` is taken to round-trip the millisecond instant. The range label is modelled as its two dates.
- `SETUP` ids use JavaScript's Number-to-string conversion of the start offset. It is the parameter `numberText`.
- Floating-point rounding is left out. Pixel and offset arithmetic is exact.
- src/utils/mockData.js is not part of this model. Its random fixtures have no stable contract.
- `PRODUCTION`-type multi-order conversion and the merge of delay records are left out because the code does not have them. The details dialog's `product`, `otIds` and `delayedOTs` are optional inputs (`DetailsModal.ModalBlock`). A converted block carries none of them. The mobile OT-list line is omitted for the same reason.
- `ProductionData.RawItem`: JavaScript's numeric coercion of a time is not modelled. A time is given as the number the multiplication makes of it: `null` and `false` as 0, `true` as 1, a numeric string as its value, and anything that becomes `NaN` as absent. The text of a setup id built from such a coerced time (`null`, say) is not modelled either, because `numberText` receives the coerced number.
- `ProductionData.ErrorMessage`: does not cover every error path:
  - an object `detail` that is neither a string nor a list;
  - non-string `loc` entries (numbers are given as their text);
  - an exception thrown while building the 422 text, where the code falls back to the status text.
- `Layout.VisibleMachines`: the visible-machine index is a parameter. The page never changes it from 0.
- `Blocks.SortByStart`: sorting by a comparator on invalid dates (NaN) is not modelled. Start times are integers.
- `DetailsModal.Modal`: the delayed-order summary rows (due and completion hours) are display formatting and left out, as are the click handlers that open and close the dialog.
- `CalendarHeader`: "today" is the current clock value passed through unchanged, so it is left out. The individual-machine selector's change handler only stores the chosen id.
