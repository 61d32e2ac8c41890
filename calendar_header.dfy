/**
 * The calendar header: previous / next navigation by one day in the daily
 * view and seven days in the individual view, the date-range label, and
 * the machine options of the filter popup and the machine selector.
 */
module CalendarHeader {
  import opened Blocks
  import Layout

  /** Days moved by one navigation step. */
  function StepDays(viewMode: ViewMode): (r: int)
    ensures viewMode == Daily ==> r == 1
    ensures viewMode == Individual ==> r == Layout.WeekDays
  {
    if viewMode == Daily then 1 else 7
  }

  /** `subDays(currentDate, 1)` in the daily view, `subDays(currentDate, 7)` otherwise. */
  function Previous(currentDate: int, viewMode: ViewMode): (r: int)
    ensures currentDate - r == StepDays(viewMode) * DayMs
  {
    if viewMode == Daily then currentDate - 1 * DayMs else currentDate - 7 * DayMs
  }

  /** `addDays(currentDate, 1)` in the daily view, `addDays(currentDate, 7)` otherwise. */
  function Next(currentDate: int, viewMode: ViewMode): (r: int)
    ensures r - currentDate == StepDays(viewMode) * DayMs
  {
    if viewMode == Daily then currentDate + 1 * DayMs else currentDate + 7 * DayMs
  }

  /** Previous and next in the same view undo each other. */
  lemma NavigationRoundTrip(currentDate: int, viewMode: ViewMode)
    ensures Next(Previous(currentDate, viewMode), viewMode) == currentDate
    ensures Previous(Next(currentDate, viewMode), viewMode) == currentDate
  {
  }

  /** One step moves the shown week (or day) exactly onto the adjacent one. */
  lemma NextShowsFollowingColumns(currentDate: int, viewMode: ViewMode, k: nat)
    ensures Layout.ColumnDay(Next(currentDate, viewMode), k)
         == Layout.ColumnDay(currentDate, k) + StepDays(viewMode) * DayMs
    ensures Next(currentDate, viewMode) - currentDate == StepDays(viewMode) * DayMs
  {
    MidnightShift(currentDate, StepDays(viewMode));
  }

  /** The header's date text: one day, or the first and last day of the week. */
  datatype RangeLabel = SingleDay(day: int) | DayRange(first: int, last: int)

  function Range(currentDate: int, viewMode: ViewMode): RangeLabel {
    if viewMode == Daily then SingleDay(currentDate) else DayRange(currentDate, currentDate + 6 * DayMs)
  }

  /** The individual-view range names the days of the first and the seventh column. */
  lemma RangeMatchesColumns(currentDate: int)
    ensures var r := Range(currentDate, Individual);
            Midnight(r.first) == Layout.ColumnDay(currentDate, 0)
            && Midnight(r.last) == Layout.ColumnDay(currentDate, Layout.WeekDays - 1)
  {
    MidnightShift(currentDate, 6);
  }

  datatype MachineOption = MachineOption(machineId: string, checked: bool)

  /** The filter checkboxes: one per known machine, checked when it is selected. */
  function MachineOptions(selected: seq<string>): (r: seq<MachineOption>)
    ensures |r| == |MachineIds|
    ensures forall i :: 0 <= i < |r| ==> r[i].machineId == MachineIds[i] && (r[i].checked <==> MachineIds[i] in selected)
  {
    seq(|MachineIds|, i requires 0 <= i < |MachineIds| => MachineOption(MachineIds[i], MachineIds[i] in selected))
  }

  /** Clicking a checkbox flips that box and no other. */
  lemma ToggleFlipsOneOption(selected: seq<string>, machineId: string, i: nat)
    requires i < |MachineIds|
    ensures var before := MachineOptions(selected)[i];
            var after := MachineOptions(Layout.ToggleMachine(selected, machineId))[i];
            after.checked == (if MachineIds[i] == machineId then !before.checked else before.checked)
  {
  }
}
