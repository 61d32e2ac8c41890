/**
 * The mobile renderings of the schedule: in the daily view one card per
 * machine, in the individual view one card per day, each listing its blocks
 * by start time. Cards without blocks are not shown.
 */
module MobileScheduleView {
  import opened Blocks
  import opened Text
  import MachineColumn

  datatype MachineCard = MachineCard(machineId: string, blocks: seq<Block>)

  datatype DayCard = DayCard(dayIndex: nat, dayDate: int, blocks: seq<Block>)

  /** The machines of `machines` that have at least one block. */
  function HasBlocks(blocks: seq<Block>): string -> bool {
    (machineId: string) => |MachineColumn.MachineBlocks(blocks, machineId)| > 0
  }

  /** The daily view: a card for each listed machine that has blocks, in list order. */
  function DailyCards(machines: seq<string>, blocks: seq<Block>): (r: seq<MachineCard>)
    ensures var shown := Filter(machines, HasBlocks(blocks));
            |r| == |shown|
            && forall i :: 0 <= i < |r| ==>
                 r[i].machineId == shown[i] && r[i].blocks == MachineColumn.MachineBlocks(blocks, shown[i])
  {
    var shown := Filter(machines, HasBlocks(blocks));
    seq(|shown|, i requires 0 <= i < |shown| => MachineCard(shown[i], MachineColumn.MachineBlocks(blocks, shown[i])))
  }

  /** A machine gets a card exactly when it is listed and has blocks; every card lists blocks. */
  lemma DailyCardsExact(machines: seq<string>, blocks: seq<Block>, machineId: string)
    ensures (exists i :: 0 <= i < |DailyCards(machines, blocks)| && DailyCards(machines, blocks)[i].machineId == machineId)
        <==> machineId in machines && |MachineColumn.MachineBlocks(blocks, machineId)| > 0
    ensures forall i :: 0 <= i < |DailyCards(machines, blocks)| ==> |DailyCards(machines, blocks)[i].blocks| > 0
  {
    var shown := Filter(machines, HasBlocks(blocks));
    var r := DailyCards(machines, blocks);
    if machineId in machines && |MachineColumn.MachineBlocks(blocks, machineId)| > 0 {
      var k :| 0 <= k < |machines| && machines[k] == machineId;
      assert HasBlocks(blocks)(machines[k]);
      var j :| 0 <= j < |shown| && shown[j] == machineId;
      assert r[j].machineId == machineId;
    }
    forall i | 0 <= i < |r| ensures |r[i].blocks| > 0 {
      assert HasBlocks(blocks)(shown[i]);
    }
  }

  /** The blocks starting within the day `[dayDate, dayDate + 1 day)`, by start. */
  function DayCardBlocks(blocks: seq<Block>, dayDate: int): (r: seq<Block>)
    ensures SortedByStart(r)
    ensures forall i :: 0 <= i < |r| ==> dayDate <= r[i].start < dayDate + DayMs
    ensures multiset(r) == multiset(Filter(blocks, StartsWithin(dayDate, dayDate + DayMs)))
  {
    var inDay := Filter(blocks, StartsWithin(dayDate, dayDate + DayMs));
    var r := SortByStart(inDay);
    assert forall i :: 0 <= i < |r| ==> dayDate <= r[i].start < dayDate + DayMs by {
      forall i | 0 <= i < |r| ensures dayDate <= r[i].start < dayDate + DayMs {
        assert r[i] in multiset(r);
        assert r[i] in inDay;
        var j :| 0 <= j < |inDay| && inDay[j] == r[i];
        assert StartsWithin(dayDate, dayDate + DayMs)(inDay[j]);
      }
    }
    r
  }

  /**
   * Unlike the desktop day split, a block that began on an earlier day is
   * not listed again on the days it continues into.
   */
  lemma ContinuationNotListed(blocks: seq<Block>, dayDate: int, b: Block)
    requires b.start < dayDate
    ensures b !in DayCardBlocks(blocks, dayDate)
  {
  }

  /** The positions of the days that have blocks. */
  function ShownDays(days: seq<int>, blocks: seq<Block>): (r: seq<int>)
    ensures forall i :: 0 <= i < |r| ==> 0 <= r[i] < |days| && |DayCardBlocks(blocks, days[r[i]])| > 0
  {
    Filter(Positions(|days|), DayShown(days, blocks))
  }

  function Positions(n: nat): (r: seq<int>)
    ensures |r| == n && forall k :: 0 <= k < n ==> r[k] == k
  {
    seq(n, k => k)
  }

  function DayShown(days: seq<int>, blocks: seq<Block>): int -> bool {
    (k: int) => 0 <= k < |days| && |DayCardBlocks(blocks, days[k])| > 0
  }

  /** The individual view: a card for each day with blocks, keyed by its position. */
  function IndividualCards(days: seq<int>, blocks: seq<Block>): (r: seq<DayCard>)
    ensures var shown := ShownDays(days, blocks);
            |r| == |shown|
            && forall i :: 0 <= i < |r| ==>
                 r[i].dayIndex == shown[i] && r[i].dayDate == days[shown[i]]
                 && r[i].blocks == DayCardBlocks(blocks, days[shown[i]]) && |r[i].blocks| > 0
  {
    var shown := ShownDays(days, blocks);
    seq(|shown|, i requires 0 <= i < |shown| =>
      DayCard(shown[i] as nat, days[shown[i]], DayCardBlocks(blocks, days[shown[i]])))
  }

  /** Every day with blocks gets a card. */
  lemma IndividualCardsComplete(days: seq<int>, blocks: seq<Block>, k: nat)
    requires k < |days| && |DayCardBlocks(blocks, days[k])| > 0
    ensures exists i :: 0 <= i < |IndividualCards(days, blocks)| && IndividualCards(days, blocks)[i].dayIndex == k
  {
    var indices := Positions(|days|);
    assert indices[k] == k && DayShown(days, blocks)(indices[k]);
    var shown := ShownDays(days, blocks);
    var i :| 0 <= i < |shown| && shown[i] == k;
    assert IndividualCards(days, blocks)[i].dayIndex == k;
  }

  /** The title of a block row: `productName || id` for production, else the description. */
  function Label(b: Block): (r: string)
    ensures b.IsProduction() ==> (r == b.payload.productName || r == b.id)
                                 && (b.payload.productName != "" ==> r == b.payload.productName)
                                 && (r == "" ==> b.payload.productName == "" && b.id == "")
    ensures !b.IsProduction() ==> r == b.payload.description
  {
    if b.IsProduction() then (if b.payload.productName != "" then b.payload.productName else b.id)
    else b.payload.description
  }

  /** What one block row shows. */
  datatype Row = Row(title: string, badge: string, format: Option<string>,
                     hours: int, minutes: real, quantity: Option<int>)

  function RowOf(b: Block): (r: Row)
    ensures r.title == Label(b)
    ensures r.badge == (if b.IsProduction() then "Producción" else "Setup")
    ensures r.format.Some? <==> b.IsProduction() && b.payload.format.Some? && b.payload.format.value != ""
    ensures r.format.Some? ==> r.format == b.payload.format
    ensures r.quantity.Some? <==> b.IsProduction() && b.payload.quantity != 0
    ensures r.quantity.Some? ==> r.quantity.value == b.payload.quantity
    ensures b.start <= b.end ==>
              r.hours as real * 60.0 + r.minutes == MinutesBetween(b.start, b.end) && 0.0 <= r.minutes < 60.0
  {
    var duration := MinutesBetween(b.start, b.end);
    assert b.start <= b.end ==>
             DurationHours(duration) as real * 60.0 + DurationMinutes(duration) == duration
             && 0.0 <= DurationMinutes(duration) < 60.0 by {
      if b.start <= b.end {
        DurationSplit(duration);
      }
    }
    var isProduction := b.IsProduction();
    Row(Label(b),
        if isProduction then "Producción" else "Setup",
        if isProduction && b.payload.format.Some? && b.payload.format.value != "" then b.payload.format else None,
        DurationHours(duration), DurationMinutes(duration),
        if isProduction && b.payload.quantity != 0 then Some(b.payload.quantity) else None)
  }
}
