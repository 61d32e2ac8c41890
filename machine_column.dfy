/**
 * The machine-view column: the blocks of one machine, sorted by start, laid
 * out by the shared column loop with minutes read from the wall clock (hour
 * and minute, seconds dropped) and a negative duration wrapped past midnight.
 */
module MachineColumn {
  import opened Blocks
  import opened ColumnLayout

  /** `getHours() * 60 + getMinutes()` of instant `t`. */
  function WallMinutes(t: int): (r: int)
    ensures 0 <= r < MinutesPerDay
    ensures r == (t % DayMs) / MinuteMs
  {
    var hours := (t % DayMs) / HourMs;
    var minutes := (t % HourMs) / MinuteMs;
    WallClockParts(t);
    hours * 60 + minutes
  }

  /** The hour and the minute of the hour make up the whole minutes of the day. */
  lemma WallClockParts(t: int)
    ensures (t % DayMs) / HourMs * 60 + (t % HourMs) / MinuteMs == (t % DayMs) / MinuteMs
    ensures 0 <= (t % DayMs) / MinuteMs < MinutesPerDay
  {
    var a := t / DayMs;
    var d := t % DayMs;
    var h := d / HourMs;
    var e := d % HourMs;
    var m := e / MinuteMs;
    var f := e % MinuteMs;
    assert t == (24 * a + h) * HourMs + e;
    assert t % HourMs == e;
    assert d == (60 * h + m) * MinuteMs + f;
    assert d / MinuteMs == 60 * h + m;
  }

  /** Seconds and milliseconds do not move a block on the wall-clock axis. */
  lemma WallMinutesIgnoresSeconds(t: int, s: int)
    requires 0 <= s < MinuteMs
    ensures WallMinutes(t - t % MinuteMs + s) == WallMinutes(t)
  {
    var m := t - t % MinuteMs;
    assert m % MinuteMs == 0;
    assert t % DayMs == (t / DayMs) * 0 + t % DayMs;
    var q := t / MinuteMs;
    assert m == q * MinuteMs;
    assert (m + s) / MinuteMs == q;
    assert t / MinuteMs == q;
    DivDay(t, q, t % MinuteMs);
    DivDay(m + s, q, s);
  }

  /** The wall-clock minute of `q * MinuteMs + r` depends only on `q`. */
  lemma DivDay(t: int, q: int, r: int)
    requires 0 <= r < MinuteMs && t == q * MinuteMs + r
    ensures (t % DayMs) / MinuteMs == q % MinutesPerDay
  {
    var k := q / MinutesPerDay;
    var w := q % MinutesPerDay;
    assert t == k * DayMs + (w * MinuteMs + r);
    assert 0 <= w * MinuteMs + r < DayMs;
    assert t % DayMs == w * MinuteMs + r;
  }

  /**
   * Start and duration on the wall-clock axis. A negative difference means
   * the block ends after midnight and becomes `1440 - start + end`.
   */
  function MachineSpan(b: Block): (r: Span)
    ensures r.startMinutes == WallMinutes(b.start) as real
    ensures 0.0 <= r.durationMinutes < MinutesPerDay as real
    ensures r.durationMinutes == ((WallMinutes(b.end) - WallMinutes(b.start)) % MinutesPerDay) as real
  {
    var startMinutes := WallMinutes(b.start);
    var endMinutes := WallMinutes(b.end);
    var duration := endMinutes - startMinutes;
    var duration' := if duration < 0 then 24 * 60 - startMinutes + endMinutes else duration;
    Span(startMinutes as real, duration' as real)
  }

  /**
   * A block that ends exactly at the next midnight reaches the bottom of
   * the column: its raw rectangle ends at 24 hours.
   */
  lemma EndsAtMidnightReachesBottom(b: Block, hourHeight: real)
    requires WallMinutes(b.start) > 0 && b.end % DayMs == 0
    ensures var span := MachineSpan(b);
            span.startMinutes + span.durationMinutes == MinutesPerDay as real
            && BaseTop(span, hourHeight) + BaseHeight(span, hourHeight) == Bound(hourHeight)
  {
    var span := MachineSpan(b);
    assert WallMinutes(b.end) == 0;
    assert span.startMinutes + span.durationMinutes == 1440.0;
    EndsAtBound(span, hourHeight);
  }

  lemma EndsAtBound(span: Span, hourHeight: real)
    requires span.startMinutes + span.durationMinutes == 1440.0
    ensures BaseTop(span, hourHeight) + BaseHeight(span, hourHeight) == Bound(hourHeight)
  {
    var a := span.startMinutes / 60.0;
    var d := span.durationMinutes / 60.0;
    assert a + d == 24.0;
    assert a * hourHeight + d * hourHeight == (a + d) * hourHeight;
  }

  /** A block lasting exactly 24 hours collapses to a zero-minute duration. */
  lemma FullDayCollapses(b: Block)
    requires b.end == b.start + DayMs
    ensures MachineSpan(b).durationMinutes == 0.0
  {
    assert b.end % DayMs == b.start % DayMs;
  }

  function MachineMinutes(): Block -> Span {
    (b: Block) => MachineSpan(b)
  }

  /** The blocks of one machine, ascending by start. */
  function MachineBlocks(blocks: seq<Block>, machineId: string): (r: seq<Block>)
    ensures forall i :: 0 <= i < |r| ==> r[i].machineId == machineId
    ensures SortedByStart(r)
    ensures multiset(r) == multiset(Filter(blocks, OnMachine(machineId)))
  {
    var own := Filter(blocks, OnMachine(machineId));
    var r := SortByStart(own);
    assert forall i :: 0 <= i < |r| ==> r[i].machineId == machineId by {
      forall i | 0 <= i < |r| ensures r[i].machineId == machineId {
        assert r[i] in multiset(r);
        assert r[i] in own;
        var j :| 0 <= j < |own| && own[j] == r[i];
        assert OnMachine(machineId)(own[j]);
      }
    }
    r
  }

  /**
   * The column for `machineId`: one entry per block of that machine, in
   * ascending start order, each block unchanged and placed by the column
   * layout of its wall-clock minutes.
   */
  method LayoutMachineColumn(machineId: string, blocks: seq<Block>, hourHeight: real)
    returns (positioned: seq<PositionedBlock>)
    ensures |positioned| == |Filter(blocks, OnMachine(machineId))|
    ensures BlocksOf(positioned) == MachineBlocks(blocks, machineId)
    ensures forall i :: 0 <= i < |positioned| ==> positioned[i].block.machineId == machineId
    ensures SortedByStart(BlocksOf(positioned))
    ensures multiset(BlocksOf(positioned)) == multiset(Filter(blocks, OnMachine(machineId)))
    ensures forall i :: 0 <= i < |positioned| ==>
              positioned[i].place
                == Layout(SpansOf(MachineBlocks(blocks, machineId), MachineMinutes()), hourHeight)[i]
    ensures forall i :: 0 <= i < |positioned| ==> (positioned[i].place.isLast <==> i == |positioned| - 1)
    ensures forall i :: 0 <= i < |positioned| ==>
              positioned[i].place.top + positioned[i].place.height <= Bound(hourHeight)
  {
    var machineBlocks := MachineBlocks(blocks, machineId);
    positioned := PlaceColumn(machineBlocks, MachineMinutes(), hourHeight);
  }
}
