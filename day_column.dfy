/**
 * The day-view column: the blocks of one calendar day, sorted by start on a
 * copy, laid out by the shared column loop with minute offsets measured from
 * the column's midnight and clamped to the day.
 */
module DayColumn {
  import opened Blocks
  import opened ColumnLayout

  /**
   * Start and duration of a block within the day that begins at `dayStart`:
   * the start offset is clamped below at 0 and the end offset above at 1440.
   */
  function DaySpan(b: Block, dayStart: int): (r: Span)
    ensures r.startMinutes >= 0.0
    ensures r.startMinutes + r.durationMinutes <= MinutesPerDay as real
  {
    var startMinutes := Max(0.0, (b.start - dayStart) as real / (1000.0 * 60.0));
    var endMinutes := Min(24.0 * 60.0, (b.end - dayStart) as real / (1000.0 * 60.0));
    Span(startMinutes, endMinutes - startMinutes)
  }

  function DayMinutes(dayStart: int): Block -> Span {
    (b: Block) => DaySpan(b, dayStart)
  }

  /** A block lying inside the day keeps its exact minute offsets. */
  lemma DaySpanInside(b: Block, dayStart: int)
    requires dayStart <= b.start <= b.end <= dayStart + DayMs
    ensures DaySpan(b, dayStart)
         == Span((b.start - dayStart) as real / 60000.0, (b.end - b.start) as real / 60000.0)
  {
  }

  /**
   * The column for `date`: one entry per block, in ascending start order
   * with ties in input order, each block unchanged and placed by the column
   * layout of its clamped minutes.
   */
  method LayoutDayColumn(date: int, blocks: seq<Block>, hourHeight: real)
    returns (positioned: seq<PositionedBlock>)
    ensures |positioned| == |blocks|
    ensures BlocksOf(positioned) == SortByStart(blocks)
    ensures SortedByStart(BlocksOf(positioned))
    ensures multiset(BlocksOf(positioned)) == multiset(blocks)
    ensures forall i :: 0 <= i < |positioned| ==>
              positioned[i].place
                == Layout(SpansOf(SortByStart(blocks), DayMinutes(Midnight(date))), hourHeight)[i]
    ensures forall i :: 0 <= i < |positioned| ==> (positioned[i].place.isLast <==> i == |positioned| - 1)
    ensures forall i :: 0 <= i < |positioned| ==>
              positioned[i].place.top + positioned[i].place.height <= Bound(hourHeight)
  {
    var sortedBlocks := SortByStart(blocks);
    var dayStart := Midnight(date);
    positioned := PlaceColumn(sortedBlocks, DayMinutes(dayStart), hourHeight);
  }

  /** In the day view no block is placed above the column top. */
  lemma DayColumnTopsNonNegative(blocks: seq<Block>, dayStart: int, hourHeight: real, i: nat)
    requires i < |blocks| && hourHeight >= 0.0
    ensures Layout(SpansOf(blocks, DayMinutes(dayStart)), hourHeight)[i].top >= 0.0
  {
    var spans := SpansOf(blocks, DayMinutes(dayStart));
    assert spans[i] == DaySpan(blocks[i], dayStart);
    LayoutTopNonNegative(spans, hourHeight, i);
  }
}
