/**
 * The vertical layout of one timeline column. The day view (DayColumn) and
 * the machine view (MachineColumn) run the same loop over blocks sorted by
 * start time; they differ only in how a block's start and duration in
 * minutes are obtained, which is the `minutes` argument of `PlaceColumn`.
 *
 * Per block, in order:
 *  1. raw top and height from the minute offsets, the height capped at the
 *     24-hour bound `24 * hourHeight`;
 *  2. gap shift: when the raw top is within 1 px of the previous block's
 *     end, the top becomes that end plus the 2 px gap;
 *  3. every block but the last is shrunk by the 2 px gap;
 *  4. a 40 px minimum height, never more than the space left to the bound.
 * Pixel arithmetic is exact (`real`).
 */
module ColumnLayout {
  import opened Blocks

  const GapSize: real := 2.0
  const MinHeight: real := 40.0

  /** A block's position on the time axis, in minutes from the column top. */
  datatype Span = Span(startMinutes: real, durationMinutes: real)

  /** `adjustedTopPosition`, `adjustedHeight` and `isLast`. */
  datatype Placement = Placement(top: real, height: real, isLast: bool)

  /** A block with the three layout fields added and nothing else changed. */
  datatype PositionedBlock = PositionedBlock(block: Block, place: Placement)

  /** The bottom of the column: 24 hours. */
  function Bound(hourHeight: real): real {
    24.0 * hourHeight
  }

  function BaseTop(span: Span, hourHeight: real): real {
    span.startMinutes / 60.0 * hourHeight
  }

  /** The raw height, capped so that the raw rectangle ends by the bound. */
  function BaseHeight(span: Span, hourHeight: real): (h: real)
    ensures h <= Bound(hourHeight) - BaseTop(span, hourHeight)
    ensures h <= span.durationMinutes / 60.0 * hourHeight
    ensures h == span.durationMinutes / 60.0 * hourHeight || h == Bound(hourHeight) - BaseTop(span, hourHeight)
  {
    Min(span.durationMinutes / 60.0 * hourHeight, Bound(hourHeight) - BaseTop(span, hourHeight))
  }

  /** The top after the gap shift, given the previous block's placement. */
  function ShiftedTop(baseTop: real, previous: Option<Placement>): real {
    match previous
    case None => baseTop
    case Some(p) =>
      var previousEnd := p.top + p.height;
      if Abs(baseTop - previousEnd) < 1.0 then previousEnd + GapSize else baseTop
  }

  /**
   * One block's placement. The height is the shrunk target clamped to
   * [40, space left]; the upper end of the clamp wins when the space left is
   * below 40.
   */
  function Step(span: Span, previous: Option<Placement>, isLast: bool, hourHeight: real): Placement {
    var top := ShiftedTop(BaseTop(span, hourHeight), previous);
    var target := if isLast then BaseHeight(span, hourHeight) else BaseHeight(span, hourHeight) - GapSize;
    Placement(top, Min(Max(target, MinHeight), Bound(hourHeight) - top), isLast)
  }

  /** The placements of the first `n` blocks of a column of `spans`. */
  function LayoutPrefix(spans: seq<Span>, n: nat, hourHeight: real): (r: seq<Placement>)
    requires n <= |spans|
    ensures |r| == n
  {
    if n == 0 then []
    else
      var p := LayoutPrefix(spans, n - 1, hourHeight);
      p + [Step(spans[n - 1], if n == 1 then None else Some(p[n - 2]), n == |spans|, hourHeight)]
  }

  /** The placements of a whole column. */
  function Layout(spans: seq<Span>, hourHeight: real): seq<Placement> {
    LayoutPrefix(spans, |spans|, hourHeight)
  }

  function SpansOf(blocks: seq<Block>, minutes: Block -> Span): (r: seq<Span>)
    ensures |r| == |blocks| && forall i :: 0 <= i < |blocks| ==> r[i] == minutes(blocks[i])
  {
    seq(|blocks|, i requires 0 <= i < |blocks| => minutes(blocks[i]))
  }

  /** The blocks of a laid-out column, with the layout fields dropped. */
  function BlocksOf(positioned: seq<PositionedBlock>): (r: seq<Block>)
    ensures |r| == |positioned| && forall i :: 0 <= i < |r| ==> r[i] == positioned[i].block
  {
    seq(|positioned|, i requires 0 <= i < |positioned| => positioned[i].block)
  }

  // ---------------------------------------------------------------------------
  // Facts about one step.

  /** The shift only ever moves a top down, and by less than 3 px. */
  lemma ShiftedTopRange(baseTop: real, previous: Option<Placement>)
    ensures baseTop <= ShiftedTop(baseTop, previous) < baseTop + 3.0
  {
  }

  /**
   * The height after the 40 px minimum (DayColumn.jsx line 57) never reaches
   * past the bound, so the "final check" after it can never change anything.
   */
  lemma FinalCheckNeverFires(top: real, target: real, hourHeight: real)
    ensures var maxAllowed := Bound(hourHeight) - top;
            var h := Min(Max(Min(target, maxAllowed), MinHeight), maxAllowed);
            top + h <= Bound(hourHeight)
            && h == Min(Max(target, MinHeight), maxAllowed)
  {
  }

  // ---------------------------------------------------------------------------
  // Facts about a whole column.

  lemma {:induction false} LayoutPrefixStable(spans: seq<Span>, m: nat, n: nat, hourHeight: real, i: nat)
    requires i < m <= n <= |spans|
    ensures LayoutPrefix(spans, n, hourHeight)[i] == LayoutPrefix(spans, m, hourHeight)[i]
    decreases n
  {
    if m < n {
      LayoutPrefixStable(spans, m, n - 1, hourHeight, i);
    }
  }

  /** Entry `i` of a column is the step rule applied to entry `i - 1`. */
  lemma LayoutAt(spans: seq<Span>, hourHeight: real, i: nat)
    requires i < |spans|
    ensures |Layout(spans, hourHeight)| == |spans|
    ensures Layout(spans, hourHeight)[i]
         == Step(spans[i], if i == 0 then None else Some(Layout(spans, hourHeight)[i - 1]),
                 i == |spans| - 1, hourHeight)
  {
    LayoutPrefixStable(spans, i + 1, |spans|, hourHeight, i);
    if i > 0 {
      LayoutPrefixStable(spans, i, |spans|, hourHeight, i - 1);
      LayoutPrefixStable(spans, i, i + 1, hourHeight, i - 1);
    }
  }

  /** One entry per block; `isLast` holds exactly for the final index. */
  lemma LayoutShape(spans: seq<Span>, hourHeight: real)
    ensures |Layout(spans, hourHeight)| == |spans|
    ensures forall i :: 0 <= i < |spans| ==> (Layout(spans, hourHeight)[i].isLast <==> i == |spans| - 1)
  {
    forall i | 0 <= i < |spans| ensures Layout(spans, hourHeight)[i].isLast <==> i == |spans| - 1 {
      LayoutAt(spans, hourHeight, i);
    }
  }

  /**
   * Every block ends by the bound, and is at least 40 px tall unless less
   * than 40 px are left below its top.
   */
  lemma LayoutWithinBound(spans: seq<Span>, hourHeight: real, i: nat)
    requires i < |spans|
    ensures var p := Layout(spans, hourHeight)[i];
            p.top + p.height <= Bound(hourHeight)
            && p.height >= Min(MinHeight, Bound(hourHeight) - p.top)
  {
    LayoutAt(spans, hourHeight, i);
  }

  /** The first block is never shifted. */
  lemma LayoutFirstUnshifted(spans: seq<Span>, hourHeight: real)
    requires |spans| > 0
    ensures Layout(spans, hourHeight)[0].top == BaseTop(spans[0], hourHeight)
  {
    LayoutAt(spans, hourHeight, 0);
  }

  /**
   * The shift rule: a later block moves to the previous end plus the gap
   * exactly when its raw top is within 1 px of that end.
   */
  lemma LayoutShiftRule(spans: seq<Span>, hourHeight: real, i: nat)
    requires 0 < i < |spans|
    ensures var previous := Layout(spans, hourHeight)[i - 1];
            var previousEnd := previous.top + previous.height;
            var baseTop := BaseTop(spans[i], hourHeight);
            Layout(spans, hourHeight)[i].top
              == if Abs(baseTop - previousEnd) < 1.0 then previousEnd + GapSize else baseTop
  {
    LayoutAt(spans, hourHeight, i);
  }

  /**
   * The shrink rule: a block that leaves room for the minimum and the bound
   * keeps its capped raw height, less the gap unless it is the last one.
   */
  lemma LayoutShrinkRule(spans: seq<Span>, hourHeight: real, i: nat)
    requires i < |spans|
    ensures var p := Layout(spans, hourHeight)[i];
            var target := if i == |spans| - 1 then BaseHeight(spans[i], hourHeight)
                          else BaseHeight(spans[i], hourHeight) - GapSize;
            MinHeight <= target <= Bound(hourHeight) - p.top ==> p.height == target
  {
    LayoutAt(spans, hourHeight, i);
  }

  /** Tops are never above the column when no block starts before it. */
  lemma LayoutTopNonNegative(spans: seq<Span>, hourHeight: real, i: nat)
    requires i < |spans|
    requires 0.0 <= spans[i].startMinutes && 0.0 <= hourHeight
    ensures Layout(spans, hourHeight)[i].top >= 0.0
  {
    var previous := LayoutTop(spans, hourHeight, i);
    NonNegativeProduct(spans[i].startMinutes / 60.0, hourHeight);
    assert BaseTop(spans[i], hourHeight) >= 0.0;
    ShiftedTopRange(BaseTop(spans[i], hourHeight), previous);
  }

  /** Entry `i`'s top is its shifted raw top, given the entry before it. */
  lemma LayoutTop(spans: seq<Span>, hourHeight: real, i: nat) returns (previous: Option<Placement>)
    requires i < |spans|
    ensures previous == if i == 0 then None else Some(Layout(spans, hourHeight)[i - 1])
    ensures Layout(spans, hourHeight)[i].top == ShiftedTop(BaseTop(spans[i], hourHeight), previous)
  {
    LayoutAt(spans, hourHeight, i);
    previous := if i == 0 then None else Some(Layout(spans, hourHeight)[i - 1]);
    StepTop(spans[i], previous, i == |spans| - 1, hourHeight);
  }

  /** A step's top is the shifted raw top, whatever its height. */
  lemma StepTop(span: Span, previous: Option<Placement>, isLast: bool, hourHeight: real)
    ensures Step(span, previous, isLast, hourHeight).top == ShiftedTop(BaseTop(span, hourHeight), previous)
  {
  }

  lemma NonNegativeProduct(a: real, b: real)
    requires 0.0 <= a && 0.0 <= b
    ensures 0.0 <= a * b
  {
  }

  /**
   * How far past the bound a top can go: a block that does not start after
   * 24:00 is pushed at most one gap below the column, and its height is then
   * at worst minus one gap (the case of `ShiftPastBound`).
   */
  lemma LayoutOvershootAtMostGap(spans: seq<Span>, hourHeight: real, i: nat)
    requires i < |spans|
    requires BaseTop(spans[i], hourHeight) <= Bound(hourHeight)
    ensures var p := Layout(spans, hourHeight)[i];
            p.top <= Bound(hourHeight) + GapSize && p.height >= -GapSize
  {
    LayoutAt(spans, hourHeight, i);
    if i > 0 {
      LayoutWithinBound(spans, hourHeight, i - 1);
    }
  }

  /**
   * The top stays inside the column, and the height positive, for a block
   * whose raw top is at least 3 px above the bound: the shift moves a top
   * down by less than that.
   */
  lemma LayoutTopWithinBound(spans: seq<Span>, hourHeight: real, i: nat)
    requires i < |spans|
    requires BaseTop(spans[i], hourHeight) + 3.0 <= Bound(hourHeight)
    ensures var p := Layout(spans, hourHeight)[i];
            p.top < Bound(hourHeight) && p.height > 0.0
            && p.height >= Min(MinHeight, Bound(hourHeight) - p.top)
  {
    LayoutAt(spans, hourHeight, i);
    var previous := if i == 0 then None else Some(Layout(spans, hourHeight)[i - 1]);
    ShiftedTopRange(BaseTop(spans[i], hourHeight), previous);
  }

  /**
   * Consecutive blocks do not overlap when their raw rectangles do not and
   * the earlier one is tall enough (42 px) that the 40 px minimum never
   * inflates it after the 2 px shrink.
   */
  lemma LayoutNoOverlap(spans: seq<Span>, hourHeight: real, i: nat)
    requires i + 1 < |spans|
    requires BaseTop(spans[i + 1], hourHeight) >= BaseTop(spans[i], hourHeight) + BaseHeight(spans[i], hourHeight)
    requires BaseHeight(spans[i], hourHeight) >= MinHeight + GapSize
    ensures var p := Layout(spans, hourHeight)[i];
            Layout(spans, hourHeight)[i + 1].top >= p.top + p.height
  {
    LayoutAt(spans, hourHeight, i);
    LayoutAt(spans, hourHeight, i + 1);
    var previous := if i == 0 then None else Some(Layout(spans, hourHeight)[i - 1]);
    ShiftedTopRange(BaseTop(spans[i], hourHeight), previous);
  }

  // ---------------------------------------------------------------------------
  // Concrete columns at 80 px per hour.

  /**
   * Adjacent blocks [0h, 3h) and [3h, 5h) get their gap from the shrink, not
   * the shift: (top 0, height 238) and (top 240, height 160).
   */
  lemma AdjacentBlocksExample()
    ensures Layout([Span(0.0, 180.0), Span(180.0, 120.0)], 80.0)
         == [Placement(0.0, 238.0, false), Placement(240.0, 160.0, true)]
  {
    var spans := [Span(0.0, 180.0), Span(180.0, 120.0)];
    LayoutAt(spans, 80.0, 0);
    LayoutAt(spans, 80.0, 1);
  }

  /**
   * Non-overlap is not guaranteed: a 10-minute block inflated to 40 px covers
   * the top of a block that starts 15 minutes in, and no shift fires.
   */
  lemma InflatedBlockOverlapsNext()
    ensures var c := Layout([Span(0.0, 10.0), Span(15.0, 45.0)], 80.0);
            c[0] == Placement(0.0, 40.0, false)
            && c[1].top == 20.0
            && c[1].top < c[0].top + c[0].height
  {
    var spans := [Span(0.0, 10.0), Span(15.0, 45.0)];
    LayoutAt(spans, 80.0, 0);
    LayoutAt(spans, 80.0, 1);
  }

  /**
   * The bound on the top is not guaranteed: a block that starts within 1 px
   * of a previous block ending exactly at 24:00 is shifted past the bound,
   * and the space left, hence its height, is negative.
   */
  lemma ShiftPastBound()
    ensures var c := Layout([Span(1410.0, 29.5), Span(1439.5, 0.5)], 80.0);
            c[0] == Placement(1880.0, 40.0, false)
            && c[1].top == 1922.0 > Bound(80.0)
            && c[1].height == -2.0
  {
    var spans := [Span(1410.0, 29.5), Span(1439.5, 0.5)];
    LayoutAt(spans, 80.0, 0);
    LayoutAt(spans, 80.0, 1);
  }

  // ---------------------------------------------------------------------------
  // The loop.

  /**
   * The `forEach` over the sorted blocks that pushes each positioned block
   * and reads the previous pushed entry for the gap shift.
   */
  method PlaceColumn(blocks: seq<Block>, minutes: Block -> Span, hourHeight: real)
    returns (positioned: seq<PositionedBlock>)
    ensures |positioned| == |blocks|
    ensures BlocksOf(positioned) == blocks
    ensures forall i :: 0 <= i < |blocks| ==>
              positioned[i].place == Layout(SpansOf(blocks, minutes), hourHeight)[i]
    ensures forall i :: 0 <= i < |blocks| ==> (positioned[i].place.isLast <==> i == |blocks| - 1)
    ensures forall i :: 0 <= i < |blocks| ==>
              positioned[i].place.top + positioned[i].place.height <= Bound(hourHeight)
    ensures forall i :: 0 <= i < |blocks| ==>
              positioned[i].place.height >= Min(MinHeight, Bound(hourHeight) - positioned[i].place.top)
  {
    ghost var spans := SpansOf(blocks, minutes);
    ghost var placed: seq<Placement> := [];
    positioned := [];
    var index := 0;
    while index < |blocks|
      invariant index <= |blocks|
      invariant |positioned| == index
      invariant placed == LayoutPrefix(spans, index, hourHeight)
      invariant forall i :: 0 <= i < index ==> positioned[i].block == blocks[i]
      invariant forall i :: 0 <= i < index ==> positioned[i].place == placed[i]
    {
      var span := minutes(blocks[index]);
      var baseTopPosition := BaseTop(span, hourHeight);
      var baseHeight := BaseHeight(span, hourHeight);

      var adjustedTopPosition := baseTopPosition;
      if index > 0 {
        var previousBlock := positioned[index - 1].place;
        var previousEndPosition := previousBlock.top + previousBlock.height;
        if Abs(baseTopPosition - previousEndPosition) < 1.0 {
          adjustedTopPosition := previousEndPosition + GapSize;
        }
      }

      var maxAllowedHeight := Bound(hourHeight) - adjustedTopPosition;
      var adjustedHeight := if index < |blocks| - 1
        then Min(baseHeight - GapSize, maxAllowedHeight)
        else Min(baseHeight, maxAllowedHeight);
      adjustedHeight := Min(Max(adjustedHeight, MinHeight), maxAllowedHeight);

      var finalEndPosition := adjustedTopPosition + adjustedHeight;
      if finalEndPosition > Bound(hourHeight) {
        adjustedHeight := Bound(hourHeight) - adjustedTopPosition;
      }

      ghost var previous := if index == 0 then None else Some(placed[index - 1]);
      ghost var step := Step(spans[index], previous, index + 1 == |spans|, hourHeight);
      assert span == spans[index];
      assert adjustedTopPosition == ShiftedTop(baseTopPosition, previous);
      assert adjustedHeight == step.height;
      placed := placed + [step];
      positioned := positioned + [PositionedBlock(blocks[index],
                                  Placement(adjustedTopPosition, adjustedHeight, index == |blocks| - 1))];
      index := index + 1;
    }
    LayoutShape(spans, hourHeight);
    forall i | 0 <= i < |blocks|
      ensures positioned[i].place.top + positioned[i].place.height <= Bound(hourHeight)
      ensures positioned[i].place.height >= Min(MinHeight, Bound(hourHeight) - positioned[i].place.top)
    {
      LayoutWithinBound(spans, hourHeight, i);
    }
  }
}
