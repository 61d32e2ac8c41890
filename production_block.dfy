/**
 * One rendered block: its top and height (the column's values when given,
 * otherwise computed from the wall clock), the 40 px rendered floor, the
 * small-block rule and what the block shows.
 */
module ProductionBlock {
  import opened Blocks
  import opened ColumnLayout
  import opened MachineColumn

  const MinRenderedHeight: real := 40.0
  const SmallHeight: real := 60.0

  /** The top from the start's wall-clock hour and minute. */
  function FallbackTop(b: Block, hourHeight: real): real {
    WallMinutes(b.start) as real / 60.0 * hourHeight
  }

  /** The height from the wall-clock minute difference, without wrapping past midnight. */
  function FallbackHeight(b: Block, hourHeight: real): real {
    (WallMinutes(b.end) - WallMinutes(b.start)) as real / 60.0 * hourHeight
  }

  datatype BlockView = BlockView(top: real, height: real, isSmall: bool, padding: string,
                                 title: string, showQuantity: bool)

  function Render(b: Block, hourHeight: real, topPosition: Option<real>, blockHeight: Option<real>): (r: BlockView)
    ensures r.top == (if topPosition.Some? then topPosition.value else FallbackTop(b, hourHeight))
    ensures var h := if blockHeight.Some? then blockHeight.value else FallbackHeight(b, hourHeight);
            r.height >= MinRenderedHeight && r.height >= h && (r.height == h || r.height == MinRenderedHeight)
    ensures r.isSmall <==> r.height < SmallHeight
    ensures r.padding == "p-1" <==> r.isSmall
    ensures r.showQuantity <==> b.IsProduction() && !r.isSmall
    ensures r.title == if b.IsProduction() then b.payload.productName else b.payload.description
  {
    var calculatedTopPosition := if topPosition.Some? then topPosition.value else FallbackTop(b, hourHeight);
    var calculatedHeight := if blockHeight.Some? then blockHeight.value else FallbackHeight(b, hourHeight);
    var isProduction := b.IsProduction();
    var finalHeight := Max(calculatedHeight, 40.0);
    var isSmallBlock := finalHeight < 60.0;
    BlockView(calculatedTopPosition, finalHeight, isSmallBlock, if isSmallBlock then "p-1" else "p-2",
              if isProduction then b.payload.productName else b.payload.description,
              isProduction && !isSmallBlock)
  }

  /** Without column values the top is where the machine column puts the raw top. */
  lemma FallbackTopIsMachineTop(b: Block, hourHeight: real)
    ensures Render(b, hourHeight, None, None).top == BaseTop(MachineSpan(b), hourHeight)
  {
  }

  /**
   * Without column values the height is the machine column's raw duration
   * when the block does not cross midnight on the wall clock; across
   * midnight it is negative and renders at the 40 px floor.
   */
  lemma FallbackHeightCases(b: Block, hourHeight: real)
    requires hourHeight > 0.0
    ensures WallMinutes(b.start) <= WallMinutes(b.end) ==>
              FallbackHeight(b, hourHeight) == MachineSpan(b).durationMinutes / 60.0 * hourHeight
    ensures WallMinutes(b.end) < WallMinutes(b.start) ==>
              FallbackHeight(b, hourHeight) < 0.0 && Render(b, hourHeight, None, None).height == MinRenderedHeight
  {
    if WallMinutes(b.end) < WallMinutes(b.start) {
      var d := (WallMinutes(b.end) - WallMinutes(b.start)) as real / 60.0;
      assert d < 0.0;
      NegativeTimesPositive(d, hourHeight);
    }
  }

  lemma NegativeTimesPositive(a: real, b: real)
    requires a < 0.0 && b > 0.0
    ensures a * b < 0.0
  {
  }

  /**
   * The rendered floor undoes the column's truncation at 24:00: a last block
   * of 15 minutes starting at 23:45 is laid out 20 px tall to end at the bound,
   * but rendered 40 px tall, 20 px past it.
   */
  lemma ReinflatedPastBound(b: Block)
    ensures var c := Layout([Span(1425.0, 15.0)], 80.0);
            var v := Render(b, 80.0, Some(c[0].top), Some(c[0].height));
            c[0] == Placement(1900.0, 20.0, true)
            && v.height == 40.0 && v.top + v.height == 1940.0 > Bound(80.0)
  {
    LayoutAt([Span(1425.0, 15.0)], 80.0, 0);
  }
}
