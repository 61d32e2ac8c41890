/**
 * The details dialog of one block. Besides the converted block's fields it
 * reads `product`, `otIds` and `delayedOTs`, which the schedule converter
 * never sets; they are the optional extension fields of `ModalBlock`.
 */
module DetailsModal {
  import opened Blocks

  /** One entry of `delayedOTs`. */
  datatype DelayedOt = DelayedOt(otId: string, delayHours: real)

  datatype ModalBlock = ModalBlock(block: Block, product: Option<string>,
                                   otIds: Option<seq<string>>, delayedOts: Option<seq<DelayedOt>>)

  /** The block as the converter hands it over: no extension fields. */
  function FromBlock(b: Block): (r: ModalBlock)
    ensures r.block == b && r.product.None? && r.otIds.None? && r.delayedOts.None?
  {
    ModalBlock(b, None, None, None)
  }

  /** `delayedOTs?.find(d => d.otId === otId)`. */
  function FindDelayed(delayed: seq<DelayedOt>, otId: string): (r: Option<DelayedOt>)
    ensures r.Some? <==> exists i :: 0 <= i < |delayed| && delayed[i].otId == otId
    ensures r.Some? ==> exists i :: 0 <= i < |delayed| && delayed[i] == r.value
                                    && r.value.otId == otId
                                    && forall j :: 0 <= j < i ==> delayed[j].otId != otId
  {
    if delayed == [] then None
    else if delayed[0].otId == otId then Some(delayed[0])
    else
      var r := FindDelayed(delayed[1..], otId);
      assert forall i :: 1 <= i < |delayed| ==> delayed[i] == delayed[1..][i - 1];
      if r.Some? then
        assert exists i :: 0 <= i < |delayed| && delayed[i] == r.value && r.value.otId == otId
                           && forall j :: 0 <= j < i ==> delayed[j].otId != otId by {
          var i :| 0 <= i < |delayed[1..]| && delayed[1..][i] == r.value
                   && forall j :: 0 <= j < i ==> delayed[1..][j].otId != otId;
          assert forall j :: 0 <= j < i + 1 ==> delayed[j].otId != otId by {
            forall j | 0 <= j < i + 1 ensures delayed[j].otId != otId {
              if j > 0 { assert delayed[j] == delayed[1..][j - 1]; }
            }
          }
          assert delayed[i + 1] == r.value;
        }
        r
      else r
  }

  /** One row of the OT list: the delay hours when the OT is delayed. */
  datatype OtRow = OtRow(otId: string, delayHours: Option<real>)

  function OtRows(m: ModalBlock): (r: seq<OtRow>)
    ensures m.otIds.None? ==> r == []
    ensures m.otIds.Some? ==> |r| == |m.otIds.value|
    ensures m.otIds.Some? ==> forall i :: 0 <= i < |r| ==>
              r[i].otId == m.otIds.value[i]
              && (r[i].delayHours.Some? <==>
                    m.delayedOts.Some? && exists j :: 0 <= j < |m.delayedOts.value| && m.delayedOts.value[j].otId == r[i].otId)
    ensures m.otIds.Some? ==> forall i :: 0 <= i < |r| && r[i].delayHours.Some? ==>
              exists j :: 0 <= j < |m.delayedOts.value| && m.delayedOts.value[j].otId == r[i].otId
                          && r[i].delayHours.value == m.delayedOts.value[j].delayHours
                          && forall k :: 0 <= k < j ==> m.delayedOts.value[k].otId != r[i].otId
  {
    match m.otIds
    case None => []
    case Some(ids) =>
      seq(|ids|, i requires 0 <= i < |ids| =>
        var found := if m.delayedOts.Some? then FindDelayed(m.delayedOts.value, ids[i]) else None;
        OtRow(ids[i], if found.Some? then Some(found.value.delayHours) else None))
  }

  /** A converted block never shows an OT list. */
  lemma ConvertedBlockHasNoOtRows(b: Block)
    ensures OtRows(FromBlock(b)) == []
  {
  }

  /**
   * A count's word: `n === 1 ? word : word + 's'`, as in `OT` / `OTs` and
   * `atrasada` / `atrasadas`.
   */
  function Plural(n: nat, word: string): (r: string)
    ensures r == word <==> n == 1
    ensures r == word || r == word + "s"
  {
    if n == 1 then word else word + "s"
  }

  /** `productName || product || id`. */
  function ProductLabel(m: ModalBlock): (r: string)
    requires m.block.IsProduction()
    ensures m.block.payload.productName != "" ==> r == m.block.payload.productName
    ensures m.block.payload.productName == "" && m.product.Some? && m.product.value != "" ==> r == m.product.value
    ensures m.block.payload.productName == "" && (m.product.None? || m.product.value == "") ==> r == m.block.id
  {
    var b := m.block;
    if b.payload.productName != "" then b.payload.productName
    else if m.product.Some? && m.product.value != "" then m.product.value
    else b.id
  }

  /** A converted production block is labelled with its OT id. */
  lemma ConvertedProductLabel(b: Block)
    requires b.IsProduction() && b.payload.productName == b.id
    ensures ProductLabel(FromBlock(b)) == b.id
  {
  }

  /** What the dialog shows. */
  datatype Details = Details(
    title: string, typeLabel: string, machineId: string,
    productLabel: Option<string>, otRows: seq<OtRow>,
    otCount: Option<string>, delayedCount: Option<string>,
    format: Option<string>, extraQuantity: Option<int>, quantity: Option<int>,
    description: Option<string>, hours: int, minutes: real)

  /**
   * The dialog: nothing when closed or without a block; otherwise the
   * production view exactly for production blocks, and the adjustment view
   * (the description) for every other block.
   */
  function Modal(isOpen: bool, selected: Option<ModalBlock>): (r: Option<Details>)
    ensures r.None? <==> !isOpen || selected.None?
    ensures r.Some? ==> var m := selected.value;
              var production := m.block.IsProduction();
              r.value.machineId == m.block.machineId
              && (r.value.productLabel.Some? <==> production)
              && (r.value.description.Some? <==> !production)
              && (r.value.quantity.Some? <==> production)
              && (r.value.extraQuantity.Some? <==> production && m.block.payload.qtyExtra > 0)
              && (r.value.format.Some? <==> production && m.block.payload.format.Some? && m.block.payload.format.value != "")
              && (r.value.otCount.Some? <==> production && m.otIds.Some? && |m.otIds.value| > 0)
              && (r.value.delayedCount.Some? <==>
                    r.value.otCount.Some? && m.delayedOts.Some? && |m.delayedOts.value| > 0)
    ensures r.Some? ==> var m := selected.value;
              var production := m.block.IsProduction();
              r.value.title == (if production then "Detalle de Producción" else "Detalle de Ajuste")
              && r.value.typeLabel == (if production then "Producción" else "Ajuste/Mantenimiento")
              && (production ==> r.value.productLabel == Some(ProductLabel(m))
                                 && r.value.quantity == Some(m.block.payload.quantity))
              && (!production ==> r.value.description == Some(m.block.payload.description))
              && (r.value.extraQuantity.Some? ==> r.value.extraQuantity.value == m.block.payload.qtyExtra)
              && (r.value.format.Some? ==> r.value.format == m.block.payload.format)
              && r.value.otRows == (if r.value.otCount.Some? then OtRows(m) else [])
              && (r.value.otCount.Some? ==> r.value.otCount.value == Plural(|m.otIds.value|, "OT"))
              && (r.value.delayedCount.Some? ==>
                    r.value.delayedCount.value == Plural(|m.delayedOts.value|, "atrasada"))
              && (m.block.start <= m.block.end ==>
                    r.value.hours as real * 60.0 + r.value.minutes == MinutesBetween(m.block.start, m.block.end)
                    && 0.0 <= r.value.minutes < 60.0)
  {
    if !isOpen || selected.None? then None
    else
      var m := selected.value;
      var b := m.block;
      var duration := MinutesBetween(b.start, b.end);
      assert b.start <= b.end ==>
               DurationHours(duration) as real * 60.0 + DurationMinutes(duration) == duration
               && 0.0 <= DurationMinutes(duration) < 60.0 by {
        if b.start <= b.end {
          DurationSplit(duration);
        }
      }
      var isProduction := b.IsProduction();
      var hasOts := isProduction && m.otIds.Some? && |m.otIds.value| > 0;
      var hasDelayed := hasOts && m.delayedOts.Some? && |m.delayedOts.value| > 0;
      Some(Details(
        if isProduction then "Detalle de Producción" else "Detalle de Ajuste",
        if isProduction then "Producción" else "Ajuste/Mantenimiento",
        b.machineId,
        if isProduction then Some(ProductLabel(m)) else None,
        if hasOts then OtRows(m) else [],
        if hasOts then Some(Plural(|m.otIds.value|, "OT")) else None,
        if hasDelayed then Some(Plural(|m.delayedOts.value|, "atrasada")) else None,
        if isProduction && b.payload.format.Some? && b.payload.format.value != "" then b.payload.format else None,
        if isProduction && b.payload.qtyExtra > 0 then Some(b.payload.qtyExtra) else None,
        if isProduction then Some(b.payload.quantity) else None,
        if isProduction then None else Some(b.payload.description),
        DurationHours(duration), DurationMinutes(duration)))
  }
}
