/**
 * The data side of the schedule viewer: conversion of the optimiser's
 * schedule items (hour offsets from a start instant) into blocks, the
 * machine and date-window filters applied before display, and the text of
 * the error raised when the schedule request fails.
 */
module ProductionData {
  import opened Blocks
  import opened Text

  // ---------------------------------------------------------------------------
  // Schedule conversion.

  /**
   * One item of the schedule response. Absent or `null` fields are `None`,
   * except `start` and `end`: they are hours after the request's start
   * instant as JavaScript's multiplication coerces them. A `null` or `false`
   * time is `Some(0.0)`, `true` is `Some(1.0)`, a numeric string is its value,
   * and a missing or non-numeric time (whose product is `NaN`) is `None`.
   */
  datatype RawItem = RawItem(
    id: string, machine: string, itemType: string, start: Option<real>, end: Option<real>,
    qtyCliente: Option<int>, qty: Option<int>, qtyExtra: Option<int>,
    format: Option<string>, due: Option<real>, onTime: Option<bool>)

  /** A number's value under `a || fallback`: absent and zero are falsy. */
  function OrNumber(a: Option<int>, fallback: int): (r: int)
    ensures a.Some? && a.value != 0 ==> r == a.value
    ensures a.None? || a.value == 0 ==> r == fallback
  {
    if a.Some? && a.value != 0 then a.value else fallback
  }

  /** A string's value under `a || fallback`: absent and empty are falsy. */
  function OrText(a: Option<string>, fallback: string): (r: string)
    ensures a.Some? && a.value != "" ==> r == a.value
    ensures a.None? || a.value == "" ==> r == fallback
  {
    if a.Some? && a.value != "" then a.value else fallback
  }

  /** The largest time value a `Date` can hold, in milliseconds either side of the epoch. */
  const MaxTimeValue: real := 8640000000000000.0

  /**
   * `new Date(origin + hours * 60 * 60 * 1000)` is a valid date: the offset
   * is a number and the time value lies within the range of a `Date`.
   */
  predicate ValidTime(origin: int, hours: Option<real>) {
    hours.Some? && Abs(origin as real + hours.value * 3600000.0) <= MaxTimeValue
  }

  /** `new Date(origin + hours * 60 * 60 * 1000)`: the time value truncated to a millisecond. */
  function AbsoluteTime(origin: int, hours: real): (r: int)
    ensures hours >= 0.0 ==> origin <= r
    ensures Abs(r as real - (origin as real + hours * 3600000.0)) < 1.0
  {
    Trunc(origin as real + hours * 60.0 * 60.0 * 1000.0)
  }

  /** An offset of a whole number of milliseconds is kept exactly. */
  lemma AbsoluteTimeExact(origin: int, ms: int)
    ensures AbsoluteTime(origin, ms as real / 3600000.0) == origin + ms
  {
    assert ms as real / 3600000.0 * 60.0 * 60.0 * 1000.0 == ms as real;
  }

  const SetupDescription: string := "SETUP - Cambio de formato"

  predicate KnownType(item: RawItem) {
    item.itemType == "OT" || item.itemType == "SETUP"
  }

  /** Both of an item's times convert to valid dates. */
  predicate ValidTimes(item: RawItem, origin: int) {
    ValidTime(origin, item.start) && ValidTime(origin, item.end)
  }

  /**
   * What converting one item gives: nothing for an item of unknown type, a
   * block, or the `RangeError` that `toISOString` throws on an invalid date.
   */
  datatype Conversion = Dropped | Converted(block: Block) | InvalidDate

  /**
   * The block for one item: an `OT` item is a production block named after
   * its id, a `SETUP` item an adjustment block with a synthesised id, and an
   * item of any other type (`PRODUCTION` included) yields nothing, whatever
   * its times. `numberText` is JavaScript's Number-to-string conversion of
   * `item.start`.
   */
  function ConvertItem(item: RawItem, origin: int, numberText: real -> string): (r: Conversion)
    ensures r.Dropped? <==> !KnownType(item)
    ensures r.InvalidDate? <==> KnownType(item) && !ValidTimes(item, origin)
    ensures r.Converted? ==> r.block.machineId == item.machine
                             && r.block.start == AbsoluteTime(origin, item.start.value)
                             && r.block.end == AbsoluteTime(origin, item.end.value)
                             && !r.block.isContinuation && !r.block.isPartial
    ensures r.Converted? ==> (r.block.IsProduction() <==> item.itemType == "OT")
    ensures r.Converted? && item.itemType == "OT" ==>
              r.block.id == item.id && r.block.payload.productName == item.id
              && r.block.payload.format == item.format && r.block.payload.due == item.due
              && r.block.payload.onTime == item.onTime
    ensures r.Converted? && item.itemType == "SETUP" ==>
              r.block.id == "SETUP-" + item.machine + "-" + numberText(item.start.value)
              && r.block.payload.description == SetupDescription
  {
    if !KnownType(item) then Dropped
    else if !ValidTimes(item, origin) then InvalidDate
    else
      var startTime := AbsoluteTime(origin, item.start.value);
      var endTime := AbsoluteTime(origin, item.end.value);
      if item.itemType == "OT" then
        Converted(Block(item.id, item.machine, startTime, endTime,
                        Production(item.id, OrNumber(item.qtyCliente, OrNumber(item.qty, 0)),
                                   item.format, item.due, item.onTime, OrNumber(item.qtyExtra, 0)),
                        false, false))
      else
        Converted(Block("SETUP-" + item.machine + "-" + numberText(item.start.value), item.machine,
                        startTime, endTime, Adjustment(SetupDescription, OrText(item.format, "N/A")),
                        false, false))
  }

  /**
   * The quantity falls back from the customer quantity to the quantity to
   * 0, skipping absent and zero values.
   */
  lemma QuantityFallback(item: RawItem, origin: int, numberText: real -> string)
    requires item.itemType == "OT" && ValidTimes(item, origin)
    ensures var q := ConvertItem(item, origin, numberText).block.payload.quantity;
            (q == 0 <==> (item.qtyCliente.None? || item.qtyCliente.value == 0)
                         && (item.qty.None? || item.qty.value == 0))
            && (q != 0 ==> Some(q) == item.qtyCliente || Some(q) == item.qty)
            && (item.qtyCliente.Some? && item.qtyCliente.value != 0 ==> q == item.qtyCliente.value)
            && ((item.qtyExtra.None? || item.qtyExtra.value == 0)
                <==> ConvertItem(item, origin, numberText).block.payload.qtyExtra == 0)
            && (item.qtyExtra.Some? && item.qtyExtra.value != 0
                ==> ConvertItem(item, origin, numberText).block.payload.qtyExtra == item.qtyExtra.value)
  {
  }

  /** A setup block's format is the item's when present and non-empty, else "N/A". */
  lemma SetupFormat(item: RawItem, origin: int, numberText: real -> string)
    requires item.itemType == "SETUP" && ValidTimes(item, origin)
    ensures var f := ConvertItem(item, origin, numberText).block.payload.targetFormat;
            f != "" && (f == "N/A" || Some(f) == item.format)
            && (item.format.Some? && item.format.value != "" ==> f == item.format.value)
  {
  }

  /**
   * Two setups on one machine get distinct ids exactly when their start
   * offsets format differently.
   */
  lemma SetupIdsDistinct(a: RawItem, b: RawItem, origin: int, numberText: real -> string)
    requires a.itemType == "SETUP" && b.itemType == "SETUP" && a.machine == b.machine
    requires ValidTimes(a, origin) && ValidTimes(b, origin)
    ensures ConvertItem(a, origin, numberText).block.id == ConvertItem(b, origin, numberText).block.id
        <==> numberText(a.start.value) == numberText(b.start.value)
  {
    var prefix := "SETUP-" + a.machine + "-";
    var x := numberText(a.start.value);
    var y := numberText(b.start.value);
    if prefix + x == prefix + y {
      assert x == (prefix + x)[|prefix|..];
      assert y == (prefix + y)[|prefix|..];
    }
  }

  /** An item whose conversion throws. */
  predicate Throws(item: RawItem, origin: int) {
    KnownType(item) && !ValidTimes(item, origin)
  }

  /**
   * `schedule.map(convert).filter(Boolean)`: `None` when the conversion of
   * some item throws, which aborts the whole map.
   */
  function ConvertSchedule(schedule: seq<RawItem>, origin: int, numberText: real -> string): (r: Option<seq<Block>>)
    ensures r.Some? ==> |r.value| <= |schedule|
  {
    if schedule == [] then Some([])
    else
      match ConvertItem(schedule[0], origin, numberText)
      case InvalidDate => None
      case Dropped => ConvertSchedule(schedule[1..], origin, numberText)
      case Converted(b) =>
        var rest := ConvertSchedule(schedule[1..], origin, numberText);
        if rest.None? then None else Some([b] + rest.value)
  }

  function IsKnown(): RawItem -> bool {
    (item: RawItem) => KnownType(item)
  }

  /** The conversion fails exactly when some item throws. */
  lemma {:induction false} ConvertScheduleFails(schedule: seq<RawItem>, origin: int, numberText: real -> string)
    ensures ConvertSchedule(schedule, origin, numberText).None?
        <==> exists i :: 0 <= i < |schedule| && Throws(schedule[i], origin)
  {
    if schedule != [] {
      ConvertScheduleFails(schedule[1..], origin, numberText);
      if exists i :: 0 <= i < |schedule[1..]| && Throws(schedule[1..][i], origin) {
        var i :| 0 <= i < |schedule[1..]| && Throws(schedule[1..][i], origin);
        assert Throws(schedule[i + 1], origin);
      }
      if exists i :: 0 <= i < |schedule| && Throws(schedule[i], origin) {
        var i :| 0 <= i < |schedule| && Throws(schedule[i], origin);
        if i > 0 {
          assert Throws(schedule[1..][i - 1], origin);
        }
      }
    }
  }

  /**
   * A conversion that succeeds drops exactly the items of unknown type and
   * keeps the others in order: it is the item-wise conversion of the known
   * items.
   */
  lemma {:induction false} ConvertScheduleKnown(schedule: seq<RawItem>, origin: int, numberText: real -> string)
    ensures var known := Filter(schedule, IsKnown());
            var r := ConvertSchedule(schedule, origin, numberText);
            r.Some? ==> |r.value| == |known|
                        && forall i :: 0 <= i < |r.value| ==> Converted(r.value[i]) == ConvertItem(known[i], origin, numberText)
  {
    if schedule != [] {
      ConvertScheduleKnown(schedule[1..], origin, numberText);
      var known := Filter(schedule, IsKnown());
      var rest := Filter(schedule[1..], IsKnown());
      var r := ConvertSchedule(schedule, origin, numberText);
      var tail := ConvertSchedule(schedule[1..], origin, numberText);
      match ConvertItem(schedule[0], origin, numberText)
      case InvalidDate =>
      case Dropped =>
        assert known == rest;
      case Converted(b) =>
        assert known == [schedule[0]] + rest;
        if r.Some? {
          assert r.value == [b] + tail.value;
          ConvertedCons(b, tail.value, schedule[0], rest, origin, numberText);
        }
    }
  }

  /** Item-wise conversion extends to one more item in front. */
  lemma ConvertedCons(b: Block, blocks: seq<Block>, item: RawItem, items: seq<RawItem>,
                      origin: int, numberText: real -> string)
    requires ConvertItem(item, origin, numberText) == Converted(b)
    requires |blocks| == |items|
    requires forall i :: 0 <= i < |blocks| ==> Converted(blocks[i]) == ConvertItem(items[i], origin, numberText)
    ensures forall i :: 0 <= i < |blocks| + 1 ==>
              Converted(([b] + blocks)[i]) == ConvertItem(([item] + items)[i], origin, numberText)
  {
    forall i | 0 <= i < |blocks| + 1
      ensures Converted(([b] + blocks)[i]) == ConvertItem(([item] + items)[i], origin, numberText)
    {
      if i > 0 {
        assert ([b] + blocks)[i] == blocks[i - 1] && ([item] + items)[i] == items[i - 1];
      }
    }
  }

  /** Converting a concatenation converts each part, and fails when either part fails. */
  lemma {:induction false} ConvertScheduleConcat(a: seq<RawItem>, b: seq<RawItem>, origin: int, numberText: real -> string)
    ensures var ra := ConvertSchedule(a, origin, numberText);
            var rb := ConvertSchedule(b, origin, numberText);
            ConvertSchedule(a + b, origin, numberText)
              == if ra.Some? && rb.Some? then Some(ra.value + rb.value) else None
  {
    if a == [] {
      assert a + b == b;
      var rb := ConvertSchedule(b, origin, numberText);
      if rb.Some? {
        assert [] + rb.value == rb.value;
      }
    } else {
      assert (a + b)[1..] == a[1..] + b;
      ConvertScheduleConcat(a[1..], b, origin, numberText);
      match ConvertItem(a[0], origin, numberText)
      case InvalidDate =>
      case Dropped =>
      case Converted(x) =>
        var ra := ConvertSchedule(a[1..], origin, numberText);
        var rb := ConvertSchedule(b, origin, numberText);
        if ra.Some? && rb.Some? {
          assert [x] + (ra.value + rb.value) == ([x] + ra.value) + rb.value;
        }
    }
  }

  // ---------------------------------------------------------------------------
  // The filters applied after loading.

  /** The schedule request starts at 08:00 of the selected day. */
  function ScheduleOrigin(date: int): (r: int)
    ensures r - Midnight(date) == 8 * HourMs
  {
    Midnight(date) + 8 * HourMs
  }

  /** How many days the loaded window covers. */
  function WindowDays(viewMode: ViewMode): nat {
    if viewMode == Individual then 7 else 1
  }

  /** `viewMode === 'INDIVIDUAL' && selectedMachine`. */
  predicate MachineFilterApplies(viewMode: ViewMode, selectedMachine: Option<string>) {
    viewMode == Individual && selectedMachine.Some? && selectedMachine.value != ""
  }

  /** What survives both filters. */
  predicate Visible(b: Block, date: int, viewMode: ViewMode, selectedMachine: Option<string>) {
    (MachineFilterApplies(viewMode, selectedMachine) ==> b.machineId == selectedMachine.value)
    && Midnight(date) <= b.start < Midnight(date) + WindowDays(viewMode) * DayMs
  }

  function VisibleIn(date: int, viewMode: ViewMode, selectedMachine: Option<string>): Block -> bool {
    (b: Block) => Visible(b, date, viewMode, selectedMachine)
  }

  /**
   * The loaded blocks after the machine filter (individual view with a
   * machine) and the half-open start window: 7 days in the individual view,
   * 1 day in the daily view, from the selected day's midnight.
   */
  method LoadedBlocks(converted: seq<Block>, date: int, viewMode: ViewMode, selectedMachine: Option<string>)
    returns (blocks: seq<Block>)
    ensures blocks == Filter(converted, VisibleIn(date, viewMode, selectedMachine))
    ensures forall i :: 0 <= i < |blocks| ==>
              blocks[i] in converted && Visible(blocks[i], date, viewMode, selectedMachine)
    ensures forall i :: 0 <= i < |converted| && Visible(converted[i], date, viewMode, selectedMachine) ==>
              converted[i] in blocks
  {
    blocks := converted;
    var machineFilter := MachineFilterApplies(viewMode, selectedMachine);
    if machineFilter {
      blocks := Filter(blocks, OnMachine(selectedMachine.value));
    }
    var startDate := Midnight(date);
    var endDate;
    if viewMode == Individual {
      endDate := startDate + 7 * DayMs;
    } else {
      endDate := startDate + DayMs;
    }
    var window := StartsWithin(startDate, endDate);
    if machineFilter {
      FilterFilterAs(converted, OnMachine(selectedMachine.value), window,
                     VisibleIn(date, viewMode, selectedMachine));
    } else {
      FilterCongruent(converted, window, VisibleIn(date, viewMode, selectedMachine));
    }
    blocks := Filter(blocks, window);
  }

  /**
   * One load of the schedule: the request starts at 08:00 of the selected
   * day, the response is converted and filtered, and a conversion that
   * throws is caught and leaves the view with no blocks at all.
   */
  method LoadSchedule(schedule: seq<RawItem>, date: int, viewMode: ViewMode, selectedMachine: Option<string>,
                      numberText: real -> string)
    returns (blocks: seq<Block>)
    ensures (exists i :: 0 <= i < |schedule| && Throws(schedule[i], ScheduleOrigin(date))) ==> blocks == []
    ensures var converted := ConvertSchedule(schedule, ScheduleOrigin(date), numberText);
            converted.Some? ==> blocks == Filter(converted.value, VisibleIn(date, viewMode, selectedMachine))
  {
    var converted := ConvertSchedule(schedule, ScheduleOrigin(date), numberText);
    ConvertScheduleFails(schedule, ScheduleOrigin(date), numberText);
    if converted.None? {
      blocks := [];
    } else {
      blocks := LoadedBlocks(converted.value, date, viewMode, selectedMachine);
    }
  }

  // ---------------------------------------------------------------------------
  // The error message.

  datatype ValidationError = ValidationError(loc: Option<seq<string>>, msg: string)

  /** The `detail` of an error body: a string or a list of validation errors. */
  datatype Detail = DetailText(text: string) | DetailList(errors: seq<ValidationError>)

  /** A response body that did not parse as JSON, or the two fields read from it. */
  datatype ErrorBody = Unreadable | Body(detail: Option<Detail>, message: Option<string>)

  const DefaultError: string := "Failed to fetch schedule"
  const ValidationHeader: string := "Error de validación:\n"

  /** A `detail` is truthy unless absent or the empty string; an empty list is truthy. */
  predicate Truthy(d: Option<Detail>) {
    d.Some? && d.value != DetailText("")
  }

  /** `${loc?.join('.')}: ${msg}`. */
  function ValidationLine(e: ValidationError): string {
    (match e.loc case None => "undefined" case Some(path) => Join(path, ".")) + ": " + e.msg
  }

  function ValidationLines(errors: seq<ValidationError>): (r: seq<string>)
    ensures |r| == |errors| && forall i :: 0 <= i < |r| ==> r[i] == ValidationLine(errors[i])
  {
    seq(|errors|, i requires 0 <= i < |errors| => ValidationLine(errors[i]))
  }

  /** The detail as a template literal shows it: a list of objects becomes `[object Object],…`. */
  function DetailAsText(d: Detail): string {
    match d
    case DetailText(s) => s
    case DetailList(errors) => Join(seq(|errors|, _ => "[object Object]"), ",")
  }

  /** The detail of a 422 response: one line per validation error, or the quoted string. */
  function ValidationDetail(d: Detail): string {
    match d
    case DetailText(s) => JsonQuote(s)
    case DetailList(errors) => Join(ValidationLines(errors), "\n")
  }

  /** The message before the status suffix. */
  function ErrorText(status: nat, statusText: string, body: ErrorBody): string {
    match body
    case Unreadable => if statusText != "" then statusText else DefaultError
    case Body(detail, message) =>
      if status == 422 && Truthy(detail) then ValidationHeader + ValidationDetail(detail.value)
      else if Truthy(detail) then DetailAsText(detail.value)
      else OrText(message, DefaultError)
  }

  /** `${errorMessage} (Status: ${response.status})`. */
  function ErrorMessage(status: nat, statusText: string, body: ErrorBody): (r: string)
    ensures EndsWith(r, " (Status: " + NatToString(status) + ")")
    ensures StartsWith(r, ErrorText(status, statusText, body))
    ensures |r| == |ErrorText(status, statusText, body)| + |" (Status: " + NatToString(status) + ")"|
  {
    var suffix := " (Status: " + NatToString(status) + ")";
    var text := ErrorText(status, statusText, body);
    assert (text + suffix)[..|text|] == text;
    text + suffix
  }

  /** Every part of a join occurs in it. */
  lemma {:induction false} JoinContains(parts: seq<string>, sep: string, i: nat)
    requires i < |parts|
    ensures Contains(Join(parts, sep), parts[i])
    decreases |parts|
  {
    if |parts| == 1 {
      ContainsAt(Join(parts, sep), parts[i], 0);
    } else if i == 0 {
      var j := Join(parts, sep);
      assert j[..|parts[0]|] == parts[0];
      ContainsAt(j, parts[0], 0);
    } else {
      JoinContains(parts[1..], sep, i - 1);
      ContainsSuffix(parts[0] + sep, Join(parts[1..], sep), parts[i]);
    }
  }

  lemma {:induction false} ContainsSuffix(prefix: string, s: string, sub: string)
    requires Contains(s, sub)
    ensures Contains(prefix + s, sub)
    decreases |prefix|
  {
    if prefix != [] {
      ContainsSuffix(prefix[1..], s, sub);
      assert (prefix + s)[1..] == prefix[1..] + s;
      assert Contains((prefix + s)[1..], sub);
    } else {
      assert prefix + s == s;
    }
  }

  lemma ContainsPrefix(s: string, suffix: string, sub: string)
    requires Contains(s, sub)
    ensures Contains(s + suffix, sub)
    decreases |s|
  {
    if StartsWith(s, sub) {
      assert (s + suffix)[..|sub|] == s[..|sub|];
    } else {
      ContainsPrefix(s[1..], suffix, sub);
      assert (s + suffix)[1..] == s[1..] + suffix;
    }
  }

  /**
   * A 422 response with a list of validation errors names each of them:
   * the message carries every `loc.join('.'): msg` line, after the header.
   */
  lemma ValidationMessageListsErrors(statusText: string, errors: seq<ValidationError>, message: Option<string>, i: nat)
    requires i < |errors|
    ensures var r := ErrorMessage(422, statusText, Body(Some(DetailList(errors)), message));
            StartsWith(r, ValidationHeader) && Contains(r, ValidationLine(errors[i]))
  {
    var lines := ValidationLines(errors);
    var body := Join(lines, "\n");
    var text := ValidationHeader + body;
    var suffix := " (Status: " + NatToString(422) + ")";
    JoinContains(lines, "\n", i);
    ContainsSuffix(ValidationHeader, body, lines[i]);
    ContainsPrefix(text, suffix, lines[i]);
    assert ErrorMessage(422, statusText, Body(Some(DetailList(errors)), message)) == text + suffix;
    assert (text + suffix)[..|ValidationHeader|] == ValidationHeader;
  }

  /** Without a usable body the status text, else the default text, is reported. */
  lemma UnreadableBodyMessage(status: nat, statusText: string)
    ensures ErrorMessage(status, statusText, Unreadable)
         == (if statusText != "" then statusText else DefaultError) + " (Status: " + NatToString(status) + ")"
  {
  }

  /** Outside 422 a list detail is shown as its elements' object text, e.g. for two errors. */
  lemma ListDetailOutside422(e1: ValidationError, e2: ValidationError)
    ensures ErrorText(400, "", Body(Some(DetailList([e1, e2])), None)) == "[object Object],[object Object]"
  {
    var parts := seq(2, _ => "[object Object]");
    assert parts == ["[object Object]", "[object Object]"];
    assert Join(parts[1..], ",") == "[object Object]";
    assert Join(parts, ",") == "[object Object]" + "," + "[object Object]";
    assert ErrorText(400, "", Body(Some(DetailList([e1, e2])), None)) == DetailAsText(DetailList([e1, e2]));
  }
}
