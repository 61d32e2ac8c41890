/**
 * The page-level rules of the schedule viewer: splitting each block into
 * the fragments shown in the seven day columns of the individual view, the
 * machines visible in the daily view, the machine-filter toggle and the
 * view-mode switch.
 */
module Layout {
  import opened Blocks

  /** Pixels per hour of both timelines. */
  const HourHeight: real := 80.0

  /** The number of day columns in the individual view. */
  const WeekDays: nat := 7

  // ---------------------------------------------------------------------------
  // Day splitting.

  /** Midnight of day column `k`: `currentDate` moved `k` days, then set to 00:00. */
  function ColumnDay(currentDate: int, k: nat): (r: int)
    ensures r == Midnight(currentDate) + k * DayMs
  {
    MidnightShift(currentDate, k);
    Midnight(currentDate + k * DayMs)
  }

  /** The block starts in the day, ends in the day, or covers it. */
  predicate Intersects(b: Block, dayDate: int) {
    var nextDay := dayDate + DayMs;
    var startsInDay := b.start >= dayDate && b.start < nextDay;
    var endsInDay := b.end > dayDate && b.end <= nextDay;
    var spansDay := b.start < dayDate && b.end > nextDay;
    startsInDay || endsInDay || spansDay
  }

  /** For a block of positive length the three cases are plain interval overlap. */
  lemma IntersectsIff(b: Block, dayDate: int)
    requires b.start < b.end
    ensures Intersects(b, dayDate) <==> b.start < dayDate + DayMs && b.end > dayDate
  {
  }

  /**
   * The copy of `b` shown in the column of `dayDate`: clipped to the day,
   * flagged as a continuation when it began earlier and as partial when it
   * ends later, every other field as in `b`.
   */
  function Clip(b: Block, dayDate: int): (r: Block)
    ensures r.id == b.id && r.machineId == b.machineId && r.payload == b.payload
    ensures r.start == IntMax(b.start, dayDate) && r.end == IntMin(b.end, dayDate + DayMs)
    ensures r.isContinuation <==> b.isContinuation || b.start < dayDate
    ensures r.isPartial <==> b.isPartial || b.end > dayDate + DayMs
    ensures b.start < b.end && Intersects(b, dayDate) ==> dayDate <= r.start < r.end <= dayDate + DayMs
  {
    b.(start := IntMax(b.start, dayDate), end := IntMin(b.end, dayDate + DayMs),
       isContinuation := b.isContinuation || b.start < dayDate,
       isPartial := b.isPartial || b.end > dayDate + DayMs)
  }

  function Fragment(b: Block, dayDate: int): Option<Block> {
    if Intersects(b, dayDate) then Some(Clip(b, dayDate)) else None
  }

  /** The `map` callback: copy the block, then overwrite the fields that change. */
  method SplitForDay(block: Block, dayDate: int) returns (r: Option<Block>)
    ensures r == Fragment(block, dayDate)
  {
    var nextDay := dayDate + DayMs;
    var startsInDay := block.start >= dayDate && block.start < nextDay;
    var endsInDay := block.end > dayDate && block.end <= nextDay;
    var spansDay := block.start < dayDate && block.end > nextDay;
    if startsInDay || endsInDay || spansDay {
      var modifiedBlock := block;
      if block.start < dayDate {
        modifiedBlock := modifiedBlock.(start := dayDate);
        modifiedBlock := modifiedBlock.(isContinuation := true);
      }
      if block.end > nextDay {
        modifiedBlock := modifiedBlock.(end := nextDay);
        modifiedBlock := modifiedBlock.(isPartial := true);
      }
      return Some(modifiedBlock);
    }
    return None;
  }

  /** `data.map(split).filter(Boolean)`: the fragments for one day, in data order. */
  function DayBlocks(data: seq<Block>, dayDate: int): (r: seq<Block>)
    ensures |r| <= |data|
  {
    if data == [] then []
    else
      (match Fragment(data[0], dayDate) case Some(f) => [f] case None => [])
      + DayBlocks(data[1..], dayDate)
  }

  function IntersectsDay(dayDate: int): Block -> bool {
    (b: Block) => Intersects(b, dayDate)
  }

  /**
   * A day column holds the clipped intersecting blocks in data order: the
   * clip of the intersecting blocks, one for one.
   */
  lemma {:induction false} DayBlocksInOrder(data: seq<Block>, dayDate: int)
    ensures var hits := Filter(data, IntersectsDay(dayDate));
            var r := DayBlocks(data, dayDate);
            |r| == |hits| && forall i :: 0 <= i < |r| ==> r[i] == Clip(hits[i], dayDate)
  {
    if data != [] {
      DayBlocksInOrder(data[1..], dayDate);
      var hits := Filter(data, IntersectsDay(dayDate));
      var rest := Filter(data[1..], IntersectsDay(dayDate));
      var r := DayBlocks(data, dayDate);
      var tail := DayBlocks(data[1..], dayDate);
      if Intersects(data[0], dayDate) {
        assert hits == [data[0]] + rest;
        assert r == [Clip(data[0], dayDate)] + tail;
        forall i | 0 <= i < |r| ensures r[i] == Clip(hits[i], dayDate) {
          if i > 0 {
            assert r[i] == tail[i - 1] && hits[i] == rest[i - 1];
          }
        }
      } else {
        assert hits == rest;
        assert r == tail;
      }
    }
  }

  /** The fragments of a concatenation are those of each part, in order. */
  lemma {:induction false} DayBlocksConcat(a: seq<Block>, b: seq<Block>, dayDate: int)
    ensures DayBlocks(a + b, dayDate) == DayBlocks(a, dayDate) + DayBlocks(b, dayDate)
  {
    if a == [] {
      assert a + b == b;
    } else {
      assert (a + b)[1..] == a[1..] + b;
      DayBlocksConcat(a[1..], b, dayDate);
    }
  }

  /** A block reaches a day column exactly when it intersects that day. */
  lemma {:induction false} DayBlocksMembers(data: seq<Block>, dayDate: int)
    ensures forall f :: f in DayBlocks(data, dayDate) <==>
              exists i :: 0 <= i < |data| && Intersects(data[i], dayDate) && f == Clip(data[i], dayDate)
  {
    if data != [] {
      DayBlocksMembers(data[1..], dayDate);
      forall f
        ensures f in DayBlocks(data, dayDate) <==>
                exists i :: 0 <= i < |data| && Intersects(data[i], dayDate) && f == Clip(data[i], dayDate)
      {
        if f in DayBlocks(data[1..], dayDate) {
          var i :| 0 <= i < |data[1..]| && Intersects(data[1..][i], dayDate) && f == Clip(data[1..][i], dayDate);
          assert data[i + 1] == data[1..][i];
        }
        if exists i :: 0 <= i < |data| && Intersects(data[i], dayDate) && f == Clip(data[i], dayDate) {
          var i :| 0 <= i < |data| && Intersects(data[i], dayDate) && f == Clip(data[i], dayDate);
          if i > 0 {
            assert data[1..][i - 1] == data[i];
          }
        }
      }
    }
  }

  /** The seven day columns of the individual view. */
  function WeekColumns(data: seq<Block>, currentDate: int): (r: seq<seq<Block>>)
    ensures |r| == WeekDays
    ensures forall k :: 0 <= k < WeekDays ==> r[k] == DayBlocks(data, Midnight(currentDate) + k * DayMs)
  {
    seq(WeekDays, k requires 0 <= k < WeekDays => DayBlocks(data, ColumnDay(currentDate, k)))
  }

  /** The fragments of one block in `n` consecutive day columns starting at `day0`. */
  function Fragments(b: Block, day0: int, n: nat): seq<Block>
    decreases n
  {
    if n == 0 then []
    else (match Fragment(b, day0) case Some(f) => [f] case None => []) + Fragments(b, day0 + DayMs, n - 1)
  }

  /** Intervals laid end to end: no gap, no overlap, none empty, from `lo` to `hi`. */
  ghost predicate Tiles(fs: seq<Block>, lo: int, hi: int) {
    |fs| > 0 && fs[0].start == lo && fs[|fs| - 1].end == hi
    && (forall i :: 0 <= i < |fs| ==> fs[i].start < fs[i].end)
    && (forall i :: 0 <= i < |fs| - 1 ==> fs[i].end == fs[i + 1].start)
  }

  lemma TilesCons(f: Block, fs: seq<Block>, lo: int, hi: int)
    requires f.start < f.end && Tiles(fs, f.end, hi)
    ensures Tiles([f] + fs, f.start, hi)
  {
    var r := [f] + fs;
    forall i | 0 <= i < |r| - 1 ensures r[i].end == r[i + 1].start {
      if i > 0 { assert r[i] == fs[i - 1] && r[i + 1] == fs[i]; }
    }
    forall i | 0 <= i < |r| ensures r[i].start < r[i].end {
      if i > 0 { assert r[i] == fs[i - 1]; }
    }
  }

  /** No column after the block's end shows it. */
  lemma {:induction false} NoFragmentsAfter(b: Block, day0: int, n: nat)
    requires b.start < b.end <= day0
    ensures Fragments(b, day0, n) == []
    decreases n
  {
    if n > 0 {
      NoFragmentsAfter(b, day0 + DayMs, n - 1);
    }
  }

  /**
   * Across consecutive day columns the fragments of a block cover the part
   * of it inside the columns exactly once, in order.
   */
  lemma {:induction false} FragmentsTile(b: Block, day0: int, n: nat)
    requires b.start < b.end
    requires n >= 1 && b.start < day0 + n * DayMs && b.end > day0
    ensures Tiles(Fragments(b, day0, n), IntMax(b.start, day0), IntMin(b.end, day0 + n * DayMs))
    decreases n
  {
    var nextDay := day0 + DayMs;
    assert nextDay + (n - 1) * DayMs == day0 + n * DayMs;
    if b.end <= nextDay {
      NoFragmentsAfter(b, nextDay, n - 1);
      SingleFragment(b, day0, n);
    } else if b.start >= nextDay {
      FragmentsTile(b, nextDay, n - 1);
      FragmentsSkip(b, day0, n);
    } else if n == 1 {
      SingleFragment(b, day0, n);
    } else {
      FragmentsTile(b, nextDay, n - 1);
      FragmentsSplit(b, day0, n);
    }
  }

  lemma SingleFragment(b: Block, day0: int, n: nat)
    requires b.start < b.end && n >= 1 && b.start < day0 + DayMs && b.end > day0
    requires b.end <= day0 + DayMs || n == 1
    requires Fragments(b, day0 + DayMs, n - 1) == []
    ensures Tiles(Fragments(b, day0, n), IntMax(b.start, day0), IntMin(b.end, day0 + n * DayMs))
  {
    assert Fragments(b, day0, n) == [Clip(b, day0)];
    assert IntMin(b.end, day0 + n * DayMs) == IntMin(b.end, day0 + DayMs);
  }

  lemma FragmentsSkip(b: Block, day0: int, n: nat)
    requires b.start < b.end && n >= 1 && b.start >= day0 + DayMs
    requires Tiles(Fragments(b, day0 + DayMs, n - 1), IntMax(b.start, day0 + DayMs),
                   IntMin(b.end, day0 + DayMs + (n - 1) * DayMs))
    ensures Tiles(Fragments(b, day0, n), IntMax(b.start, day0), IntMin(b.end, day0 + n * DayMs))
  {
    assert Fragments(b, day0, n) == Fragments(b, day0 + DayMs, n - 1);
    assert day0 + DayMs + (n - 1) * DayMs == day0 + n * DayMs;
  }

  lemma FragmentsSplit(b: Block, day0: int, n: nat)
    requires b.start < b.end && n >= 2 && b.start < day0 + DayMs < b.end
    requires Tiles(Fragments(b, day0 + DayMs, n - 1), IntMax(b.start, day0 + DayMs),
                   IntMin(b.end, day0 + DayMs + (n - 1) * DayMs))
    ensures Tiles(Fragments(b, day0, n), IntMax(b.start, day0), IntMin(b.end, day0 + n * DayMs))
  {
    var rest := Fragments(b, day0 + DayMs, n - 1);
    assert Fragments(b, day0, n) == [Clip(b, day0)] + rest;
    assert day0 + DayMs + (n - 1) * DayMs == day0 + n * DayMs;
    TilesCons(Clip(b, day0), rest, IntMax(b.start, day0), IntMin(b.end, day0 + n * DayMs));
  }

  // ---------------------------------------------------------------------------
  // Machine selection.

  /** `s.slice(from, to)` for non-negative bounds. */
  function Slice<T>(s: seq<T>, from: nat, to: nat): (r: seq<T>)
    ensures |r| <= |s| && (from <= to ==> |r| <= to - from)
    ensures from <= to && from <= |s| ==> |r| == IntMin(to, |s|) - from
    ensures to <= from ==> r == []
    ensures forall i :: 0 <= i < |r| ==> from + i < |s| && r[i] == s[from + i]
  {
    var lo := if from <= |s| then from else |s|;
    var hi := if to <= |s| then (if to >= lo then to else lo) else |s|;
    s[lo..hi]
  }

  /** The machines shown: a window of seven in the daily view, the one machine otherwise. */
  function VisibleMachines(viewMode: ViewMode, selected: seq<string>, index: nat, individual: string): (r: seq<string>)
    ensures viewMode == Individual ==> r == [individual]
    ensures viewMode == Daily ==> |r| <= 7 && forall i :: 0 <= i < |r| ==> index + i < |selected| && r[i] == selected[index + i]
    ensures viewMode == Daily && index == 0 ==> |r| == (if |selected| < 7 then |selected| else 7)
  {
    if viewMode == Daily then Slice(selected, index, index + 7) else [individual]
  }

  function IsNot(machineId: string): string -> bool {
    (id: string) => id != machineId
  }

  /** A present id is removed (every copy of it); an absent one is appended. */
  function ToggleMachine(selected: seq<string>, machineId: string): (r: seq<string>)
    ensures machineId in r <==> machineId !in selected
    ensures forall id :: id != machineId ==> (id in r <==> id in selected)
    ensures machineId !in selected ==> r == selected + [machineId]
  {
    if machineId in selected then Filter(selected, IsNot(machineId)) else selected + [machineId]
  }

  /** Toggling an id twice restores the selection when the id was absent. */
  lemma ToggleTwiceAbsent(selected: seq<string>, machineId: string)
    requires machineId !in selected
    ensures ToggleMachine(ToggleMachine(selected, machineId), machineId) == selected
  {
    FilterConcat(selected, [machineId], IsNot(machineId));
    FilterAll(selected, IsNot(machineId));
  }

  /**
   * Toggling a present id twice moves it to the end when it occurred once:
   * the other ids keep their order.
   */
  lemma ToggleTwicePresent(before: seq<string>, after: seq<string>, machineId: string)
    requires machineId !in before && machineId !in after
    ensures ToggleMachine(ToggleMachine(before + [machineId] + after, machineId), machineId)
         == before + after + [machineId]
  {
    var s := before + [machineId] + after;
    var p := IsNot(machineId);
    assert s[|before|] == machineId;
    FilterConcat(before + [machineId], after, p);
    FilterConcat(before, [machineId], p);
    FilterAll(before, p);
    FilterAll(after, p);
    assert Filter([machineId], p) == [];
    var removed := Filter(s, p);
    assert Filter(before + [machineId], p) == before by {
      assert Filter(before + [machineId], p) == Filter(before, p) + Filter([machineId], p);
      assert before + [] == before;
    }
    assert removed == Filter(before + [machineId], p) + Filter(after, p);
    assert removed == before + after;
    assert ToggleMachine(s, machineId) == removed;
    assert machineId !in removed;
  }

  /** The selection part of the page state. */
  datatype Selection = Selection(viewMode: ViewMode, selected: seq<string>, individual: string)

  /** The page starts in the daily view with every machine selected. */
  function InitialSelection(): (r: Selection)
    ensures r.viewMode == Daily && r.selected == MachineIds && r.individual == MachineIds[0]
  {
    Selection(Daily, MachineIds, MachineIds[0])
  }

  /**
   * On the first render the daily view shows every known machine, in order,
   * and the individual machine is one of the selected ones.
   */
  lemma InitialView()
    ensures var s := InitialSelection();
            VisibleMachines(s.viewMode, s.selected, 0, s.individual) == MachineIds
            && s.individual in s.selected
  {
    var s := InitialSelection();
    var r := VisibleMachines(s.viewMode, s.selected, 0, s.individual);
    assert |r| == |MachineIds|;
    assert forall i :: 0 <= i < |r| ==> r[i] == MachineIds[i];
  }

  /**
   * Switching view mode. Entering the individual view with an individual
   * machine that is not selected picks `selected[0] || MACHINE_IDS[0]`;
   * a missing or empty first id falls back.
   */
  function ChangeViewMode(s: Selection, newMode: ViewMode): (r: Selection)
    ensures r.viewMode == newMode && r.selected == s.selected
    ensures newMode == Daily || s.individual in s.selected ==> r.individual == s.individual
    ensures newMode == Individual && s.individual !in s.selected ==>
              r.individual == (if |s.selected| > 0 && s.selected[0] != "" then s.selected[0] else MachineIds[0])
  {
    var individual :=
      if newMode == Individual && s.individual !in s.selected then
        (if |s.selected| > 0 && s.selected[0] != "" then s.selected[0] else MachineIds[0])
      else s.individual;
    Selection(newMode, s.selected, individual)
  }

  /**
   * After entering the individual view the individual machine is selected,
   * unless the selection is empty or starts with an empty id.
   */
  lemma IndividualIsSelected(s: Selection)
    requires |s.selected| > 0 && s.selected[0] != ""
    ensures ChangeViewMode(s, Individual).individual in s.selected
  {
  }

  /** The fallback machine when the selection is empty. */
  lemma EmptySelectionFallback(s: Selection)
    requires s.selected == []
    ensures ChangeViewMode(s, Individual).individual == "Linea_1"
  {
  }
}
