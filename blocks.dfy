/**
 * The vocabulary every component of the schedule viewer shares: the block
 * record produced by the schedule converter, the time constants, the machine
 * and view-mode constants, and the list operations (filter, stable sort by
 * start time) that the components apply to block lists.
 *
 * Time is an integer number of milliseconds on the local wall clock; a day
 * is a fixed 86 400 000 ms, so midnight of `t` is `t - t % DayMs`.
 */
module Blocks {

  const MinuteMs: int := 60000
  const HourMs: int := 3600000
  const DayMs: int := 86400000
  const MinutesPerDay: int := 1440

  /** The machines the application knows, in display order. */
  const MachineIds: seq<string> := ["Linea_1", "Linea_2"]

  datatype ViewMode = Daily | Individual

  datatype Option<T> = None | Some(value: T)

  /** The kind-specific part of a block: at most one of the two field groups exists. */
  datatype Payload =
    | Production(productName: string, quantity: int, format: Option<string>,
                 due: Option<real>, onTime: Option<bool>, qtyExtra: int)
    | Adjustment(description: string, targetFormat: string)

  /**
   * A block as the components see it. `isContinuation` and `isPartial` are
   * absent (false) on converted blocks and set by the day splitter.
   */
  datatype Block = Block(id: string, machineId: string, start: int, end: int,
                         payload: Payload, isContinuation: bool, isPartial: bool)
  {
    predicate IsProduction() { payload.Production? }
  }

  /** `Math.min`, `Math.max` and `Math.abs` on numbers. */
  function Min(a: real, b: real): real { if a <= b then a else b }
  function Max(a: real, b: real): real { if a >= b then a else b }
  function Abs(x: real): real { if x < 0.0 then -x else x }

  function IntMin(a: int, b: int): int { if a <= b then a else b }
  function IntMax(a: int, b: int): int { if a >= b then a else b }

  /** Rounding toward zero, as `new Date(x)` does with a fractional time value. */
  function Trunc(x: real): (r: int)
    ensures x >= 0.0 ==> r as real <= x < r as real + 1.0
    ensures x < 0.0 ==> r as real - 1.0 < x <= r as real
  {
    if x >= 0.0 then x.Floor else -((-x).Floor)
  }

  /** JavaScript's `x % y` on numbers: the remainder of truncating division. */
  function JsRem(x: real, y: real): real
    requires y != 0.0
  {
    x - y * (Trunc(x / y) as real)
  }

  /** `(end - start) / (1000 * 60)`: the minutes between two instants. */
  function MinutesBetween(start: int, end: int): real {
    (end - start) as real / 60000.0
  }

  /** `Math.floor(d / 60)`: the hours shown for a duration of `d` minutes. */
  function DurationHours(d: real): int {
    (d / 60.0).Floor
  }

  /** `d % 60`: the minutes shown beside them, with the sign of `d`. */
  function DurationMinutes(d: real): real {
    JsRem(d, 60.0)
  }

  /** A non-negative duration is shown exactly, as hours and minutes below 60. */
  lemma DurationSplit(d: real)
    requires d >= 0.0
    ensures DurationHours(d) as real * 60.0 + DurationMinutes(d) == d
    ensures 0.0 <= DurationMinutes(d) < 60.0
  {
    var q := d / 60.0;
    assert Trunc(q) == q.Floor;
    assert q.Floor as real <= q < q.Floor as real + 1.0;
    assert 60.0 * q == d;
  }

  /**
   * A negative duration is not: floor and the truncating remainder disagree,
   * so -30 minutes is shown as -1 h -30 m.
   */
  lemma NegativeDurationSplit()
    ensures DurationHours(-30.0) == -1 && DurationMinutes(-30.0) == -30.0
    ensures DurationHours(-30.0) as real * 60.0 + DurationMinutes(-30.0) != -30.0
  {
    assert (-30.0 / 60.0) == -0.5;
    assert Trunc(-0.5) == 0;
  }

  /** Start of the local day that contains `t`. */
  function Midnight(t: int): (r: int)
    ensures r <= t < r + DayMs
    ensures r % DayMs == 0
  {
    t - t % DayMs
  }

  lemma MidnightShift(t: int, k: int)
    ensures Midnight(t + k * DayMs) == Midnight(t) + k * DayMs
  {
    var m := Midnight(t);
    var r := t - m;
    assert 0 <= r < DayMs;
    assert t + k * DayMs == (m / DayMs + k) * DayMs + r;
    assert (t + k * DayMs) % DayMs == r;
  }

  /** `Array.prototype.filter`: the elements satisfying `p`, in their original order. */
  function Filter<T>(s: seq<T>, p: T -> bool): (r: seq<T>)
    ensures |r| <= |s|
    ensures forall i :: 0 <= i < |r| ==> r[i] in s && p(r[i])
    ensures forall i :: 0 <= i < |s| && p(s[i]) ==> s[i] in r
  {
    if s == [] then [] else (if p(s[0]) then [s[0]] else []) + Filter(s[1..], p)
  }

  lemma {:induction false} FilterConcat<T>(a: seq<T>, b: seq<T>, p: T -> bool)
    ensures Filter(a + b, p) == Filter(a, p) + Filter(b, p)
  {
    if a == [] {
      assert a + b == b;
    } else {
      assert (a + b)[1..] == a[1..] + b;
      FilterConcat(a[1..], b, p);
    }
  }

  /** Two successive filters keep exactly what one filter on the conjunction keeps. */
  lemma {:induction false} FilterFilter<T>(s: seq<T>, p: T -> bool, q: T -> bool)
    ensures Filter(Filter(s, p), q) == Filter(s, x => p(x) && q(x))
  {
    if s != [] {
      FilterFilter(s[1..], p, q);
      var head := if p(s[0]) then [s[0]] else [];
      FilterConcat(head, Filter(s[1..], p), q);
    }
  }

  /** Two successive filters keep what one filter on an equivalent conjunction keeps. */
  lemma {:induction false} FilterFilterAs<T>(s: seq<T>, p: T -> bool, q: T -> bool, r: T -> bool)
    requires forall i :: 0 <= i < |s| ==> (p(s[i]) && q(s[i]) <==> r(s[i]))
    ensures Filter(Filter(s, p), q) == Filter(s, r)
  {
    if s != [] {
      FilterFilterAs(s[1..], p, q, r);
      var head := if p(s[0]) then [s[0]] else [];
      FilterConcat(head, Filter(s[1..], p), q);
    }
  }

  lemma {:induction false} FilterAll<T>(s: seq<T>, p: T -> bool)
    requires forall i :: 0 <= i < |s| ==> p(s[i])
    ensures Filter(s, p) == s
  {
    if s != [] {
      FilterAll(s[1..], p);
    }
  }

  lemma {:induction false} FilterMultiset<T>(s: seq<T>, p: T -> bool)
    ensures multiset(Filter(s, p)) <= multiset(s)
  {
    if s != [] {
      FilterMultiset(s[1..], p);
      var head := if p(s[0]) then [s[0]] else [];
      assert Filter(s, p) == head + Filter(s[1..], p);
      assert multiset(Filter(s, p)) == multiset(head) + multiset(Filter(s[1..], p));
      assert s == [s[0]] + s[1..];
      assert multiset(s) == multiset{s[0]} + multiset(s[1..]);
    }
  }

  /** The filter `block => block.machineId === machineId`. */
  function OnMachine(machineId: string): Block -> bool {
    (b: Block) => b.machineId == machineId
  }

  /** The half-open start-time window `lo <= startTime < hi`. */
  function StartsWithin(lo: int, hi: int): Block -> bool {
    (b: Block) => lo <= b.start < hi
  }

  /** Filters that agree on every element keep the same elements. */
  lemma {:induction false} FilterCongruent<T>(s: seq<T>, p: T -> bool, q: T -> bool)
    requires forall i :: 0 <= i < |s| ==> p(s[i]) == q(s[i])
    ensures Filter(s, p) == Filter(s, q)
  {
    if s != [] {
      FilterCongruent(s[1..], p, q);
    }
  }

  ghost predicate SortedByStart(s: seq<Block>) {
    forall i, j :: 0 <= i < j < |s| ==> s[i].start <= s[j].start
  }

  lemma SortedCons(h: Block, t: seq<Block>)
    requires SortedByStart(t)
    requires forall i :: 0 <= i < |t| ==> h.start <= t[i].start
    ensures SortedByStart([h] + t)
  {
    var r := [h] + t;
    forall i, j | 0 <= i < j < |r| ensures r[i].start <= r[j].start {
      if i > 0 { assert r[i] == t[i - 1] && r[j] == t[j - 1]; } else { assert r[j] == t[j - 1]; }
    }
  }

  /** Insert `x` into a sorted list before the first block that does not start earlier. */
  function InsertByStart(x: Block, s: seq<Block>): (r: seq<Block>)
    requires SortedByStart(s)
    ensures |r| == |s| + 1
    ensures SortedByStart(r)
    ensures forall i :: 0 <= i < |r| ==> r[i] == x || r[i] in s
    ensures multiset(r) == multiset(s) + multiset{x}
  {
    if s == [] || x.start <= s[0].start then
      SortedCons(x, s);
      [x] + s
    else
      SortedTail(s);
      var rest := InsertByStart(x, s[1..]);
      assert forall i :: 0 <= i < |rest| ==> s[0].start <= rest[i].start by {
        forall i | 0 <= i < |rest| ensures s[0].start <= rest[i].start {
          if rest[i] != x {
            var j :| 0 <= j < |s[1..]| && s[1..][j] == rest[i];
            assert s[j + 1] == rest[i];
          }
        }
      }
      SortedCons(s[0], rest);
      assert s == [s[0]] + s[1..];
      [s[0]] + rest
  }

  /**
   * The comparator sort `(a, b) => new Date(a.startTime) - new Date(b.startTime)`
   * as an insertion sort; ECMAScript sorts are stable, and so is this one.
   */
  function SortByStart(s: seq<Block>): (r: seq<Block>)
    ensures |r| == |s|
    ensures SortedByStart(r)
    ensures multiset(r) == multiset(s)
  {
    if s == [] then [] else
      assert s == [s[0]] + s[1..];
      InsertByStart(s[0], SortByStart(s[1..]))
  }

  /** The blocks that start at instant `k`, in order. */
  function StartingAt(s: seq<Block>, k: int): (r: seq<Block>)
    ensures forall i :: 0 <= i < |r| ==> r[i].start == k
  {
    if s == [] then [] else (if s[0].start == k then [s[0]] else []) + StartingAt(s[1..], k)
  }

  lemma StartingAtCons(h: Block, t: seq<Block>, k: int)
    ensures StartingAt([h] + t, k) == (if h.start == k then [h] else []) + StartingAt(t, k)
  {
    assert ([h] + t)[1..] == t;
  }

  lemma SortedTail(s: seq<Block>)
    requires SortedByStart(s) && s != []
    ensures SortedByStart(s[1..])
  {
    forall i, j | 0 <= i < j < |s| - 1 ensures s[1..][i].start <= s[1..][j].start {
      assert s[1..][i] == s[i + 1] && s[1..][j] == s[j + 1];
    }
  }

  lemma {:induction false} InsertStable(x: Block, s: seq<Block>, k: int)
    requires SortedByStart(s)
    ensures StartingAt(InsertByStart(x, s), k)
         == (if x.start == k then [x] else []) + StartingAt(s, k)
  {
    if s == [] || x.start <= s[0].start {
      StartingAtCons(x, s, k);
    } else {
      SortedTail(s);
      var rest := InsertByStart(x, s[1..]);
      assert InsertByStart(x, s) == [s[0]] + rest;
      InsertStable(x, s[1..], k);
      StartingAtCons(s[0], rest, k);
      assert s == [s[0]] + s[1..];
      StartingAtCons(s[0], s[1..], k);
      if x.start == k {
        assert s[0].start != k;
      } else {
        assert StartingAt(rest, k) == StartingAt(s[1..], k);
      }
    }
  }

  /** Stability: blocks with equal start times keep their input order. */
  lemma {:induction false} SortStable(s: seq<Block>, k: int)
    ensures StartingAt(SortByStart(s), k) == StartingAt(s, k)
  {
    if s != [] {
      SortStable(s[1..], k);
      InsertStable(s[0], SortByStart(s[1..]), k);
    }
  }
}
