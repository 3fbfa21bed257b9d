/** `fillMissingTimepoints`: walk from the window start to its end in fixed
    steps, key every step with `getTimeKey`, and emit the count stored under
    that key or 0. */
module GapFill {
  import opened Arith
  import opened Window
  import opened TimeKeys
  import opened Series
  import opened Sorting

  /** How many steps of width `inc` fit in `[start, end]`, both ends
      included. */
  function Steps(start: int, end: int, inc: int): nat
    requires inc > 0
  {
    if start <= end then (end - start) / inc + 1 else 0
  }

  /** Taking one step leaves one step fewer. */
  lemma StepsUnfold(cur: int, end: int, inc: int)
    requires inc > 0 && cur <= end
    ensures Steps(cur, end, inc) == 1 + Steps(cur + inc, end, inc)
  {
    if cur + inc <= end {
      var q := (end - cur - inc) / inc;
      assert inc * q <= end - cur - inc < inc * q + inc;
      DivisionBySlot(end - cur, inc, q + 1);
    } else {
      DivisionBySlot(end - cur, inc, 0);
    }
  }

  /** The step `i` of the walk from `start` lands on this key. */
  function GridKey(start: int, i: int, r: Range, offset: int): int {
    TimeKey(start + i * Increment(r), r, offset)
  }

  /** The `while (currentTime <= endTime)` loop from `cur` on, one point per
      step. */
  function Walk(dataMap: map<int, nat>, cur: int, end: int, r: Range, offset: int): (out: seq<Entry>)
    ensures |out| == Steps(cur, end, Increment(r))
    ensures forall i :: 0 <= i < |out| ==>
              out[i].key == GridKey(cur, i, r, offset) && out[i].count == Lookup(dataMap, out[i].key)
    decreases end - cur
  {
    if cur > end then []
    else
      var inc := Increment(r);
      var key := TimeKey(cur, r, offset);
      var rest := Walk(dataMap, cur + inc, end, r, offset);
      StepsUnfold(cur, end, inc);
      assert forall i :: 0 < i <= |rest| ==> cur + inc + (i - 1) * inc == cur + i * inc;
      [Entry(key, Lookup(dataMap, key))] + rest
  }

  /** `fillMissingTimepoints(data, startTime, endTime, range)`; `data` is
      first turned into the lookup table `dataMap`. */
  function FillMissingTimepoints(data: seq<Entry>, start: int, end: int, r: Range, offset: int): (out: seq<Entry>)
    ensures |out| == Steps(start, end, Increment(r))
    ensures forall i :: 0 <= i < |out| ==>
              out[i].key == GridKey(start, i, r, offset) && out[i].count == Lookup(ToMap(data), out[i].key)
  {
    Walk(ToMap(data), start, end, r, offset)
  }

  /** The same walk as a loop, pushing one point per step. */
  method FillLoop(data: seq<Entry>, start: int, end: int, r: Range, offset: int) returns (out: seq<Entry>)
    ensures |out| == Steps(start, end, Increment(r))
    ensures forall i :: 0 <= i < |out| ==>
              out[i].key == GridKey(start, i, r, offset) && out[i].count == Lookup(ToMap(data), out[i].key)
  {
    var dataMap := ToMap(data);
    var inc := Increment(r);
    out := [];
    var cur := start;
    while cur <= end
      invariant cur == start + |out| * inc
      invariant |out| == 0 || start + (|out| - 1) * inc <= end
      invariant forall i :: 0 <= i < |out| ==>
                  out[i].key == GridKey(start, i, r, offset) && out[i].count == Lookup(dataMap, out[i].key)
      decreases end - cur
    {
      var key := TimeKey(cur, r, offset);
      out := out + [Entry(key, Lookup(dataMap, key))];
      cur := cur + inc;
    }
    if |out| > 0 {
      DivisionBySlot(end - start, inc, |out| - 1);
    }
  }

  /** The loop and the recursive walk produce the same series. */
  lemma FillLoopAgrees(data: seq<Entry>, start: int, end: int, r: Range, offset: int, out: seq<Entry>)
    requires |out| == Steps(start, end, Increment(r))
    requires forall i :: 0 <= i < |out| ==>
               out[i].key == GridKey(start, i, r, offset) && out[i].count == Lookup(ToMap(data), out[i].key)
    ensures out == FillMissingTimepoints(data, start, end, r, offset)
  {
  }

  /** Consecutive keys are exactly one step apart, so the keys strictly
      increase: one minute for "hour" and "day", one day otherwise. */
  lemma {:induction false} WalkKeysStep(dataMap: map<int, nat>, start: int, end: int, r: Range, offset: int)
    ensures var out := Walk(dataMap, start, end, r, offset);
            forall i :: 0 <= i < |out| - 1 ==> out[i + 1].key == out[i].key + Increment(r)
  {
    var out := Walk(dataMap, start, end, r, offset);
    forall i | 0 <= i < |out| - 1
      ensures out[i + 1].key == out[i].key + Increment(r)
    {
      TimeKeyStep(start + i * Increment(r), r, offset);
      assert start + (i + 1) * Increment(r) == start + i * Increment(r) + Increment(r);
    }
  }

  /** A window of exactly `n` steps ends with the key of its end. */
  lemma WalkLastKey(dataMap: map<int, nat>, start: int, end: int, r: Range, offset: int, n: nat)
    requires start + n * Increment(r) == end
    ensures var out := Walk(dataMap, start, end, r, offset);
            |out| == n + 1 && out[n].key == TimeKey(end, r, offset)
  {
    var inc := Increment(r);
    assert inc * n == end - start;
    DivisionBySlot(end - start, inc, n);
  }

  /** The key of step `i` is the key of step 0 plus `i` steps. */
  lemma {:induction false} GridKeyShift(start: int, i: nat, r: Range, offset: int)
    ensures GridKey(start, i, r, offset) == GridKey(start, 0, r, offset) + i * Increment(r)
  {
    if i > 0 {
      var inc := Increment(r);
      GridKeyShift(start, i - 1, r, offset);
      TimeKeyStep(start + (i - 1) * inc, r, offset);
      assert start + (i - 1) * inc + inc == start + i * inc;
      assert (i - 1) * inc + inc == i * inc;
    }
  }

  /** The first key plus `i` steps is the key of step `i`. */
  lemma WalkKeysArithmetic(dataMap: map<int, nat>, start: int, end: int, r: Range, offset: int)
    ensures var out := Walk(dataMap, start, end, r, offset);
            forall i :: 0 <= i < |out| ==> out[i].key == out[0].key + i * Increment(r)
  {
    var out := Walk(dataMap, start, end, r, offset);
    forall i | 0 <= i < |out|
      ensures out[i].key == out[0].key + i * Increment(r)
    {
      GridKeyShift(start, i, r, offset);
    }
  }

  /** Walk output is strictly ordered by time. */
  lemma WalkStrictlyAscending(dataMap: map<int, nat>, start: int, end: int, r: Range, offset: int)
    ensures StrictlyAscending(Walk(dataMap, start, end, r, offset))
  {
    var out := Walk(dataMap, start, end, r, offset);
    var inc := Increment(r);
    WalkKeysArithmetic(dataMap, start, end, r, offset);
    forall i, j | 0 <= i < j < |out|
      ensures out[i].key < out[j].key
    {
      assert out[i].key == out[0].key + i * inc;
      assert out[j].key == out[0].key + j * inc;
      MulMonotone(inc, i + 1, j);
      assert inc * (i + 1) == i * inc + inc;
      assert inc * j == j * inc;
    }
  }

  /** A stored key that no step of the walk lands on is dropped: the series
      is the same with or without it, whatever count it has. */
  lemma WalkIgnoresOffGrid(dataMap: map<int, nat>, start: int, end: int, r: Range, offset: int, k: int, c: nat)
    requires forall i :: 0 <= i < Steps(start, end, Increment(r)) ==> GridKey(start, i, r, offset) != k
    ensures Walk(dataMap[k := c], start, end, r, offset) == Walk(dataMap, start, end, r, offset)
    ensures Walk(dataMap - {k}, start, end, r, offset) == Walk(dataMap, start, end, r, offset)
  {
  }

  /** The series depends on the points in `data`, not on their order. */
  lemma FillIgnoresOrder(a: seq<Entry>, b: seq<Entry>, start: int, end: int, r: Range, offset: int)
    requires DistinctKeys(a) && DistinctKeys(b)
    requires multiset(a) == multiset(b)
    ensures FillMissingTimepoints(a, start, end, r, offset) == FillMissingTimepoints(b, start, end, r, offset)
  {
    ToMapPermutation(a, b);
  }

  /** Under "week" only keys at local midnight can appear: a stored minute
      key at any other time of day is never emitted. */
  lemma WeekEmitsMidnightsOnly(dataMap: map<int, nat>, start: int, end: int, offset: int, k: int)
    requires (k + offset) % DayMs != 0
    ensures forall e :: e in Walk(dataMap, start, end, Week, offset) ==> e.key != k
  {
  }

  /** Under "week", a table with no key at local midnight fills every
      bucket with 0. */
  lemma WeekZeroWithoutMidnights(dataMap: map<int, nat>, start: int, end: int, offset: int)
    requires forall k :: k in dataMap ==> !Aligned(k, DayMs, offset)
    ensures var out := Walk(dataMap, start, end, Week, offset);
            forall i :: 0 <= i < |out| ==> out[i].count == 0
  {
    var out := Walk(dataMap, start, end, Week, offset);
    forall i | 0 <= i < |out|
      ensures out[i].count == 0
    {
      assert Aligned(out[i].key, DayMs, offset);
    }
  }
}
