/** How much of a missing range has been filled in from both of its ends. */
module RangeProgress {
  import opened Options
  import opened BlockRange
  import opened Intervals

  function AscDone(start: int, end: int, upTo: Option<int>): int {
    if upTo.Some? && upTo.value >= start then Min(upTo.value, end) - start + 1 else 0
  }

  function DescDone(start: int, end: int, downTo: Option<int>): int {
    if downTo.Some? && downTo.value <= end then end - Max(downTo.value, start) + 1 else 0
  }

  function BlocksProcessed(start: int, end: int, upTo: Option<int>, downTo: Option<int>): int {
    Min(end - start + 1, AscDone(start, end, upTo) + DescDone(start, end, downTo))
  }

  /** The heights of the range that one cursor or the other has passed. */
  function Filled(start: int, end: int, upTo: Option<int>, downTo: Option<int>): set<int> {
    set h | h in Interval(start, end) && ((upTo.Some? && h <= upTo.value) || (downTo.Some? && downTo.value <= h))
  }

  /**
   * Wherever the cursors are, also when they have crossed or left the range, the
   * number is that of the heights filled in, unless the range ends before it begins.
   */
  lemma CountsExactly(start: int, end: int, upTo: Option<int>, downTo: Option<int>)
    ensures BlocksProcessed(start, end, upTo, downTo) == |Filled(start, end, upTo, downTo)| <==> start <= end + 1
  {
    var a := if upTo.Some? then Min(upTo.value, end) else start - 1;
    var d := if downTo.Some? then Max(downTo.value, start) else end + 1;
    hide Filled, Interval;
    FilledFromBothEnds(start, end, upTo, downTo, a, d);
    TwoEnds(start, end, a, d);
    Counting(start, end, upTo, downTo, a, d, |Interval(start, a) + Interval(d, end)|);
  }

  lemma Counting(start: int, end: int, upTo: Option<int>, downTo: Option<int>, a: int, d: int, n: int)
    requires a == if upTo.Some? then Min(upTo.value, end) else start - 1
    requires d == if downTo.Some? then Max(downTo.value, start) else end + 1
    requires n == if d > a then Max(0, a - start + 1) + Max(0, end - d + 1) else Max(0, end - start + 1)
    ensures BlocksProcessed(start, end, upTo, downTo) == n <==> start <= end + 1
  {
  }

  lemma FilledFromBothEnds(start: int, end: int, upTo: Option<int>, downTo: Option<int>, a: int, d: int)
    requires a == if upTo.Some? then Min(upTo.value, end) else start - 1
    requires d == if downTo.Some? then Max(downTo.value, start) else end + 1
    ensures Filled(start, end, upTo, downTo) == Interval(start, a) + Interval(d, end)
  {
  }

  lemma TwoEnds(start: int, end: int, a: int, d: int)
    requires a <= end || a == start - 1
    requires d >= start || d == end + 1
    ensures |Interval(start, a) + Interval(d, end)| ==
            if d > a then Max(0, a - start + 1) + Max(0, end - d + 1) else Max(0, end - start + 1)
  {
    hide Interval;
    if d > a {
      assert Interval(start, a) !! Interval(d, end);
    } else {
      assert Interval(start, a) + Interval(d, end) == Interval(start, end);
    }
  }

  /** What is left is what neither cursor has passed. */
  lemma PendingIsTheRest(start: int, end: int, upTo: Option<int>, downTo: Option<int>)
    requires start <= end + 1
    ensures (end - start + 1) - BlocksProcessed(start, end, upTo, downTo) == |Interval(start, end) - Filled(start, end, upTo, downTo)|
  {
    CountsExactly(start, end, upTo, downTo);
    var all, filled := Interval(start, end), Filled(start, end, upTo, downTo);
    assert all == filled + (all - filled);
    assert |all| == |filled| + |all - filled|;
  }
}
