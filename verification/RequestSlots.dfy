/**
 * The outbound limiter: every caller reserves the next free slot and sleeps
 * until it. Reserved slots are evenly spaced, whatever the clock says.
 */
module RequestSlots {
  import opened Intervals

  function Later(a: real, b: real): real {
    if a >= b then a else b
  }

  /** The slots that callers arriving at `nows` reserve, the first free one being `next`. */
  function Slots(nows: seq<real>, next: real, interval: real): (slots: seq<real>)
    ensures |slots| == |nows|
    decreases |nows|
  {
    if nows == [] then []
    else
      var slot := Later(nows[0], next);
      [slot] + Slots(nows[1..], slot + interval, interval)
  }

  /** No caller waits behind a slot that is still free, none goes before it arrived. */
  lemma {:induction false} SlotIsEarliest(nows: seq<real>, next: real, interval: real, k: nat)
    requires k < |nows|
    ensures var slots := Slots(nows, next, interval);
      slots[k] == Later(nows[k], if k == 0 then next else slots[k - 1] + interval)
    decreases |nows|
  {
    if k > 0 {
      SlotIsEarliest(nows[1..], Later(nows[0], next) + interval, interval, k - 1);
    }
  }

  /** Slot number `j` comes at least `j - i` intervals after slot number `i`. */
  lemma {:induction false} Spacing(nows: seq<real>, next: real, interval: real, i: nat, j: nat)
    requires interval >= 0.0 && i <= j < |nows|
    ensures var slots := Slots(nows, next, interval);
      slots[j] >= slots[i] + (j - i) as real * interval
    decreases j
  {
    if i < j {
      Spacing(nows, next, interval, i, j - 1);
      SlotIsEarliest(nows, next, interval, j);
      var n := (j - 1 - i) as real;
      assert (j - i) as real == n + 1.0;
      assert (n + 1.0) * interval == n * interval + interval;
    }
  }

  /** The slots that fall in the window that opens at `start` and lasts `n` intervals. */
  ghost function InWindow(slots: seq<real>, start: real, n: nat, interval: real): set<int> {
    set k: int | 0 <= k < |slots| && start <= slots[k] < start + n as real * interval
  }

  lemma InWindowBounds(slots: seq<real>, start: real, n: nat, interval: real)
    ensures forall k :: k in InWindow(slots, start, n, interval) ==> 0 <= k < |slots|
  {
  }

  lemma FewSlotsApart(nows: seq<real>, next: real, interval: real, start: real, n: nat, i: nat, j: nat)
    requires interval > 0.0 && i <= j
    requires i in InWindow(Slots(nows, next, interval), start, n, interval)
    requires j in InWindow(Slots(nows, next, interval), start, n, interval)
    ensures j < i + n
  {
    hide Slots;
    Spacing(nows, next, interval, i, j);
    var slots := Slots(nows, next, interval);
    var apart: real := (j - i) as real;
    assert slots[j] >= slots[i] + apart * interval;
    Squeeze(start, slots[i], slots[j], apart, n as real, interval);
  }

  /** No window of `n` intervals holds more than `n` slots, wherever it opens. */
  lemma WindowBound(nows: seq<real>, next: real, interval: real, start: real, n: nat)
    requires interval > 0.0
    ensures |InWindow(Slots(nows, next, interval), start, n, interval)| <= n
  {
    hide Slots, InWindow;
    var inside := InWindow(Slots(nows, next, interval), start, n, interval);
    if inside != {} {
      var first := Smallest(inside);
      InWindowBounds(Slots(nows, next, interval), start, n, interval);
      forall k | k in inside
        ensures first <= k < first + n
      {
        FewSlotsApart(nows, next, interval, start, n, first, k);
      }
      SubsetSize(inside, Interval(first, first + n - 1));
    }
  }

  lemma Squeeze(start: real, first: real, last: real, a: real, b: real, interval: real)
    requires interval > 0.0 && start <= first
    requires first + a * interval <= last < start + b * interval
    ensures a < b
  {
    assert (b - a) * interval > 0.0;
  }

  lemma Smallest(s: set<int>) returns (x: int)
    requires s != {}
    ensures x in s && forall y :: y in s ==> x <= y
  {
    x := Member(s);
    if s - {x} != {} {
      var rest := Smallest(s - {x});
      assert s == {x} + (s - {x});
      if rest < x { x := rest; }
    } else {
      assert s == {x};
    }
  }
}
