/** Positional numerals in any base of at least two, most significant digit first. */
module Numerals {

  function Value(digits: seq<nat>, base: nat): nat {
    if digits == [] then 0
    else Value(digits[..|digits| - 1], base) * base + digits[|digits| - 1]
  }

  /** The digits of `n` without leading zeros; zero has no digits at all. */
  function Digits(n: nat, base: nat): (d: seq<nat>)
    requires base >= 2
    ensures forall i :: 0 <= i < |d| ==> d[i] < base
    ensures d != [] ==> d[0] != 0
    decreases n
  {
    if n == 0 then []
    else
      Shrinks(n, base);
      Digits(n / base, base) + [n % base]
  }

  ghost predicate Canonical(digits: seq<nat>, base: nat) {
    && (forall i :: 0 <= i < |digits| ==> digits[i] < base)
    && (digits != [] ==> digits[0] != 0)
  }

  lemma Shrinks(n: nat, base: nat)
    requires n > 0 && base >= 2
    ensures 0 <= n / base < n
  {
    Recompose(n, base);
    var q := n / base;
    if q >= n {
      assert q * base >= q * 2 by { MulMonotone(q, 2, base); }
    }
  }

  lemma MulMonotone(a: nat, b: int, c: int)
    requires b <= c
    ensures a * b <= a * c
  {
    assert a * c - a * b == a * (c - b);
  }

  lemma Recompose(n: nat, base: nat)
    requires base > 0
    ensures (n / base) * base + n % base == n
  {
  }

  lemma DivMod(q: nat, r: nat, base: nat)
    requires r < base
    ensures (q * base + r) / base == q && (q * base + r) % base == r
  {
    var n := q * base + r;
    Recompose(n, base);
    var k := n / base - q;
    assert k * base == r - n % base by {
      assert k * base == (n / base) * base - q * base;
    }
    SmallMultiple(k, base);
  }

  lemma SmallMultiple(k: int, base: nat)
    requires k * base < base && -(k * base) < base
    ensures k == 0
  {
    if k != 0 {
      MulMonotone(base, 1, if k > 0 then k else -k);
    }
  }

  lemma {:induction false} ValueOfDigits(n: nat, base: nat)
    requires base >= 2
    ensures Value(Digits(n, base), base) == n
    decreases n
  {
    if n > 0 {
      Shrinks(n, base);
      ValueOfDigits(n / base, base);
      assert Digits(n, base)[..|Digits(n, base)| - 1] == Digits(n / base, base);
      Recompose(n, base);
    }
  }

  lemma {:induction false} CanonicalPositive(digits: seq<nat>, base: nat)
    requires base >= 2 && Canonical(digits, base) && digits != []
    ensures Value(digits, base) > 0
  {
    if |digits| > 1 {
      CanonicalPositive(digits[..|digits| - 1], base);
      MulMonotone(base, 1, Value(digits[..|digits| - 1], base));
    }
  }

  /** A numeral without leading zeros is the only one of its value. */
  lemma {:induction false} DigitsOfValue(digits: seq<nat>, base: nat)
    requires base >= 2 && Canonical(digits, base)
    ensures Digits(Value(digits, base), base) == digits
  {
    if digits != [] {
      CanonicalPositive(digits, base);
      var front, last := digits[..|digits| - 1], digits[|digits| - 1];
      DigitsOfValue(front, base);
      assert digits == front + [last];
      var value := Value(digits, base);
      DivMod(Value(front, base), last, base);
      assert value / base == Value(front, base) && value % base == last;
      hide Value;
    }
  }

  function Zeros(n: nat): (z: seq<nat>)
    ensures |z| == n && forall i :: 0 <= i < n ==> z[i] == 0
  {
    if n == 0 then [] else [0] + Zeros(n - 1)
  }

  /** Leading zeros do not change the value. */
  lemma {:induction false} ValueOfPadded(zeros: nat, digits: seq<nat>, base: nat)
    ensures Value(Zeros(zeros) + digits, base) == Value(digits, base)
    decreases zeros + |digits|
  {
    var padded := Zeros(zeros) + digits;
    if digits != [] {
      ValueOfPadded(zeros, digits[..|digits| - 1], base);
      assert padded[..|padded| - 1] == Zeros(zeros) + digits[..|digits| - 1];
    } else if zeros > 0 {
      ValueOfPadded(zeros - 1, [], base);
      assert padded[..|padded| - 1] == Zeros(zeros - 1) + [];
    }
  }
}
