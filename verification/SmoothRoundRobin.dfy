/**
 * Smooth weighted round-robin over the endpoints that are open. One pick adds
 * every open endpoint's weight to its score, takes the first endpoint with the
 * highest score, and charges it the total weight.
 */
module SmoothRoundRobin {
  import Numerals

  function Total(weights: seq<nat>, open: seq<bool>): nat
    requires |weights| == |open|
  {
    if weights == [] then 0
    else Total(weights[..|weights| - 1], open[..|open| - 1]) + (if open[|open| - 1] then weights[|weights| - 1] else 0)
  }

  /** The sum of the scores of the open endpoints. */
  function ScoreSum(scores: seq<int>, open: seq<bool>): int
    requires |scores| == |open|
  {
    if scores == [] then 0
    else ScoreSum(scores[..|scores| - 1], open[..|open| - 1]) + (if open[|open| - 1] then scores[|scores| - 1] else 0)
  }

  function Raised(weights: seq<nat>, scores: seq<int>, open: seq<bool>): (r: seq<int>)
    requires |weights| == |scores| == |open|
    ensures |r| == |scores|
    ensures forall i :: 0 <= i < |r| ==> r[i] == scores[i] + (if open[i] then weights[i] else 0)
  {
    if scores == [] then []
    else
      var n := |scores| - 1;
      Raised(weights[..n], scores[..n], open[..n]) + [scores[n] + (if open[n] then weights[n] else 0)]
  }

  /** `p` is the first open endpoint none of the open ones beats. */
  ghost predicate IsBest(raised: seq<int>, open: seq<bool>, p: nat)
    requires |raised| == |open|
  {
    && p < |open| && open[p]
    && (forall i :: 0 <= i < p && open[i] ==> raised[i] < raised[p])
    && (forall i :: p <= i < |open| && open[i] ==> raised[i] <= raised[p])
  }

  function Best(raised: seq<int>, open: seq<bool>): (p: nat)
    requires |raised| == |open| && true in open
    ensures IsBest(raised, open, p)
  {
    var n := |open| - 1;
    if true in open[..n] then
      var p := Best(raised[..n], open[..n]);
      if open[n] && raised[n] > raised[p] then n else p
    else
      assert open == open[..n] + [open[n]];
      assert forall i :: 0 <= i < n ==> open[i] == open[..n][i];
      n
  }

  function Scores(weights: seq<nat>, scores: seq<int>, open: seq<bool>): (after: seq<int>)
    requires |weights| == |scores| == |open| && true in open
    ensures |after| == |scores|
  {
    var raised := Raised(weights, scores, open);
    var p := Best(raised, open);
    raised[p := raised[p] - Total(weights, open)]
  }

  lemma BestUnique(raised: seq<int>, open: seq<bool>, p: nat, q: nat)
    requires |raised| == |open| && IsBest(raised, open, p) && IsBest(raised, open, q)
    ensures p == q
  {
    assert raised[p] <= raised[q] && raised[q] <= raised[p];
  }

  /** The running total and the running best of a scan from the left. */
  lemma ScanStep(weights: seq<nat>, raised: seq<int>, open: seq<bool>, i: nat, best: int)
    requires |weights| == |raised| == |open| && i < |open| && -1 <= best < i
    requires best == -1 ==> forall k :: 0 <= k < i ==> !open[k]
    requires best != -1 ==> IsBest(raised[..i], open[..i], best)
    ensures Total(weights[..i + 1], open[..i + 1]) == Total(weights[..i], open[..i]) + (if open[i] then weights[i] else 0)
    ensures open[i] && (best == -1 || raised[i] > raised[best]) ==> IsBest(raised[..i + 1], open[..i + 1], i)
    ensures best != -1 && !(open[i] && raised[i] > raised[best]) ==> IsBest(raised[..i + 1], open[..i + 1], best)
  {
    assert weights[..i + 1][..i] == weights[..i] && open[..i + 1][..i] == open[..i];
  }

  // ----- one pick -------------------------------------------------------------

  lemma {:induction false} RaisedSum(weights: seq<nat>, scores: seq<int>, open: seq<bool>)
    requires |weights| == |scores| == |open|
    ensures ScoreSum(Raised(weights, scores, open), open) == ScoreSum(scores, open) + Total(weights, open)
  {
    if scores != [] {
      var n := |scores| - 1;
      RaisedSum(weights[..n], scores[..n], open[..n]);
      assert Raised(weights, scores, open)[..n] == Raised(weights[..n], scores[..n], open[..n]);
    }
  }

  lemma {:induction false} ChargedSum(scores: seq<int>, open: seq<bool>, p: nat, charge: int)
    requires |scores| == |open| && p < |open| && open[p]
    ensures ScoreSum(scores[p := scores[p] - charge], open) == ScoreSum(scores, open) - charge
    decreases |scores|
  {
    var n := |scores| - 1;
    var after := scores[p := scores[p] - charge];
    if p < n {
      ChargedSum(scores[..n], open[..n], p, charge);
      assert after[..n] == scores[..n][p := scores[p] - charge];
    } else {
      assert after[..n] == scores[..n];
    }
  }

  /** Among open endpoints, the best score is positive when the sum is. */
  lemma {:induction false} PositiveBest(raised: seq<int>, open: seq<bool>, bound: int)
    requires |raised| == |open| && ScoreSum(raised, open) > 0 && bound <= 0
    ensures exists i :: 0 <= i < |raised| && open[i] && raised[i] > bound
  {
    var n := |raised| - 1;
    if raised != [] {
      if !(open[n] && raised[n] > bound) {
        PositiveBest(raised[..n], open[..n], bound);
        var i :| 0 <= i < n && open[..n][i] && raised[..n][i] > bound;
        assert open[i] && raised[i] > bound;
      }
    }
  }

  /** Scores of open endpoints sum to zero and stay above minus the total. */
  ghost predicate Balanced(weights: seq<nat>, scores: seq<int>, open: seq<bool>)
    requires |weights| == |scores| == |open|
  {
    && ScoreSum(scores, open) == 0
    && forall i :: 0 <= i < |scores| && open[i] ==> scores[i] + Total(weights, open) > 0
  }

  lemma PickKeepsBalance(weights: seq<nat>, scores: seq<int>, open: seq<bool>)
    requires |weights| == |scores| == |open| && true in open
    requires Total(weights, open) > 0 && Balanced(weights, scores, open)
    ensures Balanced(weights, Scores(weights, scores, open), open)
  {
    hide Total, ScoreSum, Raised, Best;
    var raised := Raised(weights, scores, open);
    var p, total := Best(raised, open), Total(weights, open);
    RaisedSum(weights, scores, open);
    PositiveBest(raised, open, 0);
    ChargedSum(raised, open, p, total);
  }

  // ----- runs from zero -------------------------------------------------------

  function ZeroScores(n: nat): (z: seq<int>)
    ensures |z| == n && forall i :: 0 <= i < n ==> z[i] == 0
  {
    if n == 0 then [] else ZeroScores(n - 1) + [0]
  }

  /** The scores after `t` picks. */
  function ScoresAt(weights: seq<nat>, open: seq<bool>, t: nat): (scores: seq<int>)
    requires |weights| == |open| && true in open
    ensures |scores| == |open|
  {
    if t == 0 then ZeroScores(|open|) else Scores(weights, ScoresAt(weights, open, t - 1), open)
  }

  /** The endpoint that pick number `t` (counting from zero) chooses. */
  function PickAt(weights: seq<nat>, open: seq<bool>, t: nat): (p: nat)
    requires |weights| == |open| && true in open
    ensures p < |open| && open[p]
  {
    Best(Raised(weights, ScoresAt(weights, open, t), open), open)
  }

  /** How often endpoint `i` is chosen in picks number `lo` up to, but not including, `hi`. */
  function Chosen(weights: seq<nat>, open: seq<bool>, i: nat, lo: nat, hi: nat): nat
    requires |weights| == |open| && true in open
    requires lo <= hi
    decreases hi
  {
    if lo == hi then 0
    else Chosen(weights, open, i, lo, hi - 1) + (if PickAt(weights, open, hi - 1) == i then 1 else 0)
  }

  lemma {:induction false} ZeroSum(open: seq<bool>)
    ensures ScoreSum(ZeroScores(|open|), open) == 0
  {
    if open != [] {
      ZeroSum(open[..|open| - 1]);
      assert ZeroScores(|open|)[..|open| - 1] == ZeroScores(|open| - 1);
    }
  }

  lemma {:induction false} AlwaysBalanced(weights: seq<nat>, open: seq<bool>, t: nat)
    requires |weights| == |open| && true in open && Total(weights, open) > 0
    ensures Balanced(weights, ScoresAt(weights, open, t), open)
  {
    if t == 0 {
      ZeroSum(open);
    } else {
      AlwaysBalanced(weights, open, t - 1);
      PickKeepsBalance(weights, ScoresAt(weights, open, t - 1), open);
    }
  }

  /** Every pick pays an open endpoint its weight and charges the chosen one the total. */
  lemma ScoreStep(weights: seq<nat>, open: seq<bool>, i: nat, t: nat)
    requires |weights| == |open| && true in open && i < |open| && open[i]
    ensures ScoresAt(weights, open, t + 1)[i] ==
            ScoresAt(weights, open, t)[i] + weights[i] - (if PickAt(weights, open, t) == i then Total(weights, open) else 0)
  {
    hide Raised, Best, Total;
  }

  lemma LedgerStep(t: nat, owed: nat, total: nat, chosen: nat, score: int)
    requires t > 0 && score == (t - 1) * owed - total * chosen
    ensures score + owed == t * owed - total * chosen
    ensures score + owed - total == t * owed - total * (chosen + 1)
  {
  }

  /** A score is what the endpoint was owed minus what it was charged. */
  lemma {:induction false} ScoreLedger(weights: seq<nat>, open: seq<bool>, i: nat, t: nat)
    requires |weights| == |open| && true in open && i < |open| && open[i]
    ensures ScoresAt(weights, open, t)[i] == t * weights[i] - Total(weights, open) * Chosen(weights, open, i, 0, t)
  {
    hide ScoresAt, PickAt, Total;
    if t == 0 {
      NoScores(weights, open);
    } else {
      ScoreLedger(weights, open, i, t - 1);
      ScoreStep(weights, open, i, t - 1);
      LedgerStep(t, weights[i], Total(weights, open), Chosen(weights, open, i, 0, t - 1), ScoresAt(weights, open, t - 1)[i]);
    }
  }

  lemma NoScores(weights: seq<nat>, open: seq<bool>)
    requires |weights| == |open| && true in open
    ensures ScoresAt(weights, open, 0) == ZeroScores(|open|)
  {
  }

  /** At no time is an endpoint ahead of its share by a whole pick. */
  lemma NeverAhead(weights: seq<nat>, open: seq<bool>, i: nat, t: nat)
    requires |weights| == |open| && true in open && i < |open| && open[i] && Total(weights, open) > 0
    ensures Total(weights, open) * Chosen(weights, open, i, 0, t) < t * weights[i] + Total(weights, open)
  {
    AlwaysBalanced(weights, open, t);
    ScoreLedger(weights, open, i, t);
  }

  // ----- whole rounds ---------------------------------------------------------

  /** Sum of the chosen counts of the open endpoints. */
  function Counts(weights: seq<nat>, open: seq<bool>, n: nat, t: nat): nat
    requires |weights| == |open| && true in open && n <= |open|
  {
    if n == 0 then 0
    else Counts(weights, open, n - 1, t) + (if open[n - 1] then Chosen(weights, open, n - 1, 0, t) else 0)
  }

  lemma {:induction false} CountsStep(weights: seq<nat>, open: seq<bool>, n: nat, t: nat)
    requires |weights| == |open| && true in open && n <= |open| && t > 0
    ensures Counts(weights, open, n, t) ==
            Counts(weights, open, n, t - 1) + (if PickAt(weights, open, t - 1) < n then 1 else 0)
  {
    hide PickAt, ScoresAt;
    if n > 0 {
      CountsStep(weights, open, n - 1, t);
    }
  }

  lemma {:induction false} CountsAre(weights: seq<nat>, open: seq<bool>, t: nat)
    requires |weights| == |open| && true in open
    ensures Counts(weights, open, |open|, t) == t
  {
    hide PickAt, ScoresAt;
    if t == 0 {
      CountsAtZero(weights, open, |open|);
    } else {
      CountsStep(weights, open, |open|, t);
      CountsAre(weights, open, t - 1);
    }
  }

  lemma {:induction false} CountsAtZero(weights: seq<nat>, open: seq<bool>, n: nat)
    requires |weights| == |open| && true in open && n <= |open|
    ensures Counts(weights, open, n, 0) == 0
  {
    hide PickAt, ScoresAt;
    if n > 0 {
      CountsAtZero(weights, open, n - 1);
    }
  }

  lemma {:induction false} TotalUpTo(weights: seq<nat>, open: seq<bool>, n: nat, t: nat)
    requires |weights| == |open| && true in open && n <= |open|
    requires forall i :: 0 <= i < |open| && open[i] ==> Chosen(weights, open, i, 0, t) <= weights[i]
    ensures Counts(weights, open, n, t) <= Total(weights[..n], open[..n])
    ensures Counts(weights, open, n, t) == Total(weights[..n], open[..n]) ==>
            forall i :: 0 <= i < n && open[i] ==> Chosen(weights, open, i, 0, t) == weights[i]
  {
    hide PickAt, ScoresAt;
    if n > 0 {
      TotalUpTo(weights, open, n - 1, t);
      assert weights[..n][..n - 1] == weights[..n - 1] && open[..n][..n - 1] == open[..n - 1];
    }
  }

  /** The first round, as long as the weights are heavy, is exact. */
  lemma FirstRound(weights: seq<nat>, open: seq<bool>)
    requires |weights| == |open| && true in open && Total(weights, open) > 0
    ensures var total := Total(weights, open);
      forall i :: 0 <= i < |open| && open[i] ==>
        Chosen(weights, open, i, 0, total) == weights[i] && ScoresAt(weights, open, total)[i] == 0
  {
    hide PickAt, ScoresAt, Total, Chosen, Counts;
    var total := Total(weights, open);
    forall i | 0 <= i < |open| && open[i]
      ensures Chosen(weights, open, i, 0, total) <= weights[i]
    {
      NeverAhead(weights, open, i, total);
      BelowNext(total, Chosen(weights, open, i, 0, total), weights[i]);
    }
    assert weights[..|open|] == weights && open[..|open|] == open;
    CountsAre(weights, open, total);
    TotalUpTo(weights, open, |open|, total);
    forall i | 0 <= i < |open| && open[i]
      ensures ScoresAt(weights, open, total)[i] == 0
    {
      ScoreLedger(weights, open, i, total);
    }
  }

  lemma BelowNext(k: nat, a: nat, b: nat)
    requires k > 0 && k * a < k * b + k
    ensures a <= b
  {
    if a > b {
      Numerals.MulMonotone(k, b + 1, a);
    }
  }

  /** Endpoints that are not open keep whatever score they have: from zero, zero. */
  lemma {:induction false} ClosedScores(weights: seq<nat>, open: seq<bool>, i: nat, t: nat)
    requires |weights| == |open| && true in open && i < |open| && !open[i]
    ensures ScoresAt(weights, open, t)[i] == 0
  {
    if t > 0 {
      ClosedScores(weights, open, i, t - 1);
    }
  }

  /** After a round everything repeats. */
  lemma {:induction false} Periodic(weights: seq<nat>, open: seq<bool>, t: nat)
    requires |weights| == |open| && true in open && Total(weights, open) > 0
    ensures ScoresAt(weights, open, t + Total(weights, open)) == ScoresAt(weights, open, t)
  {
    hide Total, Scores;
    if t == 0 {
      FirstRound(weights, open);
      forall i | 0 <= i < |open| && !open[i]
        ensures ScoresAt(weights, open, Total(weights, open))[i] == 0
      {
        ClosedScores(weights, open, i, Total(weights, open));
      }
    } else {
      Periodic(weights, open, t - 1);
    }
  }

  lemma {:induction false} ChosenSplit(weights: seq<nat>, open: seq<bool>, i: nat, a: nat, b: nat, c: nat)
    requires |weights| == |open| && true in open && a <= b <= c
    ensures Chosen(weights, open, i, a, c) == Chosen(weights, open, i, a, b) + Chosen(weights, open, i, b, c)
    decreases c
  {
    hide PickAt, ScoresAt;
    if b < c {
      ChosenSplit(weights, open, i, a, b, c - 1);
    }
  }

  /** Any window of `Total` consecutive picks chooses every open endpoint exactly its weight. */
  lemma ExactShare(weights: seq<nat>, open: seq<bool>, i: nat, start: nat)
    requires |weights| == |open| && true in open && i < |open| && open[i] && Total(weights, open) > 0
    ensures Chosen(weights, open, i, start, start + Total(weights, open)) == weights[i]
  {
    hide PickAt, ScoresAt, Total, Chosen;
    var total := Total(weights, open);
    Periodic(weights, open, start);
    ScoreLedger(weights, open, i, start);
    ScoreLedger(weights, open, i, start + total);
    ChosenSplit(weights, open, i, 0, start, start + total);
    var a, b := Chosen(weights, open, i, 0, start), Chosen(weights, open, i, start, start + total);
    assert (start + total) * weights[i] == start * weights[i] + total * weights[i];
    assert total * (a + b) == total * a + total * b;
    Cancel(total, b, weights[i]);
  }

  lemma Cancel(k: nat, a: nat, b: nat)
    requires k > 0 && k * a == k * b
    ensures a == b
  {
    BelowNext(k, a, b);
    BelowNext(k, b, a);
  }
}
