/**
 * The pool of NEAR RPC endpoints: which one a request is sent to, how outcomes
 * change what the pool knows of it, and what an exhausted request proves.
 * Time and outcomes are parameters; whatever other requests do to the shared
 * endpoints while one is waiting is a list of pool events.
 */
module RpcPool {
  import opened Options
  import RR = SmoothRoundRobin

  /** What is fixed when the pool is built. */
  datatype Config = Config(urls: seq<string>, weights: seq<nat>, duration: int, maxFailures: int)

  // ----- the pool as a value --------------------------------------------------

  datatype Endpoint = Endpoint(failures: nat, lastFailure: Option<int>, blacklisted: bool, score: int)

  const FRESH := Endpoint(0, None, false, 0)

  /** A recorded time of zero counts as no time, as a zero does in the source's test. */
  function Expired(e: Endpoint, now: int, duration: int): bool {
    e.blacklisted && e.lastFailure.Some? && e.lastFailure.value != 0 && now - e.lastFailure.value > duration
  }

  function Cleared(e: Endpoint, now: int, duration: int): Endpoint {
    if Expired(e, now, duration) then e.(blacklisted := false, failures := 0, lastFailure := None) else e
  }

  function ClearExpired(es: seq<Endpoint>, now: int, duration: int): (cleared: seq<Endpoint>)
    ensures |cleared| == |es|
    ensures forall i :: 0 <= i < |es| ==> cleared[i] == Cleared(es[i], now, duration)
  {
    if es == [] then [] else ClearExpired(es[..|es| - 1], now, duration) + [Cleared(es[|es| - 1], now, duration)]
  }

  function AllFresh(n: nat): (es: seq<Endpoint>)
    ensures |es| == n && forall i :: 0 <= i < n ==> es[i] == FRESH
  {
    if n == 0 then [] else AllFresh(n - 1) + [FRESH]
  }

  function Open(es: seq<Endpoint>): (open: seq<bool>)
    ensures |open| == |es| && forall i :: 0 <= i < |es| ==> open[i] == !es[i].blacklisted
  {
    if es == [] then [] else Open(es[..|es| - 1]) + [!es[|es| - 1].blacklisted]
  }

  function ScoresOf(es: seq<Endpoint>): (scores: seq<int>)
    ensures |scores| == |es| && forall i :: 0 <= i < |es| ==> scores[i] == es[i].score
  {
    if es == [] then [] else ScoresOf(es[..|es| - 1]) + [es[|es| - 1].score]
  }

  function WithScores(es: seq<Endpoint>, scores: seq<int>): (r: seq<Endpoint>)
    requires |es| == |scores|
    ensures |r| == |es| && forall i :: 0 <= i < |es| ==> r[i] == es[i].(score := scores[i])
  {
    if es == [] then []
    else WithScores(es[..|es| - 1], scores[..|es| - 1]) + [es[|es| - 1].(score := scores[|es| - 1])]
  }

  /** Expired blacklistings are lifted; if that leaves nothing open, everything is forgotten. */
  function Available(es: seq<Endpoint>, now: int, duration: int): (r: seq<Endpoint>)
    ensures |r| == |es|
    ensures es != [] ==> true in Open(r)
  {
    var cleared := ClearExpired(es, now, duration);
    if true in Open(cleared) then cleared
    else
      assert es != [] ==> Open(AllFresh(|es|))[0];
      AllFresh(|es|)
  }

  /** The endpoint a pick chooses, and the pool after the pick. */
  function Picked(es: seq<Endpoint>, c: Config, now: int): (r: (nat, seq<Endpoint>))
    requires |c.weights| == |es| && es != []
    ensures r.0 < |es| && |r.1| == |es| && !r.1[r.0].blacklisted
  {
    var available := Available(es, now, c.duration);
    var open := Open(available);
    var p := RR.Best(RR.Raised(c.weights, ScoresOf(available), open), open);
    (p, WithScores(available, RR.Scores(c.weights, ScoresOf(available), open)))
  }

  function Failed(e: Endpoint, now: int, blacklistNow: bool, maxFailures: int): Endpoint {
    e.(failures := e.failures + 1, lastFailure := Some(now),
       blacklisted := e.blacklisted || blacklistNow || e.failures + 1 >= maxFailures)
  }

  function Succeeded(e: Endpoint): Endpoint {
    e.(failures := 0, blacklisted := false, lastFailure := None)
  }

  // ----- what holds of the pool at all times ----------------------------------

  ghost predicate Consistent(e: Endpoint, maxFailures: int) {
    && (!e.blacklisted ==> e.failures < maxFailures)
    && (e.blacklisted ==> e.lastFailure.Some?)
  }

  ghost predicate AllConsistent(es: seq<Endpoint>, maxFailures: int) {
    forall i :: 0 <= i < |es| ==> Consistent(es[i], maxFailures)
  }

  /** Everything another request may do to the pool. */
  datatype Event =
    | OtherPick(now: int)
    | OtherFailure(index: nat, now: int, blacklistNow: bool)
    | OtherSuccess(index: nat)

  function AfterEvent(es: seq<Endpoint>, c: Config, ev: Event): (r: seq<Endpoint>)
    requires |c.weights| == |es| && es != []
    ensures |r| == |es|
  {
    match ev
    case OtherPick(now) => Picked(es, c, now).1
    case OtherFailure(i, now, blacklistNow) =>
      if i < |es| then es[i := Failed(es[i], now, blacklistNow, c.maxFailures)] else es
    case OtherSuccess(i) => if i < |es| then es[i := Succeeded(es[i])] else es
  }

  function AfterEvents(es: seq<Endpoint>, c: Config, evs: seq<Event>): (r: seq<Endpoint>)
    requires |c.weights| == |es| && es != []
    ensures |r| == |es|
  {
    if evs == [] then es
    else AfterEvent(AfterEvents(es, c, evs[..|evs| - 1]), c, evs[|evs| - 1])
  }

  lemma EventsStep(es: seq<Endpoint>, c: Config, evs: seq<Event>, i: nat)
    requires |c.weights| == |es| && es != [] && i < |evs|
    ensures AfterEvents(es, c, evs[..i + 1]) == AfterEvent(AfterEvents(es, c, evs[..i]), c, evs[i])
  {
    assert evs[..i + 1][..i] == evs[..i];
  }

  /** Picks, failures and successes all keep the pool consistent, as long as one failure is allowed at all. */
  lemma EventKeepsConsistent(es: seq<Endpoint>, c: Config, ev: Event)
    requires |c.weights| == |es| && es != []
    requires c.maxFailures >= 1 && AllConsistent(es, c.maxFailures)
    ensures AllConsistent(AfterEvent(es, c, ev), c.maxFailures)
  {
    hide RR.Best, RR.Raised, RR.Scores;
  }

  /** A pool just built is consistent unless no failure is allowed at all. */
  lemma FreshConsistent(n: nat, maxFailures: int)
    ensures AllConsistent(AllFresh(n), maxFailures) <==> n == 0 || maxFailures >= 1
  {
    if n > 0 {
      assert AllFresh(n)[0] == FRESH;
    }
  }

  lemma {:induction false} EventsKeepConsistent(es: seq<Endpoint>, c: Config, evs: seq<Event>)
    requires |c.weights| == |es| && es != []
    requires c.maxFailures >= 1 && AllConsistent(es, c.maxFailures)
    ensures AllConsistent(AfterEvents(es, c, evs), c.maxFailures)
  {
    if evs != [] {
      var front := evs[..|evs| - 1];
      EventsKeepConsistent(es, c, front);
      EventKeepsConsistent(AfterEvents(es, c, front), c, evs[|evs| - 1]);
    }
  }

  // ----- picks while nothing else happens -------------------------------------

  /** No blacklisting runs out at `now`, and something is open. */
  ghost predicate Steady(es: seq<Endpoint>, now: int, duration: int) {
    true in Open(es) && forall i :: 0 <= i < |es| ==> !Expired(es[i], now, duration)
  }

  lemma SteadyAvailable(es: seq<Endpoint>, now: int, duration: int)
    requires Steady(es, now, duration)
    ensures Available(es, now, duration) == es
  {
    assert ClearExpired(es, now, duration) == es;
  }

  lemma ScoresLeaveTheRest(es: seq<Endpoint>, scores: seq<int>)
    requires |es| == |scores|
    ensures Open(WithScores(es, scores)) == Open(es) && ScoresOf(WithScores(es, scores)) == scores
  {
  }

  /**
   * As long as the same endpoints are open, a pool that starts with zero scores
   * picks like the wheel whose shares are exact: pick by pick the same endpoint,
   * and the same scores.
   */
  lemma {:induction false} PicksFollowTheWheel(es: seq<Endpoint>, c: Config, nows: seq<int>, now: int)
    requires |c.weights| == |es| && es != []
    requires Steady(es, now, c.duration) && forall k :: 0 <= k < |nows| ==> Steady(es, nows[k], c.duration)
    ensures var after := AfterEvents(es, c, Picks(nows));
      ScoresOf(es) == RR.ZeroScores(|es|) ==>
      && after == WithScores(es, RR.ScoresAt(c.weights, Open(es), |nows|))
      && Picked(after, c, now).0 == RR.PickAt(c.weights, Open(es), |nows|)
  {
    hide RR.Best, RR.Raised, RR.Scores, Available, WithScores, Open, ScoresOf, Expired;
    if ScoresOf(es) != RR.ZeroScores(|es|) { return; }
    var n := |nows|;
    var after := WithScores(es, RR.ScoresAt(c.weights, Open(es), n));
    if n == 0 {
      assert WithScores(es, RR.ZeroScores(|es|)) == es;
    } else {
      PicksFollowTheWheel(es, c, nows[..n - 1], nows[n - 1]);
      assert Picks(nows)[..n - 1] == Picks(nows[..n - 1]);
      PickTurnsTheWheel(es, c, nows[n - 1], n - 1);
    }
    PickTurnsTheWheel(es, c, now, n);
  }

  lemma PickTurnsTheWheel(es: seq<Endpoint>, c: Config, now: int, t: nat)
    requires |c.weights| == |es| && es != [] && Steady(es, now, c.duration)
    ensures var before := WithScores(es, RR.ScoresAt(c.weights, Open(es), t));
      && Picked(before, c, now).0 == RR.PickAt(c.weights, Open(es), t)
      && Picked(before, c, now).1 == WithScores(es, RR.ScoresAt(c.weights, Open(es), t + 1))
  {
    hide RR.Best, RR.Raised, RR.Scores, Available, Open, ScoresOf, WithScores;
    var before := WithScores(es, RR.ScoresAt(c.weights, Open(es), t));
    ScoresLeaveTheRest(es, RR.ScoresAt(c.weights, Open(es), t));
    assert Steady(before, now, c.duration);
    SteadyAvailable(before, now, c.duration);
    assert WithScores(before, RR.ScoresAt(c.weights, Open(es), t + 1)) == WithScores(es, RR.ScoresAt(c.weights, Open(es), t + 1));
  }

  function Picks(nows: seq<int>): (evs: seq<Event>)
    ensures |evs| == |nows| && forall k :: 0 <= k < |nows| ==> evs[k] == OtherPick(nows[k])
  {
    seq(|nows|, k requires 0 <= k < |nows| => OtherPick(nows[k]))
  }

  // ----- one request ----------------------------------------------------------

  /** How an attempt ends; `missing` is the reply naming an unknown block or chunk. */
  datatype Outcome =
    | Served
    | Refused(missing: bool, blacklistNow: bool)
    | Threw(blacklistNow: bool)

  predicate ReportsMissing(o: Outcome) {
    o.Refused? && o.missing
  }

  /** What the world does around one attempt. */
  datatype Attempt = Attempt(before: seq<Event>, pickedAt: int, during: seq<Event>, settledAt: int, outcome: Outcome)

  datatype LogEntry = LogEntry(url: string, outcome: Outcome)

  datatype Reply = Response | Exhausted(unknown: set<string>, contactedCount: nat)

  function Settled(e: Endpoint, a: Attempt, maxFailures: int): Endpoint {
    match a.outcome
    case Served => Succeeded(e)
    case Refused(_, blacklistNow) => Failed(e, a.settledAt, blacklistNow, maxFailures)
    case Threw(blacklistNow) => Failed(e, a.settledAt, blacklistNow, maxFailures)
  }

  /** The endpoint an attempt goes to, and the pool after the attempt. */
  function AfterAttempt(es: seq<Endpoint>, c: Config, a: Attempt): (r: (nat, seq<Endpoint>))
    requires |c.weights| == |es| && es != []
    ensures r.0 < |es| && |r.1| == |es|
  {
    var (p, picked) := Picked(AfterEvents(es, c, a.before), c, a.pickedAt);
    var during := AfterEvents(picked, c, a.during);
    (p, during[p := Settled(during[p], a, c.maxFailures)])
  }

  /** A whole request: its attempts up to the first one served, and the pool after it. */
  function Requested(es: seq<Endpoint>, c: Config, script: seq<Attempt>): (r: (seq<LogEntry>, seq<Endpoint>))
    requires |c.weights| == |es| == |c.urls| && es != []
    ensures |r.1| == |es|
    decreases |script|
  {
    if script == [] then ([], es)
    else
      var (p, after) := AfterAttempt(es, c, script[0]);
      var entry := LogEntry(c.urls[p], script[0].outcome);
      if script[0].outcome.Served? then ([entry], after)
      else
        var (log, end) := Requested(after, c, script[1..]);
        ([entry] + log, end)
  }

  /** The log follows the script and stops at the first attempt served. */
  lemma {:induction false} LogShape(es: seq<Endpoint>, c: Config, script: seq<Attempt>)
    requires |c.weights| == |es| == |c.urls| && es != []
    ensures var log := Requested(es, c, script).0;
      && |log| <= |script|
      && (forall k :: 0 <= k < |log| ==> log[k].outcome == script[k].outcome && log[k].url in c.urls)
      && (forall k :: 0 <= k < |log| - 1 ==> !log[k].outcome.Served?)
      && (|log| < |script| ==> log != [] && log[|log| - 1].outcome.Served?)
    decreases |script|
  {
    hide AfterAttempt;
    if script != [] && !script[0].outcome.Served? {
      var (p, after) := AfterAttempt(es, c, script[0]);
      var rest := Requested(after, c, script[1..]).0;
      LogShape(after, c, script[1..]);
      assert Requested(es, c, script).0 == [LogEntry(c.urls[p], script[0].outcome)] + rest;
    }
  }

  function Contacted(log: seq<LogEntry>): set<string> {
    set k | 0 <= k < |log| :: log[k].url
  }

  function Unknown(log: seq<LogEntry>): set<string> {
    set k | 0 <= k < |log| && ReportsMissing(log[k].outcome) :: log[k].url
  }

  function ReplyOf(log: seq<LogEntry>): Reply {
    if log != [] && log[|log| - 1].outcome.Served? then Response
    else Exhausted(Unknown(log), |Contacted(log)|)
  }

  // ----- the verdict ----------------------------------------------------------

  predicate IsReportedMissingEverywhere(r: Reply) {
    r.Exhausted? && |r.unknown| >= 2 && |r.unknown| >= r.contactedCount - 1
  }

  ghost predicate ReportedMissing(log: seq<LogEntry>, url: string) {
    exists k :: 0 <= k < |log| && log[k].url == url && ReportsMissing(log[k].outcome)
  }

  /** Asked at least once, and never said that the height is missing. */
  ghost predicate NeverReported(log: seq<LogEntry>, url: string) {
    && (exists k :: 0 <= k < |log| && log[k].url == url)
    && !ReportedMissing(log, url)
  }

  ghost predicate TwoReported(log: seq<LogEntry>) {
    exists u, v :: u != v && ReportedMissing(log, u) && ReportedMissing(log, v)
  }

  ghost predicate AtMostOneOutlier(log: seq<LogEntry>) {
    forall u, v :: NeverReported(log, u) && NeverReported(log, v) ==> u == v
  }

  lemma AtMostOne(s: set<string>)
    ensures |s| <= 1 <==> forall x, y :: x in s && y in s ==> x == y
  {
    if s != {} {
      var x :| x in s;
      assert |s - {x}| == |s| - 1;
      if s - {x} == {} {
        assert s == {x};
      }
    }
  }

  /**
   * A request is judged to be about something missing exactly when no attempt
   * was served, two different endpoints reported it missing, and at most one
   * endpoint that was asked never did.
   */
  lemma VerdictEvidence(es: seq<Endpoint>, c: Config, script: seq<Attempt>)
    requires |c.weights| == |es| == |c.urls| && es != []
    ensures var log := Requested(es, c, script).0;
      IsReportedMissingEverywhere(ReplyOf(log)) <==>
        && |log| == |script|
        && (forall k :: 0 <= k < |log| ==> !log[k].outcome.Served?)
        && TwoReported(log)
        && AtMostOneOutlier(log)
  {
    hide AfterAttempt, Requested;
    LogShape(es, c, script);
    var log := Requested(es, c, script).0;
    if |log| == |script| && forall k :: 0 <= k < |log| ==> !log[k].outcome.Served? {
      Evidence(log);
    }
  }

  lemma Evidence(log: seq<LogEntry>)
    ensures |Unknown(log)| >= 2 && |Unknown(log)| >= |Contacted(log)| - 1 <==> TwoReported(log) && AtMostOneOutlier(log)
  {
    var unknown, contacted := Unknown(log), Contacted(log);
    assert forall u :: u in unknown <==> ReportedMissing(log, u);
    assert forall u :: u in contacted - unknown <==> NeverReported(log, u);
    assert unknown <= contacted;
    assert |contacted - unknown| == |contacted| - |unknown|;
    AtMostOne(contacted - unknown);
    AtMostOne(unknown);
    assert TwoReported(log) <==> exists u, v :: u in unknown && v in unknown && u != v;
    assert AtMostOneOutlier(log) <==> forall u, v :: u in contacted - unknown && v in contacted - unknown ==> u == v;
  }

  /** The pool is as consistent after a request as before, whatever happened meanwhile. */
  lemma {:induction false} RequestKeepsConsistent(es: seq<Endpoint>, c: Config, script: seq<Attempt>)
    requires |c.weights| == |es| == |c.urls| && es != []
    requires c.maxFailures >= 1 && AllConsistent(es, c.maxFailures)
    ensures AllConsistent(Requested(es, c, script).1, c.maxFailures)
    decreases |script|
  {
    hide Picked, AfterEvents;
    if script != [] {
      var a := script[0];
      EventsKeepConsistent(es, c, a.before);
      var before := AfterEvents(es, c, a.before);
      EventKeepsConsistent(before, c, OtherPick(a.pickedAt));
      EventsKeepConsistent(Picked(before, c, a.pickedAt).1, c, a.during);
      var after := AfterAttempt(es, c, a).1;
      assert AllConsistent(after, c.maxFailures);
      RequestKeepsConsistent(after, c, script[1..]);
    }
  }
}
