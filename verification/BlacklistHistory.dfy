/**
 * When an endpoint is blacklisted, told by its history: the failures since it was
 * last served, lifted or forgotten. The pool's records always show that history.
 */
module BlacklistHistory {
  import opened Options
  import opened RpcPool
  import RR = SmoothRoundRobin

  /** A failure, and whether it was of a kind that blacklists at once. */
  datatype Failure = Failure(at: int, atOnce: bool)

  /** The failures of an endpoint since its slate was last wiped. */
  type Slate = seq<Failure>

  /** Enough failures, or one that is enough. */
  predicate Listed(slate: Slate, maxFailures: int) {
    slate != [] && (|slate| >= maxFailures || exists k :: 0 <= k < |slate| && slate[k].atOnce)
  }

  /** More than the duration has passed since the last failure; a time of zero is never over. */
  predicate TimeIsUp(slate: Slate, now: int, duration: int) {
    slate != [] && slate[|slate| - 1].at != 0 && now - slate[|slate| - 1].at > duration
  }

  predicate StaysListed(slate: Slate, c: Config, now: int) {
    Listed(slate, c.maxFailures) && !TimeIsUp(slate, now, c.duration)
  }

  /** A pick that finds nobody open, even after lifting, forgets everything. */
  predicate NobodyOpen(slates: seq<Slate>, c: Config, now: int) {
    forall i :: 0 <= i < |slates| ==> StaysListed(slates[i], c, now)
  }

  function Lifted(slate: Slate, c: Config, now: int): Slate {
    if Listed(slate, c.maxFailures) && !StaysListed(slate, c, now) then [] else slate
  }

  function AfterPick(slates: seq<Slate>, c: Config, now: int): (r: seq<Slate>)
    ensures |r| == |slates|
  {
    seq(|slates|, i requires 0 <= i < |slates| => if NobodyOpen(slates, c, now) then [] else Lifted(slates[i], c, now))
  }

  function NextSlates(slates: seq<Slate>, c: Config, ev: Event): (r: seq<Slate>)
    ensures |r| == |slates|
  {
    match ev
    case OtherPick(now) => AfterPick(slates, c, now)
    case OtherFailure(i, now, atOnce) => if i < |slates| then slates[i := slates[i] + [Failure(now, atOnce)]] else slates
    case OtherSuccess(i) => if i < |slates| then slates[i := []] else slates
  }

  /** The slates of a new pool of `n` endpoints after some events. */
  function Slates(n: nat, c: Config, evs: seq<Event>): (r: seq<Slate>)
    ensures |r| == n
  {
    if evs == [] then seq(n, _ => []) else NextSlates(Slates(n, c, evs[..|evs| - 1]), c, evs[|evs| - 1])
  }

  ghost predicate Shows(e: Endpoint, slate: Slate, maxFailures: int) {
    && e.failures == |slate|
    && e.blacklisted == Listed(slate, maxFailures)
    && e.lastFailure == (if slate == [] then None else Some(slate[|slate| - 1].at))
  }

  ghost predicate AllShow(es: seq<Endpoint>, slates: seq<Slate>, maxFailures: int) {
    |es| == |slates| && forall i :: 0 <= i < |es| ==> Shows(es[i], slates[i], maxFailures)
  }

  lemma ListedOneMore(slate: Slate, f: Failure, maxFailures: int)
    ensures Listed(slate + [f], maxFailures) <==> Listed(slate, maxFailures) || f.atOnce || |slate| + 1 >= maxFailures
  {
    var longer := slate + [f];
    assert longer[|slate|] == f;
    if k :| 0 <= k < |slate| && slate[k].atOnce { assert longer[k].atOnce; }
  }

  lemma FailureShows(e: Endpoint, slate: Slate, now: int, atOnce: bool, maxFailures: int)
    requires Shows(e, slate, maxFailures)
    ensures Shows(Failed(e, now, atOnce, maxFailures), slate + [Failure(now, atOnce)], maxFailures)
  {
    ListedOneMore(slate, Failure(now, atOnce), maxFailures);
    hide Listed;
  }

  lemma LiftShows(e: Endpoint, slate: Slate, c: Config, now: int)
    requires Shows(e, slate, c.maxFailures)
    ensures Shows(Cleared(e, now, c.duration), Lifted(slate, c, now), c.maxFailures)
    ensures Cleared(e, now, c.duration).blacklisted <==> StaysListed(slate, c, now)
  {
  }

  lemma ClearedShow(es: seq<Endpoint>, slates: seq<Slate>, c: Config, now: int)
    requires AllShow(es, slates, c.maxFailures)
    ensures var cleared := ClearExpired(es, now, c.duration);
      && (forall i :: 0 <= i < |es| ==> Shows(cleared[i], Lifted(slates[i], c, now), c.maxFailures))
      && (forall i :: 0 <= i < |es| ==> (cleared[i].blacklisted <==> StaysListed(slates[i], c, now)))
      && (true in Open(cleared) <==> !NobodyOpen(slates, c, now))
  {
    var cleared := ClearExpired(es, now, c.duration);
    forall i | 0 <= i < |es|
      ensures Shows(cleared[i], Lifted(slates[i], c, now), c.maxFailures) && (cleared[i].blacklisted <==> StaysListed(slates[i], c, now))
    {
      LiftShows(es[i], slates[i], c, now);
    }
    hide StaysListed, Lifted, Shows, ClearExpired, Cleared;
    if i :| 0 <= i < |slates| && !StaysListed(slates[i], c, now) {
      assert Open(cleared)[i];
    }
  }

  lemma AvailableShow(es: seq<Endpoint>, slates: seq<Slate>, c: Config, now: int)
    requires AllShow(es, slates, c.maxFailures)
    ensures AllShow(Available(es, now, c.duration), AfterPick(slates, c, now), c.maxFailures)
    ensures NobodyOpen(slates, c, now) || Available(es, now, c.duration) == ClearExpired(es, now, c.duration)
  {
    ClearedShow(es, slates, c, now);
    FreshShows(c.maxFailures);
    hide StaysListed, Lifted, Shows, ClearExpired, Open, NobodyOpen;
  }

  lemma ScoresDoNotShow(es: seq<Endpoint>, scores: seq<int>, slates: seq<Slate>, maxFailures: int)
    requires |es| == |scores| && AllShow(es, slates, maxFailures)
    ensures AllShow(WithScores(es, scores), slates, maxFailures)
  {
    hide Listed;
    forall i | 0 <= i < |es| ensures Shows(WithScores(es, scores)[i], slates[i], maxFailures) {
      assert Shows(es[i], slates[i], maxFailures);
    }
  }

  lemma PickShows(es: seq<Endpoint>, slates: seq<Slate>, c: Config, now: int)
    requires AllShow(es, slates, c.maxFailures) && |c.weights| == |es| && es != []
    ensures AllShow(Picked(es, c, now).1, AfterPick(slates, c, now), c.maxFailures)
    ensures var p := Picked(es, c, now).0;
      NobodyOpen(slates, c, now) || !StaysListed(slates[p], c, now)
  {
    AvailableShow(es, slates, c, now);
    ClearedShow(es, slates, c, now);
    hide AllShow, AfterPick, NobodyOpen, StaysListed, Lifted, Shows, RR.Best, RR.Raised, RR.Scores, Available, ClearExpired, WithScores, ScoresOf;
    var available := Available(es, now, c.duration);
    var open := Open(available);
    ScoresDoNotShow(available, RR.Scores(c.weights, ScoresOf(available), open), AfterPick(slates, c, now), c.maxFailures);
    assert !available[Picked(es, c, now).0].blacklisted;
  }

  lemma FreshShows(maxFailures: int)
    ensures Shows(FRESH, [], maxFailures)
  {
  }

  /** The pool's records show the failures since the last served, lifted or forgotten, whatever happened. */
  lemma {:induction false} PoolShowsHistory(n: nat, c: Config, evs: seq<Event>)
    requires n == |c.weights| > 0
    ensures AllShow(AfterEvents(AllFresh(n), c, evs), Slates(n, c, evs), c.maxFailures)
  {
    if evs == [] {
      FreshShows(c.maxFailures);
      hide Shows;
    } else {
      var front, ev := evs[..|evs| - 1], evs[|evs| - 1];
      PoolShowsHistory(n, c, front);
      var es, slates := AfterEvents(AllFresh(n), c, front), Slates(n, c, front);
      EventShows(es, slates, c, ev);
      hide AllShow, AfterEvent, NextSlates;
    }
  }

  lemma EventShows(es: seq<Endpoint>, slates: seq<Slate>, c: Config, ev: Event)
    requires AllShow(es, slates, c.maxFailures) && |c.weights| == |es| && es != []
    ensures AllShow(AfterEvent(es, c, ev), NextSlates(slates, c, ev), c.maxFailures)
  {
    hide Picked, AfterPick, Failed;
    match ev
    case OtherPick(now) => PickShows(es, slates, c, now);
    case OtherFailure(i, now, atOnce) => if i < |es| { FailureShows(es[i], slates[i], now, atOnce, c.maxFailures); }
    case OtherSuccess(i) =>
  }

  /** The records after some events, and after one more. */
  lemma ShowsBoth(n: nat, c: Config, evs: seq<Event>, ev: Event, i: nat)
    requires n == |c.weights| > 0 && i < n
    ensures var slates := Slates(n, c, evs);
      && (AfterEvents(AllFresh(n), c, evs)[i].blacklisted <==> Listed(slates[i], c.maxFailures))
      && (AfterEvents(AllFresh(n), c, evs + [ev])[i].blacklisted <==> Listed(NextSlates(slates, c, ev)[i], c.maxFailures))
  {
    assert (evs + [ev])[..|evs|] == evs;
    PoolShowsHistory(n, c, evs);
    PoolShowsHistory(n, c, evs + [ev]);
    hide AfterEvents, NextSlates, Listed;
  }

  lemma NextListed(slates: seq<Slate>, c: Config, ev: Event, i: nat)
    requires i < |slates|
    ensures Listed(NextSlates(slates, c, ev)[i], c.maxFailures) <==>
      match ev
      case OtherFailure(j, _, atOnce) => Listed(slates[i], c.maxFailures) || (j == i && (atOnce || |slates[i]| + 1 >= c.maxFailures))
      case OtherSuccess(j) => Listed(slates[i], c.maxFailures) && j != i
      case OtherPick(now) => StaysListed(slates[i], c, now) && !NobodyOpen(slates, c, now)
  {
    if ev.OtherFailure? && ev.index == i {
      ListedOneMore(slates[i], Failure(ev.now, ev.blacklistNow), c.maxFailures);
    }
    hide NobodyOpen;
  }

  /**
   * An open endpoint becomes blacklisted exactly by a failure of the kind that does
   * so at once, or by the last failure that is allowed since its slate was wiped.
   */
  lemma BlacklistedExactly(n: nat, c: Config, evs: seq<Event>, ev: Event, i: nat)
    requires n == |c.weights| > 0 && i < n
    ensures var before, after := AfterEvents(AllFresh(n), c, evs)[i], AfterEvents(AllFresh(n), c, evs + [ev])[i];
      !before.blacklisted ==>
        (after.blacklisted <==> ev.OtherFailure? && ev.index == i && (ev.blacklistNow || |Slates(n, c, evs)[i]| + 1 >= c.maxFailures))
  {
    ShowsBoth(n, c, evs, ev, i);
    NextListed(Slates(n, c, evs), c, ev, i);
    hide AfterEvents, NextSlates, Listed, NobodyOpen;
  }

  /**
   * A blacklisted endpoint is open again exactly when it is served, or at a pick when
   * more than the duration has passed since its last failure or when nobody is open.
   */
  lemma LiftedExactly(n: nat, c: Config, evs: seq<Event>, ev: Event, i: nat)
    requires n == |c.weights| > 0 && i < n
    ensures var before, after := AfterEvents(AllFresh(n), c, evs)[i], AfterEvents(AllFresh(n), c, evs + [ev])[i];
      var slates := Slates(n, c, evs);
      before.blacklisted ==>
        (!after.blacklisted <==>
          || (ev.OtherSuccess? && ev.index == i)
          || (ev.OtherPick? && (TimeIsUp(slates[i], ev.now, c.duration) || NobodyOpen(slates, c, ev.now))))
  {
    ShowsBoth(n, c, evs, ev, i);
    NextListed(Slates(n, c, evs), c, ev, i);
    hide AfterEvents, NextSlates, Listed, NobodyOpen;
  }

  /** Until then it is not picked. */
  lemma StaysOut(n: nat, c: Config, evs: seq<Event>, now: int, i: nat)
    requires n == |c.weights| > 0 && i < n
    ensures var es := AfterEvents(AllFresh(n), c, evs);
      es[i].blacklisted && Picked(es, c, now).0 == i ==>
        TimeIsUp(Slates(n, c, evs)[i], now, c.duration) || NobodyOpen(Slates(n, c, evs), c, now)
  {
    PoolShowsHistory(n, c, evs);
    PickShows(AfterEvents(AllFresh(n), c, evs), Slates(n, c, evs), c, now);
  }

  // ----- a request is a list of such events -----------------------------------

  function SettleEvent(p: nat, a: Attempt): Event {
    match a.outcome
    case Served => OtherSuccess(p)
    case Refused(_, blacklistNow) => OtherFailure(p, a.settledAt, blacklistNow)
    case Threw(blacklistNow) => OtherFailure(p, a.settledAt, blacklistNow)
  }

  /** Everything that happens to the pool while a request is made, in order. */
  function EventsOf(es: seq<Endpoint>, c: Config, script: seq<Attempt>): seq<Event>
    requires |c.weights| == |es| && es != []
    decreases |script|
  {
    if script == [] then []
    else
      var a := script[0];
      var p := Picked(AfterEvents(es, c, a.before), c, a.pickedAt).0;
      var now := ((a.before + [OtherPick(a.pickedAt)]) + a.during) + [SettleEvent(p, a)];
      if a.outcome.Served? then now else now + EventsOf(AfterEvents(es, c, now), c, script[1..])
  }

  lemma {:induction false} EventsAppend(es: seq<Endpoint>, c: Config, a: seq<Event>, b: seq<Event>)
    requires |c.weights| == |es| && es != []
    ensures AfterEvents(es, c, a + b) == AfterEvents(AfterEvents(es, c, a), c, b)
    decreases |b|
  {
    hide AfterEvent;
    if b == [] {
      assert a + b == a;
    } else {
      var n := |b| - 1;
      assert (a + b)[..|a + b| - 1] == a + b[..n];
      EventsAppend(es, c, a, b[..n]);
    }
  }

  lemma OneEvent(es: seq<Endpoint>, c: Config, ev: Event)
    requires |c.weights| == |es| && es != []
    ensures AfterEvents(es, c, [ev]) == AfterEvent(es, c, ev)
  {
    assert AfterEvents(es, c, [ev][..0]) == es;
  }

  lemma AttemptIsEvents(es: seq<Endpoint>, c: Config, a: Attempt)
    requires |c.weights| == |es| && es != []
    ensures var p := Picked(AfterEvents(es, c, a.before), c, a.pickedAt).0;
      AfterAttempt(es, c, a) == (p, AfterEvents(es, c, ((a.before + [OtherPick(a.pickedAt)]) + a.during) + [SettleEvent(p, a)]))
  {
    hide Picked, AfterEvents;
    var before := AfterEvents(es, c, a.before);
    var p := Picked(before, c, a.pickedAt).0;
    var picked := Picked(before, c, a.pickedAt).1;
    EventsAppend(es, c, a.before, [OtherPick(a.pickedAt)]);
    OneEvent(before, c, OtherPick(a.pickedAt));
    EventsAppend(es, c, a.before + [OtherPick(a.pickedAt)], a.during);
    EventsAppend(es, c, (a.before + [OtherPick(a.pickedAt)]) + a.during, [SettleEvent(p, a)]);
    OneEvent(AfterEvents(picked, c, a.during), c, SettleEvent(p, a));
  }

  /** So what holds after events holds after requests, whatever they run into. */
  lemma {:induction false} RequestIsEvents(es: seq<Endpoint>, c: Config, script: seq<Attempt>)
    requires |c.weights| == |es| == |c.urls| && es != []
    ensures Requested(es, c, script).1 == AfterEvents(es, c, EventsOf(es, c, script))
    decreases |script|
  {
    if script != [] {
      var a := script[0];
      AttemptIsEvents(es, c, a);
      hide Picked, AfterEvents, AfterAttempt;
      if !a.outcome.Served? {
        var after := AfterAttempt(es, c, a).1;
        RequestIsEvents(after, c, script[1..]);
        var p := Picked(AfterEvents(es, c, a.before), c, a.pickedAt).0;
        EventsAppend(es, c, ((a.before + [OtherPick(a.pickedAt)]) + a.during) + [SettleEvent(p, a)], EventsOf(after, c, script[1..]));
      }
    }
  }

  /**
   * Every entry of a request's log names the endpoint that was picked for that attempt,
   * in the pool as everything before had left it.
   */
  lemma {:induction false} LogTellsWhere(es: seq<Endpoint>, c: Config, script: seq<Attempt>, k: nat)
    requires |c.weights| == |es| == |c.urls| && es != []
    requires k < |script|
    ensures var before := AfterEvents(es, c, EventsOf(es, c, script[..k]) + script[k].before);
      k < |Requested(es, c, script).0| ==>
        Requested(es, c, script).0[k] == LogEntry(c.urls[Picked(before, c, script[k].pickedAt).0], script[k].outcome)
    decreases k
  {
    hide *;
    var a := script[0];
    if k == 0 {
      LogHead(es, c, script);
    } else if k < |Requested(es, c, script).0| {
      var after := AfterAttempt(es, c, a).1;
      LogTail(es, c, script, k);
      EventsTail(es, c, script[..k]);
      assert script[..k][1..] == script[1..][..k - 1];
      LogTellsWhere(after, c, script[1..], k - 1);
      var now, rest := AttemptEvents(es, c, a), EventsOf(after, c, script[1..][..k - 1]);
      assert (now + rest) + script[k].before == now + (rest + script[k].before);
      EventsAppend(es, c, now, rest + script[k].before);
    }
  }

  /** What happens around one attempt. */
  function AttemptEvents(es: seq<Endpoint>, c: Config, a: Attempt): seq<Event>
    requires |c.weights| == |es| && es != []
  {
    var p := Picked(AfterEvents(es, c, a.before), c, a.pickedAt).0;
    ((a.before + [OtherPick(a.pickedAt)]) + a.during) + [SettleEvent(p, a)]
  }

  lemma LogHead(es: seq<Endpoint>, c: Config, script: seq<Attempt>)
    requires |c.weights| == |es| == |c.urls| && es != [] && script != []
    ensures |Requested(es, c, script).0| > 0
    ensures Requested(es, c, script).0[0] == LogEntry(c.urls[Picked(AfterEvents(es, c, EventsOf(es, c, script[..0]) + script[0].before), c, script[0].pickedAt).0], script[0].outcome)
  {
    hide Picked, AfterEvents;
    assert EventsOf(es, c, script[..0]) + script[0].before == script[0].before;
  }

  lemma LogTail(es: seq<Endpoint>, c: Config, script: seq<Attempt>, k: nat)
    requires |c.weights| == |es| == |c.urls| && es != []
    requires script != [] && k > 0
    ensures k < |Requested(es, c, script).0| ==>
      !script[0].outcome.Served? &&
      var after := AfterAttempt(es, c, script[0]).1;
      k - 1 < |Requested(after, c, script[1..]).0| && Requested(es, c, script).0[k] == Requested(after, c, script[1..]).0[k - 1]
  {
    hide AfterAttempt;
  }

  lemma EventsTail(es: seq<Endpoint>, c: Config, script: seq<Attempt>)
    requires |c.weights| == |es| && es != [] && script != [] && !script[0].outcome.Served?
    ensures var now := AttemptEvents(es, c, script[0]);
      && EventsOf(es, c, script) == now + EventsOf(AfterAttempt(es, c, script[0]).1, c, script[1..])
      && AfterEvents(es, c, now) == AfterAttempt(es, c, script[0]).1
  {
    AttemptIsEvents(es, c, script[0]);
    hide Picked, AfterEvents, AfterAttempt;
  }

  // ----- the scores -----------------------------------------------------------

  /** Failures and successes leave the scores alone. */
  lemma OnlyPicksScore(es: seq<Endpoint>, c: Config, ev: Event)
    requires |c.weights| == |es| && es != [] && !ev.OtherPick?
    ensures ScoresOf(AfterEvent(es, c, ev)) == ScoresOf(es)
  {
    hide Picked, ScoresOf, Failed, Succeeded;
    match ev
    case OtherFailure(i, now, atOnce) =>
      if i < |es| {
        FailedKeepsScore(es[i], now, atOnce, c.maxFailures);
        OneRecord(es, i, Failed(es[i], now, atOnce, c.maxFailures));
      }
    case OtherSuccess(i) =>
      if i < |es| {
        SucceededKeepsScore(es[i]);
        OneRecord(es, i, Succeeded(es[i]));
      }
  }

  lemma FailedKeepsScore(e: Endpoint, now: int, atOnce: bool, maxFailures: int)
    ensures Failed(e, now, atOnce, maxFailures).score == e.score
  {
  }

  lemma SucceededKeepsScore(e: Endpoint)
    ensures Succeeded(e).score == e.score
  {
  }

  lemma OneRecord(es: seq<Endpoint>, i: nat, e: Endpoint)
    requires i < |es| && e.score == es[i].score
    ensures ScoresOf(es[i := e]) == ScoresOf(es)
  {
    hide ScoresOf;
    var after := es[i := e];
    forall j | 0 <= j < |es| ensures ScoresOf(after)[j] == ScoresOf(es)[j] { assert after[j].score == es[j].score; }
  }

  /**
   * A pick turns the wheel among those that are open once the blacklistings that are
   * over are lifted, from the scores they have; if nobody is, among all, from zero.
   */
  lemma PickScores(es: seq<Endpoint>, slates: seq<Slate>, c: Config, now: int)
    requires AllShow(es, slates, c.maxFailures) && |c.weights| == |es| && es != []
    ensures if NobodyOpen(slates, c, now) then
        var all := AllOpen(|es|);
        && Picked(es, c, now).0 == RR.PickAt(c.weights, all, 0)
        && ScoresOf(Picked(es, c, now).1) == RR.ScoresAt(c.weights, all, 1)
      else
        var open := StillOpen(slates, c, now);
        && |open| == |es| && true in open
        && Picked(es, c, now).0 == RR.Best(RR.Raised(c.weights, ScoresOf(es), open), open)
        && ScoresOf(Picked(es, c, now).1) == RR.Scores(c.weights, ScoresOf(es), open)
  {
    hide *;
    if NobodyOpen(slates, c, now) {
      NobodyPicks(es, slates, c, now);
    } else {
      SomebodyPicks(es, slates, c, now);
    }
  }

  lemma NobodyPicks(es: seq<Endpoint>, slates: seq<Slate>, c: Config, now: int)
    requires AllShow(es, slates, c.maxFailures) && |c.weights| == |es| && es != [] && NobodyOpen(slates, c, now)
    ensures Picked(es, c, now).0 == RR.PickAt(c.weights, AllOpen(|es|), 0)
    ensures ScoresOf(Picked(es, c, now).1) == RR.ScoresAt(c.weights, AllOpen(|es|), 1)
  {
    hide *;
    ClearedShow(es, slates, c, now);
    FreshAvailable(es, c, now);
    PickOfAvailable(es, c, now);
    FirstTurn(c.weights, |es|);
  }

  lemma SomebodyPicks(es: seq<Endpoint>, slates: seq<Slate>, c: Config, now: int)
    requires AllShow(es, slates, c.maxFailures) && |c.weights| == |es| && es != [] && !NobodyOpen(slates, c, now)
    ensures |es| == |slates| && true in StillOpen(slates, c, now)
    ensures var open := StillOpen(slates, c, now);
      && Picked(es, c, now).0 == RR.Best(RR.Raised(c.weights, ScoresOf(es), open), open)
      && ScoresOf(Picked(es, c, now).1) == RR.Scores(c.weights, ScoresOf(es), open)
  {
    assert |slates| == |es|;
    OpenIs(es, slates, c, now);
    hide *;
    PickOfAvailable(es, c, now);
  }

  lemma OpenIs(es: seq<Endpoint>, slates: seq<Slate>, c: Config, now: int)
    requires AllShow(es, slates, c.maxFailures) && !NobodyOpen(slates, c, now)
    ensures true in StillOpen(slates, c, now)
    ensures Open(Available(es, now, c.duration)) == StillOpen(slates, c, now)
    ensures ScoresOf(Available(es, now, c.duration)) == ScoresOf(es)
  {
    assert |slates| == |es|;
    hide *;
    ClearedShow(es, slates, c, now);
    AvailableShow(es, slates, c, now);
    ClearedScores(es, now, c.duration);
    var cleared := ClearExpired(es, now, c.duration);
    assert Open(cleared) == StillOpen(slates, c, now);
  }

  /** Who is open once the blacklistings that are over have been lifted. */
  function StillOpen(slates: seq<Slate>, c: Config, now: int): (open: seq<bool>)
    ensures |open| == |slates| && forall i :: 0 <= i < |slates| ==> open[i] == !StaysListed(slates[i], c, now)
  {
    seq(|slates|, i requires 0 <= i < |slates| => !StaysListed(slates[i], c, now))
  }

  lemma FirstTurn(weights: seq<nat>, n: nat)
    requires |weights| == n > 0
    ensures RR.PickAt(weights, AllOpen(n), 0) == RR.Best(RR.Raised(weights, RR.ZeroScores(n), AllOpen(n)), AllOpen(n))
    ensures RR.ScoresAt(weights, AllOpen(n), 1) == RR.Scores(weights, RR.ZeroScores(n), AllOpen(n))
  {
    hide RR.Best, RR.Raised, RR.Scores;
    assert RR.ScoresAt(weights, AllOpen(n), 0) == RR.ZeroScores(n);
  }

  lemma PickOfAvailable(es: seq<Endpoint>, c: Config, now: int)
    requires |c.weights| == |es| && es != []
    ensures var available := Available(es, now, c.duration);
      var open := Open(available);
      && Picked(es, c, now).0 == RR.Best(RR.Raised(c.weights, ScoresOf(available), open), open)
      && ScoresOf(Picked(es, c, now).1) == RR.Scores(c.weights, ScoresOf(available), open)
  {
    hide RR.Best, RR.Raised, RR.Scores, Available, Open;
    var available := Available(es, now, c.duration);
    ScoresLeaveTheRest(available, RR.Scores(c.weights, ScoresOf(available), Open(available)));
    hide ScoresOf, WithScores;
  }

  lemma FreshAvailable(es: seq<Endpoint>, c: Config, now: int)
    requires es != [] && true !in Open(ClearExpired(es, now, c.duration))
    ensures var available := Available(es, now, c.duration);
      Open(available) == AllOpen(|es|) && ScoresOf(available) == RR.ZeroScores(|es|)
  {
    ZerosOfFresh(|es|);
    hide ClearExpired;
    assert Open(AllFresh(|es|)) == AllOpen(|es|);
  }

  lemma ClearedScores(es: seq<Endpoint>, now: int, duration: int)
    ensures ScoresOf(ClearExpired(es, now, duration)) == ScoresOf(es)
  {
  }

  function AllOpen(n: nat): (open: seq<bool>)
    ensures |open| == n && (forall i :: 0 <= i < n ==> open[i]) && (n > 0 ==> true in open)
  {
    var open := seq(n, _ => true);
    assert n > 0 ==> open[0];
    open
  }

  lemma ZerosOfFresh(n: nat)
    ensures ScoresOf(AllFresh(n)) == RR.ZeroScores(n)
  {
  }
}
