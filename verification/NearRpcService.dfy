/**
 * The RPC service as it is written: endpoint records updated in place and
 * shared by all requests, a retry loop that gathers evidence, and a slot
 * counter that spaces requests out.
 */
module NearRpcService {
  import opened Options
  import opened RpcPool
  import RequestSlots
  import RR = SmoothRoundRobin

  class RpcEndpoint {
    const url: string
    const weight: nat
    var failures: nat
    var lastFailure: Option<int>
    var isBlacklisted: bool
    var currentWeight: int

    constructor (url: string, weight: nat)
      ensures this.url == url && this.weight == weight && State() == FRESH
    {
      this.url, this.weight := url, weight;
      failures, lastFailure, isBlacklisted, currentWeight := 0, None, false, 0;
    }

    function State(): Endpoint
      reads this
    {
      Endpoint(failures, lastFailure, isBlacklisted, currentWeight)
    }
  }

  class Service {
    const endpoints: seq<RpcEndpoint>
    const blacklistDurationMs: int
    const maxFailures: int
    const requestIntervalMs: real
    var nextRequestSlotMs: real

    constructor (endpoints: seq<RpcEndpoint>, blacklistDurationMs: int, maxFailures: int, requestIntervalMs: real)
      requires endpoints != [] && requestIntervalMs >= 0.0
      requires forall i, j :: 0 <= i < j < |endpoints| ==> endpoints[i] != endpoints[j]
      ensures Valid() && this.endpoints == endpoints && nextRequestSlotMs == 0.0
      ensures this.blacklistDurationMs == blacklistDurationMs && this.maxFailures == maxFailures
      ensures this.requestIntervalMs == requestIntervalMs
    {
      this.endpoints := endpoints;
      this.blacklistDurationMs, this.maxFailures := blacklistDurationMs, maxFailures;
      this.requestIntervalMs, nextRequestSlotMs := requestIntervalMs, 0.0;
    }

    ghost predicate Valid() {
      && endpoints != [] && requestIntervalMs >= 0.0
      && forall i, j :: 0 <= i < j < |endpoints| ==> endpoints[i] != endpoints[j]
    }

    ghost function Settings(): (c: Config)
      ensures |c.urls| == |c.weights| == |endpoints|
      ensures c.duration == blacklistDurationMs && c.maxFailures == maxFailures
      ensures forall i :: 0 <= i < |endpoints| ==> c.weights[i] == endpoints[i].weight && c.urls[i] == endpoints[i].url
    {
      Config(seq(|endpoints|, i requires 0 <= i < |endpoints| => endpoints[i].url),
             seq(|endpoints|, i requires 0 <= i < |endpoints| => endpoints[i].weight),
             blacklistDurationMs, maxFailures)
    }

    /** The records, as a value. */
    ghost function States(): (s: seq<Endpoint>)
      reads endpoints
      ensures |s| == |endpoints|
      ensures forall i :: 0 <= i < |endpoints| ==> s[i] == endpoints[i].State()
    {
      StatesUpTo(|endpoints|)
    }

    ghost function StatesUpTo(n: nat): (s: seq<Endpoint>)
      requires n <= |endpoints|
      reads endpoints
      ensures |s| == n
      ensures forall i :: 0 <= i < n ==> s[i] == endpoints[i].State()
    {
      if n == 0 then [] else StatesUpTo(n - 1) + [endpoints[n - 1].State()]
    }

    method ClearExpiredBlacklists(now: int)
      requires Valid()
      modifies endpoints
      ensures States() == ClearExpired(old(States()), now, blacklistDurationMs)
    {
      for i := 0 to |endpoints|
        invariant forall k :: 0 <= k < i ==> endpoints[k].State() == Cleared(old(endpoints[k].State()), now, blacklistDurationMs)
        invariant forall k :: i <= k < |endpoints| ==> endpoints[k].State() == old(endpoints[k].State())
      {
        var e := endpoints[i];
        if !e.isBlacklisted || e.lastFailure == None || e.lastFailure == Some(0) { continue; }
        if now - e.lastFailure.value > blacklistDurationMs {
          e.isBlacklisted := false;
          e.failures := 0;
          e.lastFailure := None;
        }
      }
    }

    method ResetAllEndpoints()
      requires Valid()
      modifies endpoints
      ensures States() == AllFresh(|endpoints|)
    {
      for i := 0 to |endpoints|
        invariant forall k :: 0 <= k < i ==> endpoints[k].State() == FRESH
      {
        var e := endpoints[i];
        e.failures := 0;
        e.isBlacklisted := false;
        e.lastFailure := None;
        e.currentWeight := 0;
      }
    }

    /** Afterwards the endpoints that may be picked are those not blacklisted; there is one. */
    method GetAvailableEndpoints(now: int)
      requires Valid()
      modifies endpoints
      ensures States() == Available(old(States()), now, blacklistDurationMs)
    {
      hide AllFresh, ClearExpired;
      ClearExpiredBlacklists(now);
      var found := false;
      for i := 0 to |endpoints|
        invariant found <==> exists k :: 0 <= k < i && !endpoints[k].isBlacklisted
      {
        found := found || !endpoints[i].isBlacklisted;
      }
      assert found <==> true in Open(States()) by {
        if found {
          var k :| 0 <= k < |endpoints| && !endpoints[k].isBlacklisted;
          assert Open(States())[k];
        }
      }
      if !found {
        ResetAllEndpoints();
      }
    }

    /** Raises every open score and finds the first highest one, in one scan. */
    method RaiseScores() returns (best: nat, totalWeight: nat)
      requires Valid() && true in Open(States())
      modifies endpoints
      ensures best < |endpoints|
      ensures var before := old(States());
        var open, weights := Open(before), Settings().weights;
        var raised := RR.Raised(weights, ScoresOf(before), open);
        && totalWeight == RR.Total(weights, open)
        && best == RR.Best(raised, open)
        && forall k :: 0 <= k < |endpoints| ==> endpoints[k].State() == before[k].(score := raised[k])
    {
      hide RR.Total, RR.IsBest, RR.Best, RR.Raised, Open, ScoresOf, Settings, States;
      ghost var before := States();
      ghost var weights, scores, open := Settings().weights, ScoresOf(before), Open(before);
      ghost var raised := RR.Raised(weights, scores, open);
      totalWeight := 0;
      NothingYet(weights, open);
      var found: int := -1;
      for i := 0 to |endpoints|
        invariant -1 <= found < i
        invariant forall k :: 0 <= k < i ==> endpoints[k].State() == before[k].(score := raised[k])
        invariant forall k :: i <= k < |endpoints| ==> endpoints[k].State() == before[k]
        invariant totalWeight == RR.Total(weights[..i], open[..i])
        invariant found == -1 ==> forall k :: 0 <= k < i ==> !open[k]
        invariant found != -1 ==> RR.IsBest(raised[..i], open[..i], found)
      {
        RR.ScanStep(weights, raised, open, i, found);
        var e := endpoints[i];
        if e.isBlacklisted { continue; }
        e.currentWeight := e.currentWeight + e.weight;
        totalWeight := totalWeight + e.weight;
        if found == -1 || e.currentWeight > endpoints[found].currentWeight {
          found := i;
        }
      }
      assert weights[..|endpoints|] == weights && open[..|endpoints|] == open && raised[..|endpoints|] == raised;
      assert found != -1 by {
        var k :| 0 <= k < |open| && open[k];
      }
      RR.BestUnique(raised, open, found, RR.Best(raised, open));
      best := found;
    }

    method PickNextEndpoint(now: int) returns (picked: nat)
      requires Valid()
      modifies endpoints
      ensures picked < |endpoints|
      ensures (picked, States()) == Picked(old(States()), Settings(), now)
      ensures !endpoints[picked].isBlacklisted
    {
      hide RR.Total, RR.IsBest, RR.Best, RR.Raised, Available, Open, ScoresOf, WithScores, Settings, States;
      GetAvailableEndpoints(now);
      ghost var before := States();
      ghost var weights, scores, open := Settings().weights, ScoresOf(before), Open(before);
      var totalWeight;
      picked, totalWeight := RaiseScores();
      endpoints[picked].currentWeight := endpoints[picked].currentWeight - totalWeight;
      assert States() == WithScores(before, RR.Scores(weights, scores, open));
    }

    method HandleFailure(index: nat, now: int, blacklistNow: bool)
      requires Valid() && index < |endpoints|
      modifies endpoints
      ensures States() == old(States())[index := Failed(old(States())[index], now, blacklistNow, maxFailures)]
    {
      var e := endpoints[index];
      e.failures := e.failures + 1;
      e.lastFailure := Some(now);
      if blacklistNow || e.failures >= maxFailures {
        e.isBlacklisted := true;
      }
    }

    method MarkServed(index: nat)
      requires Valid() && index < |endpoints|
      modifies endpoints
      ensures States() == old(States())[index := Succeeded(old(States())[index])]
    {
      var e := endpoints[index];
      e.failures := 0;
      e.isBlacklisted := false;
      e.lastFailure := None;
    }

    /** Reserves the next free slot; the caller sleeps until it. An interval of zero means no limit. */
    method AcquireRequestSlot(now: real) returns (slot: real)
      requires Valid()
      modifies this`nextRequestSlotMs
      ensures requestIntervalMs == 0.0 ==> slot == now && nextRequestSlotMs == old(nextRequestSlotMs)
      ensures requestIntervalMs > 0.0 ==>
                && slot == RequestSlots.Later(now, old(nextRequestSlotMs))
                && nextRequestSlotMs == slot + requestIntervalMs
    {
      if requestIntervalMs == 0.0 { return now; }
      slot := RequestSlots.Later(now, nextRequestSlotMs);
      nextRequestSlotMs := slot + requestIntervalMs;
    }

    /** A whole series of callers: the slots they get are those of the spacing theorems. */
    method AcquireAll(nows: seq<real>) returns (slots: seq<real>)
      requires Valid() && requestIntervalMs > 0.0
      modifies this`nextRequestSlotMs
      ensures slots == RequestSlots.Slots(nows, old(nextRequestSlotMs), requestIntervalMs)
    {
      slots := [];
      assert nows[0..] == nows;
      for i := 0 to |nows|
        invariant RequestSlots.Slots(nows, old(nextRequestSlotMs), requestIntervalMs) ==
                  slots + RequestSlots.Slots(nows[i..], nextRequestSlotMs, requestIntervalMs)
      {
        assert nows[i..][1..] == nows[i + 1..];
        var slot := AcquireRequestSlot(nows[i]);
        slots := slots + [slot];
      }
    }

    /** What other requests do to the records while this one waits. */
    method Interfere(events: seq<Event>)
      requires Valid()
      modifies endpoints
      ensures States() == AfterEvents(old(States()), Settings(), events)
    {
      hide Picked, AfterEvents, Settings, States;
      NoEvents(States(), Settings(), events);
      for i := 0 to |events|
        invariant States() == AfterEvents(old(States()), Settings(), events[..i])
      {
        EventsStep(old(States()), Settings(), events, i);
        match events[i] {
          case OtherPick(now) =>
            var _ := PickNextEndpoint(now);
          case OtherFailure(index, now, blacklistNow) =>
            if index < |endpoints| { HandleFailure(index, now, blacklistNow); }
          case OtherSuccess(index) =>
            if index < |endpoints| { MarkServed(index); }
        }
      }
      assert events[..|events|] == events;
    }

    /** One turn of the retry loop: pick, wait, settle. */
    method MakeAttempt(a: Attempt) returns (picked: nat)
      requires Valid()
      modifies endpoints
      ensures (picked, States()) == AfterAttempt(old(States()), Settings(), a)
      ensures picked < |endpoints|
    {
      hide Picked, AfterEvents, Settings, States;
      Interfere(a.before);
      picked := PickNextEndpoint(a.pickedAt);
      Interfere(a.during);
      match a.outcome {
        case Served => MarkServed(picked);
        case Refused(_, blacklistNow) => HandleFailure(picked, a.settledAt, blacklistNow);
        case Threw(blacklistNow) => HandleFailure(picked, a.settledAt, blacklistNow);
      }
    }

    /** The retry loop; the script is one entry for every attempt that is allowed. */
    method Request(script: seq<Attempt>) returns (reply: Reply)
      requires Valid()
      modifies endpoints
      ensures States() == Requested(old(States()), Settings(), script).1
      ensures reply == ReplyOf(Requested(old(States()), Settings(), script).0)
    {
      hide Requested, Contacted, Unknown, AfterAttempt, Settings, States;
      var unknownBlockEndpoints: set<string>, contactedEndpoints: set<string> := {}, {};
      ghost var log: seq<LogEntry> := [];
      ghost var whole := Requested(States(), Settings(), script);
      assert script[0..] == script;
      NothingLogged();
      for attempt := 0 to |script|
        invariant contactedEndpoints == Contacted(log) && unknownBlockEndpoints == Unknown(log)
        invariant log != [] ==> !log[|log| - 1].outcome.Served?
        invariant whole.0 == log + Requested(States(), Settings(), script[attempt..]).0
        invariant whole.1 == Requested(States(), Settings(), script[attempt..]).1
      {
        var a := script[attempt];
        RequestedStep(States(), Settings(), script, attempt);
        var p := MakeAttempt(a);
        ghost var entry := LogEntry(endpoints[p].url, a.outcome);
        LogGrows(log, entry);
        contactedEndpoints := contactedEndpoints + {endpoints[p].url};
        log := log + [entry];
        if ReportsMissing(a.outcome) {
          unknownBlockEndpoints := unknownBlockEndpoints + {endpoints[p].url};
        }
        if a.outcome.Served? {
          assert whole.0 == log;
          return Response;
        }
      }
      RequestedNothing(States(), Settings(), script);
      assert whole.0 == log;
      reply := Exhausted(unknownBlockEndpoints, |contactedEndpoints|);
    }
  }

  lemma NothingYet(weights: seq<nat>, open: seq<bool>)
    requires |weights| == |open|
    ensures RR.Total(weights[..0], open[..0]) == 0
  {
  }

  lemma NoEvents(es: seq<Endpoint>, c: Config, events: seq<Event>)
    requires |c.weights| == |es| && es != []
    ensures AfterEvents(es, c, events[..0]) == es
  {
  }

  lemma NothingLogged()
    ensures Contacted([]) == {} && Unknown([]) == {}
  {
  }

  lemma RequestedNothing(es: seq<Endpoint>, c: Config, script: seq<Attempt>)
    requires |c.weights| == |es| == |c.urls| && es != []
    ensures Requested(es, c, script[|script|..]) == ([], es)
  {
  }

  lemma RequestedStep(es: seq<Endpoint>, c: Config, script: seq<Attempt>, k: nat)
    requires |c.weights| == |es| == |c.urls| && es != [] && k < |script|
    ensures var (p, after) := AfterAttempt(es, c, script[k]);
      var entry := LogEntry(c.urls[p], script[k].outcome);
      Requested(es, c, script[k..]) ==
      if script[k].outcome.Served? then ([entry], after)
      else ([entry] + Requested(after, c, script[k + 1..]).0, Requested(after, c, script[k + 1..]).1)
  {
    assert script[k..][1..] == script[k + 1..] && script[k..][0] == script[k];
  }

  lemma LogGrows(log: seq<LogEntry>, entry: LogEntry)
    ensures Contacted(log + [entry]) == Contacted(log) + {entry.url}
    ensures Unknown(log + [entry]) == Unknown(log) + (if ReportsMissing(entry.outcome) then {entry.url} else {})
  {
    var longer := log + [entry];
    assert longer[|log|] == entry;
    forall u | u in Contacted(log) ensures u in Contacted(longer) {
      var k :| 0 <= k < |log| && log[k].url == u;
      assert longer[k] == log[k];
    }
    forall u | u in Unknown(log) ensures u in Unknown(longer) {
      var k :| 0 <= k < |log| && ReportsMissing(log[k].outcome) && log[k].url == u;
      assert longer[k] == log[k];
    }
  }
}
