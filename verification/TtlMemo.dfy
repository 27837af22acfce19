/**
 * The single-flight memo. A step is a call of `get` up to its factory, the return
 * of a factory with its promise, or the handler that runs when a promise settles.
 */
module SingleFlight {
  import opened Options

  datatype Cached = Cached(expiresAt: int, value: int)

  datatype Memo = Memo(ttl: int, inFlight: Option<nat>, cached: Option<Cached>)

  /** What `get` finds: a cached value, a promise to share, or nothing, so that it calls its factory. */
  datatype Answer = Hit(value: int) | Join(promise: nat) | Miss

  function Lookup(m: Memo, now: int): Answer {
    if m.cached.Some? && m.cached.value.expiresAt > now then Hit(m.cached.value.value)
    else if m.inFlight.Some? then Join(m.inFlight.value)
    else Miss
  }

  /** The handlers act only for the promise that is still the one in flight. */
  function AfterResolved(m: Memo, promise: nat, value: int, now: int): Memo {
    if m.inFlight == Some(promise) then Memo(m.ttl, None, Some(Cached(now + m.ttl, value))) else m
  }

  function AfterRejected(m: Memo, promise: nat): Memo {
    if m.inFlight == Some(promise) then m.(inFlight := None) else m
  }

  /** A promise that was fulfilled, and when. */
  datatype Resolution = Resolution(value: int, at: int)

  /** `evaluating` factories have been called and have not returned; `pending` are the promises not yet settled. */
  datatype System = System(memo: Memo, evaluating: nat, made: nat, pending: set<nat>, resolutions: set<Resolution>)

  datatype Event =
    | Get(now: int)
    | FactoryReturned
    | FactoryThrew
    | Resolved(promise: nat, value: int, now: int)
    | Rejected(promise: nat)

  function Step(s: System, e: Event): Option<System> {
    match e
    case Get(now) => Some(if Lookup(s.memo, now).Miss? then s.(evaluating := s.evaluating + 1) else s)
    case FactoryReturned =>
      if s.evaluating == 0 then None
      else Some(s.(memo := s.memo.(inFlight := Some(s.made)), evaluating := s.evaluating - 1,
                   made := s.made + 1, pending := s.pending + {s.made}))
    case FactoryThrew =>
      if s.evaluating == 0 then None else Some(s.(evaluating := s.evaluating - 1))
    case Resolved(promise, value, now) =>
      if promise !in s.pending then None
      else Some(s.(memo := AfterResolved(s.memo, promise, value, now), pending := s.pending - {promise},
                   resolutions := s.resolutions + {Resolution(value, now)}))
    case Rejected(promise) =>
      if promise !in s.pending then None
      else Some(s.(memo := AfterRejected(s.memo, promise), pending := s.pending - {promise}))
  }

  function Exec(s: System, events: seq<Event>): Option<System>
    decreases |events|
  {
    if events == [] then Some(s)
    else
      match Step(s, events[0])
      case None => None
      case Some(s') => Exec(s', events[1..])
  }

  function Initial(ttl: int): System {
    System(Memo(ttl, None, None), 0, 0, {}, {})
  }

  // ----- what is cached -------------------------------------------------------

  /** A cached value is one that some promise was fulfilled with, and its time runs from then. */
  ghost predicate CacheHonest(s: System) {
    s.memo.cached.Some? ==>
      exists r :: r in s.resolutions && r.value == s.memo.cached.value.value && r.at + s.memo.ttl == s.memo.cached.value.expiresAt
  }

  lemma StepKeepsCacheHonest(s: System, e: Event)
    requires CacheHonest(s) && Step(s, e).Some?
    ensures CacheHonest(Step(s, e).value) && Step(s, e).value.memo.ttl == s.memo.ttl
  {
    var s' := Step(s, e).value;
    if e.Resolved? && s.memo.inFlight == Some(e.promise) {
      assert Resolution(e.value, e.now) in s'.resolutions;
    } else if s.memo.cached.Some? {
      var r :| r in s.resolutions && r.value == s.memo.cached.value.value && r.at + s.memo.ttl == s.memo.cached.value.expiresAt;
      assert r in s'.resolutions;
    }
  }

  lemma {:induction false} ExecKeepsCacheHonest(s: System, events: seq<Event>)
    requires CacheHonest(s) && Exec(s, events).Some?
    ensures CacheHonest(Exec(s, events).value) && Exec(s, events).value.memo.ttl == s.memo.ttl
    decreases |events|
  {
    hide Step, CacheHonest;
    if events != [] {
      StepKeepsCacheHonest(s, events[0]);
      ExecKeepsCacheHonest(Step(s, events[0]).value, events[1..]);
    }
  }

  /** A hit is never a rejection, and never older than the ttl, whatever the factories do. */
  lemma HitIsFresh(ttl: int, events: seq<Event>, now: int)
    requires Exec(Initial(ttl), events).Some?
    requires Lookup(Exec(Initial(ttl), events).value.memo, now).Hit?
    ensures var s := Exec(Initial(ttl), events).value;
      exists r :: r in s.resolutions && Lookup(s.memo, now) == Hit(r.value) && now - r.at < ttl
  {
    hide Exec;
    ExecKeepsCacheHonest(Initial(ttl), events);
  }

  // ----- at most one call -----------------------------------------------------

  /** The memo knows the only promise that is pending, and nothing else is being computed. */
  predicate Single(s: System) {
    && s.pending == (if s.memo.inFlight.Some? then {s.memo.inFlight.value} else {})
    && (s.evaluating == 0 || (s.evaluating == 1 && s.pending == {}))
    && (forall p :: p in s.pending ==> p < s.made)
  }

  /** A `get` from within a factory that finds nothing cached. */
  predicate Reenters(s: System, e: Event) {
    e.Get? && s.evaluating > 0 && Lookup(s.memo, e.now).Miss?
  }

  /** Re-entering a factory is the one thing that breaks single flight. */
  lemma SingleFlightExactly(s: System, e: Event)
    requires Single(s) && Step(s, e).Some?
    ensures Single(Step(s, e).value) <==> !Reenters(s, e)
  {
  }

  ghost predicate NeverReenters(s: System, events: seq<Event>)
    decreases |events|
  {
    events != [] ==> !Reenters(s, events[0]) && (Step(s, events[0]).Some? ==> NeverReenters(Step(s, events[0]).value, events[1..]))
  }

  lemma {:induction false} ExecKeepsSingle(s: System, events: seq<Event>)
    requires Single(s) && NeverReenters(s, events) && Exec(s, events).Some?
    ensures Single(Exec(s, events).value)
    decreases |events|
  {
    hide Step, Single, Reenters;
    if events != [] {
      SingleFlightExactly(s, events[0]);
      ExecKeepsSingle(Step(s, events[0]).value, events[1..]);
    }
  }

  /**
   * At most one factory call is in flight; a settling promise is always the one the
   * memo holds, so its handler always acts; and a `get` that joins joins that call.
   */
  lemma AtMostOneCall(ttl: int, events: seq<Event>, next: Event, now: int)
    requires NeverReenters(Initial(ttl), events) && Exec(Initial(ttl), events).Some?
    ensures var s := Exec(Initial(ttl), events).value;
      && s.evaluating + |s.pending| <= 1
      && (next.Resolved? && Step(s, next).Some? ==> Step(s, next).value.memo == Memo(ttl, None, Some(Cached(next.now + ttl, next.value))))
      && (next.Rejected? && Step(s, next).Some? ==> Step(s, next).value.memo == s.memo.(inFlight := None))
      && (Lookup(s.memo, now).Join? ==> Lookup(s.memo, now).promise in s.pending)
  {
    hide Exec;
    ExecKeepsSingle(Initial(ttl), events);
    ExecKeepsCacheHonest(Initial(ttl), events);
  }

  /** The latest fulfilment among some events, or else the one before them. */
  function Latest(before: Option<Resolution>, events: seq<Event>): Option<Resolution>
    decreases |events|
  {
    if events == [] then before
    else Latest(if events[0].Resolved? then Some(Resolution(events[0].value, events[0].now)) else before, events[1..])
  }

  predicate Caches(s: System, r: Option<Resolution>) {
    s.memo.cached == match r case None => None case Some(x) => Some(Cached(x.at + s.memo.ttl, x.value))
  }

  lemma {:induction false} CachesTheLatest(s: System, before: Option<Resolution>, events: seq<Event>)
    requires Single(s) && Caches(s, before) && NeverReenters(s, events) && Exec(s, events).Some?
    ensures Single(Exec(s, events).value) && Caches(Exec(s, events).value, Latest(before, events))
    ensures Exec(s, events).value.memo.ttl == s.memo.ttl
    decreases |events|
  {
    if events != [] {
      SingleFlightExactly(s, events[0]);
      var s' := Step(s, events[0]).value;
      var now := if events[0].Resolved? then Some(Resolution(events[0].value, events[0].now)) else before;
      assert Caches(s', now) && s'.memo.ttl == s.memo.ttl;
      hide Step, Single, Caches, Reenters;
      CachesTheLatest(s', now, events[1..]);
    }
  }

  /**
   * What a `get` finds: the latest value that was fulfilled, as long as the ttl has not
   * passed since; else the call in flight, if there is one; else nothing.
   */
  lemma GetExactly(ttl: int, events: seq<Event>, now: int)
    requires NeverReenters(Initial(ttl), events) && Exec(Initial(ttl), events).Some?
    ensures var s := Exec(Initial(ttl), events).value;
      var latest := Latest(None, events);
      if latest.Some? && now - latest.value.at < ttl then Lookup(s.memo, now) == Hit(latest.value.value)
      else if s.pending != {} then exists p :: p in s.pending && Lookup(s.memo, now) == Join(p)
      else Lookup(s.memo, now) == Miss
  {
    hide Exec;
    CachesTheLatest(Initial(ttl), None, events);
  }

  /** A factory that calls `get` on its own memo gets a second call started. */
  lemma ReentryDoublesTheCall()
    ensures var events := [Get(0), Get(0), FactoryReturned, FactoryReturned];
      Exec(Initial(1000), events).Some? && |Exec(Initial(1000), events).value.pending| == 2
  {
    var s0 := Initial(1000);
    var s1 := Step(s0, Get(0)).value;
    var s2 := Step(s1, Get(0)).value;
    var s3 := Step(s2, FactoryReturned).value;
    var s4 := Step(s3, FactoryReturned).value;
    assert Exec(s4, []) == Some(s4);
    assert Exec(s3, [FactoryReturned]) == Some(s4);
    assert Exec(s2, [FactoryReturned, FactoryReturned]) == Some(s4);
    assert Exec(s1, [Get(0), FactoryReturned, FactoryReturned]) == Some(s4);
    assert s4.pending == {0, 1};
  }

  // ----- the memo as it is written --------------------------------------------

  class TtlMemo {
    const ttl: int
    var inFlight: Option<nat>
    var cached: Option<Cached>

    function Snapshot(): Memo
      reads this
    {
      Memo(ttl, inFlight, cached)
    }

    constructor (ttl: int)
      ensures Snapshot() == Memo(ttl, None, None)
    {
      this.ttl, inFlight, cached := ttl, None, None;
    }

    /** `get` up to the call of its factory. */
    method Get(now: int) returns (a: Answer)
      ensures a == Lookup(Snapshot(), now)
    {
      if cached.Some? {
        if cached.value.expiresAt > now { return Hit(cached.value.value); }
      }
      if inFlight.Some? { return Join(inFlight.value); }
      return Miss;
    }

    /** The rest of `get`: its factory returned a promise. */
    method Launch(promise: nat)
      modifies this`inFlight
      ensures Snapshot() == old(Snapshot()).(inFlight := Some(promise))
    {
      inFlight := Some(promise);
    }

    method OnResolved(promise: nat, value: int, now: int)
      modifies this`inFlight, this`cached
      ensures Snapshot() == AfterResolved(old(Snapshot()), promise, value, now)
    {
      if inFlight == Some(promise) {
        cached := Some(Cached(now + ttl, value));
        inFlight := None;
      }
    }

    method OnRejected(promise: nat)
      modifies this`inFlight
      ensures Snapshot() == AfterRejected(old(Snapshot()), promise)
    {
      if inFlight == Some(promise) { inFlight := None; }
    }
  }
}
