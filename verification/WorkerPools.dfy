/**
 * The promise pools: runners that share a cursor. A step is what one runner does
 * between two awaits: its worker settles, and it claims the next index or stops.
 */
module WorkerPools {
  import opened Options

  datatype Thrown = NullThrown | ErrorThrown(id: int)

  datatype Outcome = Returned(value: int) | Threw(thrown: Thrown)

  /** What the worker does with each index. */
  type Work = nat -> Outcome

  datatype Mode = KeepGoing | AbortOnError

  datatype Runner = Running(i: nat) | Stopped | Dead

  /** `log` lists the indices whose worker has settled, in that order. */
  datatype Pool = Pool(mode: Mode, n: nat, cursor: nat, runners: seq<Runner>, failure: Option<Thrown>, log: seq<nat>)

  function Min(a: int, b: int): int { if a <= b then a else b }
  function Max(a: int, b: int): int { if a >= b then a else b }

  /** How many runners there are. */
  function Effective(mode: Mode, n: nat, concurrency: int): nat {
    if n == 0 then 0
    else if mode.KeepGoing? then Max(1, Min(concurrency, n))
    else Min(Max(concurrency, 1), n)
  }

  /** Runner `r` takes the next index, or finds that there is none. */
  function Claim(p: Pool, r: nat): Pool
    requires r < |p.runners|
  {
    p.(cursor := p.cursor + 1,
       runners := p.runners[r := if p.cursor >= p.n then Stopped else Running(p.cursor)])
  }

  /** Every runner claims once before anything settles. */
  function StartFrom(p: Pool, r: nat): Pool
    requires r <= |p.runners|
    decreases |p.runners| - r
  {
    if r == |p.runners| then p else StartFrom(Claim(p, r), r + 1)
  }

  function Start(mode: Mode, n: nat, concurrency: int): Pool {
    StartFrom(Pool(mode, n, 0, seq(Effective(mode, n, concurrency), _ => Stopped), None, []), 0)
  }

  /** What the failure variable holds once `thrown` has been caught. */
  function Noted(mode: Mode, failure: Option<Thrown>, thrown: Thrown): Option<Thrown> {
    if failure.Some? || (mode.AbortOnError? && thrown.NullThrown?) then failure else Some(thrown)
  }

  predicate CanResume(p: Pool, r: int) {
    0 <= r < |p.runners| && p.runners[r].Running?
  }

  /** The worker of runner `r` settles. */
  function Resume(p: Pool, r: nat, work: Work): Pool
    requires CanResume(p, r)
  {
    var i := p.runners[r].i;
    var q := p.(log := p.log + [i]);
    match work(i)
    case Returned(_) =>
      if p.mode.AbortOnError? && p.failure.Some? then q.(runners := q.runners[r := Stopped]) else Claim(q, r)
    case Threw(thrown) =>
      q.(runners := q.runners[r := Dead], failure := Noted(p.mode, p.failure, thrown))
  }

  /** The pool after the runners of a schedule have been resumed in turn. */
  function Play(p: Pool, schedule: seq<nat>, work: Work): Option<Pool>
    decreases |schedule|
  {
    if schedule == [] then Some(p)
    else if !CanResume(p, schedule[0]) then None
    else Play(Resume(p, schedule[0], work), schedule[1..], work)
  }

  predicate AtRest(p: Pool) {
    forall r :: 0 <= r < |p.runners| ==> !p.runners[r].Running?
  }

  // ----- the invariant --------------------------------------------------------

  function Claimed(p: Pool): nat { Min(p.cursor, p.n) }

  function CountRunning(runners: seq<Runner>): (c: nat)
    ensures c <= |runners|
  {
    if runners == [] then 0 else (if runners[0].Running? then 1 else 0) + CountRunning(runners[1..])
  }

  ghost predicate InFlight(p: Pool, i: nat) { exists r :: CanResume(p, r) && p.runners[r].i == i }

  /** The first failure of a log, as the failure variable sees it. */
  function FirstFailure(mode: Mode, log: seq<nat>, work: Work): Option<Thrown>
    decreases |log|
  {
    if log == [] then None
    else
      var earlier := FirstFailure(mode, log[..|log| - 1], work);
      match work(log[|log| - 1])
      case Returned(_) => earlier
      case Threw(thrown) => Noted(mode, earlier, thrown)
  }

  ghost predicate RunnersOk(p: Pool) {
    && (forall r :: CanResume(p, r) ==> p.runners[r].i < Claimed(p) && p.runners[r].i !in p.log)
    && (forall r, s :: CanResume(p, r) && CanResume(p, s) && p.runners[r].i == p.runners[s].i ==> r == s)
    && (forall r :: 0 <= r < |p.runners| && p.runners[r].Stopped? ==> p.cursor >= p.n || (p.mode.AbortOnError? && p.failure.Some?))
  }

  ghost predicate LogOk(p: Pool, work: Work) {
    && (forall k :: 0 <= k < |p.log| ==> p.log[k] < Claimed(p))
    && (forall j, k :: 0 <= j < k < |p.log| ==> p.log[j] != p.log[k])
    && (forall i: nat :: i < Claimed(p) ==> i in p.log || InFlight(p, i))
    && p.failure == FirstFailure(p.mode, p.log, work)
    && DeathsLogged(p, work)
  }

  ghost predicate SomeThrew(log: seq<nat>, work: Work) {
    exists k :: 0 <= k < |log| && work(log[k]).Threw?
  }

  ghost predicate DeathsLogged(p: Pool, work: Work) {
    forall r :: 0 <= r < |p.runners| && p.runners[r].Dead? ==> SomeThrew(p.log, work)
  }

  ghost predicate Valid(p: Pool, work: Work) {
    && RunnersOk(p) && LogOk(p, work)
    && CountRunning(p.runners) + |p.log| == Claimed(p)
    && (p.n > 0 ==> |p.runners| > 0)
  }

  lemma {:induction false} CountAfterUpdate(runners: seq<Runner>, r: nat, v: Runner)
    requires r < |runners|
    ensures CountRunning(runners[r := v]) + (if runners[r].Running? then 1 else 0)
         == CountRunning(runners) + (if v.Running? then 1 else 0)
  {
    if r > 0 {
      assert runners[r := v][1..] == runners[1..][r - 1 := v];
      CountAfterUpdate(runners[1..], r - 1, v);
    } else {
      assert runners[r := v][1..] == runners[1..];
    }
  }

  lemma {:induction false} NoneRunning(runners: seq<Runner>)
    ensures (forall r :: 0 <= r < |runners| ==> !runners[r].Running?) <==> CountRunning(runners) == 0
  {
    if runners != [] {
      NoneRunning(runners[1..]);
      assert forall r :: 1 <= r < |runners| ==> runners[r] == runners[1..][r - 1];
    }
  }

  lemma {:induction false} AllRunning(runners: seq<Runner>)
    requires forall r :: 0 <= r < |runners| ==> runners[r].Running?
    ensures CountRunning(runners) == |runners|
  {
    if runners != [] { AllRunning(runners[1..]); }
  }

  /** At the start runner `k` has index `k`. */
  lemma {:induction false} StartsInOrder(p: Pool, r: nat)
    requires r <= |p.runners| <= p.n && p.cursor == r
    requires forall k :: 0 <= k < r ==> p.runners[k] == Running(k)
    ensures var q := StartFrom(p, r);
      && q == p.(cursor := |p.runners|, runners := q.runners)
      && |q.runners| == |p.runners|
      && forall k :: 0 <= k < |p.runners| ==> q.runners[k] == Running(k)
    decreases |p.runners| - r
  {
    if r < |p.runners| { StartsInOrder(Claim(p, r), r + 1); }
  }

  lemma StartShape(mode: Mode, n: nat, concurrency: int)
    ensures var p := Start(mode, n, concurrency);
      && p == Pool(mode, n, |p.runners|, p.runners, None, [])
      && |p.runners| == Effective(mode, n, concurrency) <= n
      && forall k :: 0 <= k < |p.runners| ==> p.runners[k] == Running(k)
  {
    StartsInOrder(Pool(mode, n, 0, seq(Effective(mode, n, concurrency), _ => Stopped), None, []), 0);
  }

  lemma StartValid(mode: Mode, n: nat, concurrency: int, work: Work)
    ensures Valid(Start(mode, n, concurrency), work)
  {
    hide Start;
    StartShape(mode, n, concurrency);
    var p := Start(mode, n, concurrency);
    AllRunning(p.runners);
    assert LogOk(p, work) by {
      forall i: nat | i < Claimed(p) ensures InFlight(p, i) { assert CanResume(p, i); }
    }
  }

  lemma ResumeKeepsCount(p: Pool, r: nat, work: Work)
    requires CanResume(p, r) && CountRunning(p.runners) + |p.log| == Claimed(p)
    ensures var q := Resume(p, r, work); CountRunning(q.runners) + |q.log| == Claimed(q)
  {
    CountAfterUpdate(p.runners, r, Resume(p, r, work).runners[r]);
  }

  /** What one resume changes, for every kind of pool. */
  lemma ResumeShape(p: Pool, r: nat, work: Work)
    requires CanResume(p, r)
    ensures var q := Resume(p, r, work);
      && q == p.(log := p.log + [p.runners[r].i], cursor := q.cursor, failure := q.failure, runners := p.runners[r := q.runners[r]])
      && q.failure == (match work(p.runners[r].i) case Returned(_) => p.failure case Threw(e) => Noted(p.mode, p.failure, e))
      && (q.runners[r].Running? ==> q.runners[r].i == p.cursor < p.n)
      && (if q.runners[r].Running? then q.cursor == p.cursor + 1 else Claimed(q) == Claimed(p))
      && (q.runners[r].Stopped? ==> q.cursor >= q.n || (p.mode.AbortOnError? && p.failure.Some?))
      && (q.runners[r].Dead? <==> work(p.runners[r].i).Threw?)
      && q.cursor >= p.cursor
      && (p.failure.Some? ==> q.failure == p.failure)
  {
  }

  lemma ResumeKeepsLog(p: Pool, r: nat, work: Work)
    requires CanResume(p, r) && RunnersOk(p) && LogOk(p, work)
    ensures LogOk(Resume(p, r, work), work)
  {
    ResumeShape(p, r, work);
    hide Resume, Noted;
    var q := Resume(p, r, work);
    var i := p.runners[r].i;
    assert q.log[..|q.log| - 1] == p.log;
    forall k: nat | k < Claimed(q)
      ensures k in q.log || InFlight(q, k)
    {
      StillAccounted(p, r, work, k);
    }
    DeathsStayLogged(p, r, work);
    hide InFlight, DeathsLogged;
  }

  lemma DeathsStayLogged(p: Pool, r: nat, work: Work)
    requires CanResume(p, r) && DeathsLogged(p, work)
    ensures DeathsLogged(Resume(p, r, work), work)
  {
    ResumeShape(p, r, work);
    hide Resume;
    var q := Resume(p, r, work);
    forall s | 0 <= s < |q.runners| && q.runners[s].Dead?
      ensures SomeThrew(q.log, work)
    {
      if s == r {
        assert work(q.log[|p.log|]).Threw?;
      } else {
        var k :| 0 <= k < |p.log| && work(p.log[k]).Threw?;
        assert q.log[k] == p.log[k];
      }
    }
  }

  lemma StillAccounted(p: Pool, r: nat, work: Work, k: nat)
    requires CanResume(p, r) && k < Claimed(Resume(p, r, work))
    requires k < Claimed(p) ==> k in p.log || InFlight(p, k)
    ensures k in Resume(p, r, work).log || InFlight(Resume(p, r, work), k)
  {
    ResumeShape(p, r, work);
    hide Resume;
    var q := Resume(p, r, work);
    if k < Claimed(p) {
      if k !in q.log {
        var s :| CanResume(p, s) && p.runners[s].i == k;
        assert CanResume(q, s);
      }
    } else {
      assert CanResume(q, r);
    }
  }

  lemma ResumeKeepsRunners(p: Pool, r: nat, work: Work)
    requires CanResume(p, r) && RunnersOk(p)
    requires forall k :: 0 <= k < |p.log| ==> p.log[k] < Claimed(p)
    ensures RunnersOk(Resume(p, r, work))
  {
    ResumeShape(p, r, work);
    hide Resume;
    var q := Resume(p, r, work);
    forall s | CanResume(q, s)
      ensures q.runners[s].i < Claimed(q) && q.runners[s].i !in q.log
    {
      if s != r { assert CanResume(p, s); }
    }
    forall s, t | CanResume(q, s) && CanResume(q, t) && q.runners[s].i == q.runners[t].i
      ensures s == t
    {
      if s != r { assert CanResume(p, s); }
      if t != r { assert CanResume(p, t); }
    }
  }

  lemma ResumeKeepsValid(p: Pool, r: nat, work: Work)
    requires CanResume(p, r) && Valid(p, work)
    ensures Valid(Resume(p, r, work), work)
  {
    hide RunnersOk, Resume;
    assert |Resume(p, r, work).runners| == |p.runners| && Resume(p, r, work).n == p.n by { ResumeShape(p, r, work); }
    ResumeKeepsCount(p, r, work);
    ResumeKeepsLog(p, r, work);
    ResumeKeepsRunners(p, r, work);
    hide LogOk;
  }

  lemma {:induction false} PlayKeepsValid(p: Pool, schedule: seq<nat>, work: Work)
    requires Valid(p, work) && Play(p, schedule, work).Some?
    ensures var q := Play(p, schedule, work).value;
      Valid(q, work) && q.mode == p.mode && q.n == p.n && |q.runners| == |p.runners| && |q.log| == |p.log| + |schedule|
    decreases |schedule|
  {
    hide Valid, Resume;
    if schedule != [] {
      var q := Resume(p, schedule[0], work);
      ResumeShape(p, schedule[0], work);
      ResumeKeepsValid(p, schedule[0], work);
      PlayKeepsValid(q, schedule[1..], work);
    }
  }

  /** How often an index settled. */
  function Times(log: seq<nat>, i: nat): nat {
    if log == [] then 0 else (if log[0] == i then 1 else 0) + Times(log[1..], i)
  }

  lemma {:induction false} DistinctTimes(log: seq<nat>, i: nat)
    requires forall j, k :: 0 <= j < k < |log| ==> log[j] != log[k]
    ensures Times(log, i) == if i in log then 1 else 0
  {
    if log != [] {
      DistinctTimes(log[1..], i);
      assert i in log <==> log[0] == i || i in log[1..];
    }
  }

  // ----- what every pool keeps, whatever the schedule -------------------------

  /**
   * At every moment the claimed indices are a prefix; each has been settled once or
   * is in the hands of one runner, and no more runners are busy than was asked for.
   */
  lemma EachClaimedOnce(mode: Mode, n: nat, concurrency: int, schedule: seq<nat>, work: Work, i: nat)
    requires Play(Start(mode, n, concurrency), schedule, work).Some?
    ensures var p := Play(Start(mode, n, concurrency), schedule, work).value;
      && Times(p.log, i) + (if InFlight(p, i) then 1 else 0) == (if i < Claimed(p) then 1 else 0)
      && (forall r, s :: CanResume(p, r) && CanResume(p, s) && p.runners[r].i == p.runners[s].i ==> r == s)
      && CountRunning(p.runners) <= Min(Max(1, concurrency), n)
      && Claimed(p) == |p.log| + CountRunning(p.runners)
      && p.failure == FirstFailure(mode, p.log, work)
  {
    hide Start, FirstFailure, Play;
    StartValid(mode, n, concurrency, work);
    StartShape(mode, n, concurrency);
    PlayKeepsValid(Start(mode, n, concurrency), schedule, work);
    DistinctTimes(Play(Start(mode, n, concurrency), schedule, work).value.log, i);
  }

  /** Nothing is left in flight when the runners are done; so all that was claimed has settled. */
  lemma RestSettles(p: Pool, work: Work)
    requires Valid(p, work) && AtRest(p)
    ensures |p.log| == Claimed(p)
    ensures forall i: nat :: i in p.log <==> i < Claimed(p)
    ensures Claimed(p) == p.n || SomeThrew(p.log, work)
  {
    NoneRunning(p.runners);
    hide CountRunning;
    forall i: nat | i < Claimed(p) ensures i in p.log {
      assert !InFlight(p, i);
    }
    if Claimed(p) < p.n {
      FailureMeansThrew(p.mode, p.log, work);
      assert p.runners[0].Stopped? || p.runners[0].Dead?;
    }
  }

  lemma {:induction false} FailureMeansThrew(mode: Mode, log: seq<nat>, work: Work)
    ensures FirstFailure(mode, log, work).Some? ==> SomeThrew(log, work)
    decreases |log|
  {
    if log != [] {
      var earlier := log[..|log| - 1];
      FailureMeansThrew(mode, earlier, work);
      if SomeThrew(earlier, work) {
        var k :| 0 <= k < |earlier| && work(earlier[k]).Threw?;
        assert work(log[k]).Threw?;
      }
    }
  }

  /** Which failure is kept: the first to arrive, where the abort variant does not see a null. */
  lemma {:induction false} KeptFailure(mode: Mode, log: seq<nat>, work: Work, e: Thrown)
    ensures FirstFailure(mode, log, work) == Some(e) <==>
            exists k :: 0 <= k < |log| && Kept(mode, log, work, k) && work(log[k]) == Threw(e)
    decreases |log|
  {
    if log != [] {
      var last := |log| - 1;
      var earlier := log[..last];
      KeptFailure(mode, earlier, work, e);
      forall k | 0 <= k < last
        ensures Kept(mode, earlier, work, k) <==> Kept(mode, log, work, k)
      {
      }
      if FirstFailure(mode, earlier, work).Some? {
        var f := FirstFailure(mode, earlier, work).value;
        KeptFailure(mode, earlier, work, f);
        var k :| 0 <= k < last && Kept(mode, earlier, work, k);
        assert !Kept(mode, log, work, last);
      } else {
        NothingKept(mode, earlier, work);
        assert Kept(mode, log, work, last) <==> Seen(mode, work(log[last]));
      }
    }
  }

  predicate Seen(mode: Mode, o: Outcome) {
    o.Threw? && (mode.AbortOnError? ==> !o.thrown.NullThrown?)
  }

  /** The outcome at `k` is the first the failure variable sees. */
  ghost predicate Kept(mode: Mode, log: seq<nat>, work: Work, k: int) {
    && 0 <= k < |log|
    && Seen(mode, work(log[k]))
    && forall j :: 0 <= j < k ==> !Seen(mode, work(log[j]))
  }

  lemma {:induction false} NothingKept(mode: Mode, log: seq<nat>, work: Work)
    ensures FirstFailure(mode, log, work).None? <==> forall k :: 0 <= k < |log| ==> !Seen(mode, work(log[k]))
    decreases |log|
  {
    if log != [] { NothingKept(mode, log[..|log| - 1], work); }
  }

  /**
   * As long as no worker has failed a pool is as busy as was asked for, but no busier
   * than there are indices left, and never without a runner.
   */
  lemma FullyBusy(mode: Mode, n: nat, concurrency: int, schedule: seq<nat>, work: Work)
    requires Play(Start(mode, n, concurrency), schedule, work).Some?
    requires !SomeThrew(Play(Start(mode, n, concurrency), schedule, work).value.log, work)
    ensures var p := Play(Start(mode, n, concurrency), schedule, work).value;
      CountRunning(p.runners) == Min(Min(Max(1, concurrency), n), n - |p.log|)
  {
    hide Start, Play, CountRunning;
    StartValid(mode, n, concurrency, work);
    StartShape(mode, n, concurrency);
    PlayKeepsValid(Start(mode, n, concurrency), schedule, work);
    var p := Play(Start(mode, n, concurrency), schedule, work).value;
    FailureMeansThrew(mode, p.log, work);
    if p.cursor < n { AllRunning(p.runners); }
  }

  // ----- the plain pool -------------------------------------------------------

  /** At the end every index has run, exactly once, unless every runner died of a failure. */
  lemma PlainPoolRunsAll(n: nat, concurrency: int, schedule: seq<nat>, work: Work)
    requires Play(Start(KeepGoing, n, concurrency), schedule, work).Some?
    requires AtRest(Play(Start(KeepGoing, n, concurrency), schedule, work).value)
    ensures var p := Play(Start(KeepGoing, n, concurrency), schedule, work).value;
      && (Claimed(p) == n || forall r :: 0 <= r < |p.runners| ==> p.runners[r].Dead?)
      && (p.failure.None? <==> forall i: nat :: i < n ==> work(i).Returned?)
      && (p.failure.None? ==> |p.log| == n && forall i: nat :: i < n ==> Times(p.log, i) == 1)
  {
    hide Start, Play, CountRunning, FirstFailure;
    StartValid(KeepGoing, n, concurrency, work);
    StartShape(KeepGoing, n, concurrency);
    PlayKeepsValid(Start(KeepGoing, n, concurrency), schedule, work);
    var p := Play(Start(KeepGoing, n, concurrency), schedule, work).value;
    RestSettles(p, work);
    NothingKept(KeepGoing, p.log, work);
    assert p.failure.None? ==> !SomeThrew(p.log, work);
    assert (forall i: nat :: i < n ==> work(i).Returned?) ==> forall k :: 0 <= k < |p.log| ==> !Seen(KeepGoing, work(p.log[k]));
    if p.failure.None? {
      forall i: nat | i < n ensures Times(p.log, i) == 1 && work(i).Returned? {
        DistinctTimes(p.log, i);
        assert i in p.log;
      }
    }
  }

  // ----- the pool that aborts -------------------------------------------------

  /** Once a failure is noted nothing more is claimed, whatever settles afterwards. */
  lemma {:induction false} AbortClaimsNothing(p: Pool, schedule: seq<nat>, work: Work)
    requires p.mode.AbortOnError? && p.failure.Some? && Play(p, schedule, work).Some?
    ensures var q := Play(p, schedule, work).value;
      q.cursor == p.cursor && q.failure == p.failure && forall r :: CanResume(q, r) ==> CanResume(p, r) && q.runners[r] == p.runners[r]
    decreases |schedule|
  {
    if schedule != [] {
      AbortClaimsNothing(Resume(p, schedule[0], work), schedule[1..], work);
    }
  }

  /**
   * What the pool answers at the end. It rejects with the first failure that is not
   * null. It resolves otherwise, and then everything ran and succeeded exactly when
   * no worker that ran rejected with null.
   */
  lemma AbortVerdict(n: nat, concurrency: int, schedule: seq<nat>, work: Work)
    requires Play(Start(AbortOnError, n, concurrency), schedule, work).Some?
    requires AtRest(Play(Start(AbortOnError, n, concurrency), schedule, work).value)
    ensures var p := Play(Start(AbortOnError, n, concurrency), schedule, work).value;
      && (forall i: nat :: i in p.log <==> i < Claimed(p))
      && (p.failure.Some? <==> exists k :: Kept(AbortOnError, p.log, work, k))
      && (p.failure.Some? ==> exists k :: Kept(AbortOnError, p.log, work, k) && work(p.log[k]) == Threw(p.failure.value))
      && (p.failure.None? ==>
           ((Claimed(p) == n && forall i: nat :: i < n ==> work(i).Returned?) <==>
            forall i: nat :: i in p.log ==> work(i) != Threw(NullThrown)))
  {
    hide Start, Play, CountRunning, FirstFailure;
    StartValid(AbortOnError, n, concurrency, work);
    StartShape(AbortOnError, n, concurrency);
    PlayKeepsValid(Start(AbortOnError, n, concurrency), schedule, work);
    var p := Play(Start(AbortOnError, n, concurrency), schedule, work).value;
    RestSettles(p, work);
    NothingKept(AbortOnError, p.log, work);
    if p.failure.Some? {
      KeptFailure(AbortOnError, p.log, work, p.failure.value);
    } else {
      SwallowedNull(p, work);
    }
  }

  lemma SwallowedNull(p: Pool, work: Work)
    requires forall i: nat :: i in p.log <==> i < Claimed(p)
    requires Claimed(p) == p.n || SomeThrew(p.log, work)
    requires forall k :: 0 <= k < |p.log| ==> !Seen(AbortOnError, work(p.log[k]))
    ensures (Claimed(p) == p.n && forall i: nat :: i < p.n ==> work(i).Returned?) <==>
            forall i: nat :: i in p.log ==> work(i) != Threw(NullThrown)
  {
    forall i: nat | i in p.log
      ensures work(i).Returned? || work(i) == Threw(NullThrown)
    {
      var k :| 0 <= k < |p.log| && p.log[k] == i;
      assert !Seen(AbortOnError, work(p.log[k]));
    }
    if SomeThrew(p.log, work) {
      var k :| 0 <= k < |p.log| && work(p.log[k]).Threw?;
      assert p.log[k] in p.log;
    }
  }

  /** A null rejection is swallowed: the pool resolves although index 1 never ran. */
  lemma NullIsSwallowed()
    ensures var work := (i: nat) => if i == 0 then Threw(NullThrown) else Returned(0);
      var start := Start(AbortOnError, 2, 1);
      CanResume(start, 0) &&
      var p := Resume(start, 0, work);
      AtRest(p) && p.failure == None && p.log == [0] && Claimed(p) == 1
  {
    StartShape(AbortOnError, 2, 1);
  }

  // ----- the pools as they are written ----------------------------------------

  class Runners {
    const mode: Mode
    const n: nat
    const runners: array<Runner>
    var cursor: nat
    var failure: Option<Thrown>
    var log: seq<nat>

    function Snapshot(): Pool
      reads this, runners
    {
      Pool(mode, n, cursor, runners[..], failure, log)
    }

    constructor (mode: Mode, n: nat, concurrency: int)
      ensures this.mode == mode && this.n == n && fresh(runners)
      ensures Snapshot() == Start(mode, n, concurrency)
    {
      this.mode, this.n, cursor, failure, log := mode, n, 0, None, [];
      runners := new Runner[Effective(mode, n, concurrency)](_ => Stopped);
      new;
      assert Snapshot() == Pool(mode, n, 0, seq(runners.Length, _ => Stopped), None, []);
      var r := 0;
      while r < runners.Length
        invariant r <= runners.Length
        invariant StartFrom(Snapshot(), r) == Start(mode, n, concurrency)
      {
        Next(r);
        r := r + 1;
      }
    }

    /** Runner `r` takes the next index off the shared cursor, or stops. */
    method Next(r: nat)
      requires r < runners.Length
      modifies this`cursor, runners
      ensures Snapshot() == Claim(old(Snapshot()), r)
    {
      var index := cursor;
      cursor := cursor + 1;
      runners[r] := if index >= n then Stopped else Running(index);
    }

    /** The worker of runner `r` settles and the runner goes on, or not. */
    method Settle(r: nat, work: Work)
      requires CanResume(Snapshot(), r)
      modifies this`cursor, this`failure, this`log, runners
      ensures Snapshot() == Resume(old(Snapshot()), r, work)
    {
      var i := runners[r].i;
      log := log + [i];
      match work(i) {
        case Threw(thrown) =>
          if failure == None && !(mode.AbortOnError? && thrown.NullThrown?) { failure := Some(thrown); }
          runners[r] := Dead;
        case Returned(_) =>
          if mode.AbortOnError? && failure.Some? {
            runners[r] := Stopped;
          } else {
            Next(r);
          }
      }
    }

    /** Settles whatever is in flight, in any order, until nothing is. */
    method Drain(work: Work) returns (ghost schedule: seq<nat>)
      requires Valid(Snapshot(), work)
      modifies this`cursor, this`failure, this`log, runners
      ensures AtRest(Snapshot()) && Play(old(Snapshot()), schedule, work) == Some(Snapshot())
    {
      hide Resume, RunnersOk, LogOk, CountRunning, Play;
      schedule := [];
      assert Play(Snapshot(), schedule, work) == Some(Snapshot()) by { PlayNone(Snapshot(), work); }
      ghost var before := Snapshot();
      while exists r :: 0 <= r < runners.Length && runners[r].Running?
        invariant Valid(Snapshot(), work)
        invariant Play(before, schedule, work) == Some(Snapshot())
        decreases n - |log|
      {
        var r :| 0 <= r < runners.Length && runners[r].Running?;
        ghost var was := Snapshot();
        ResumeKeepsValid(was, r, work);
        ResumeShape(was, r, work);
        PlayOneMore(before, schedule, r, work);
        Settle(r, work);
        schedule := schedule + [r];
      }
    }
  }

  lemma {:induction false} PlayOneMore(p: Pool, schedule: seq<nat>, r: nat, work: Work)
    requires Play(p, schedule, work).Some? && CanResume(Play(p, schedule, work).value, r)
    ensures Play(p, schedule + [r], work) == Some(Resume(Play(p, schedule, work).value, r, work))
    decreases |schedule|
  {
    hide Resume, CanResume;
    if schedule != [] {
      assert (schedule + [r])[1..] == schedule[1..] + [r];
      PlayOneMore(Resume(p, schedule[0], work), schedule[1..], r, work);
    } else {
      assert Play(Resume(p, r, work), [], work) == Some(Resume(p, r, work));
    }
  }

  lemma PlayNone(p: Pool, work: Work)
    ensures Play(p, [], work) == Some(p)
  {
  }

  /** Whatever the order in which the tasks settle, slot `i` gets the outcome of task `i`. */
  method SettleAll(n: nat, concurrency: int, tasks: Work) returns (results: array<Option<Outcome>>)
    ensures results.Length == n
    ensures forall i :: 0 <= i < n ==> results[i] == Some(tasks(i))
  {
    hide Resume, RunnersOk, LogOk, CountRunning, Start;
    results := new Option<Outcome>[n](_ => None);
    var quiet: Work := i => Returned(0);
    var pool := new Runners(KeepGoing, n, concurrency);
    StartValid(KeepGoing, n, concurrency, quiet);
    StartShape(KeepGoing, n, concurrency);
    while exists r :: 0 <= r < pool.runners.Length && pool.runners[r].Running?
      invariant Valid(pool.Snapshot(), quiet)
      invariant fresh(pool) && fresh(pool.runners) && pool.n == n
      invariant forall k :: 0 <= k < |pool.log| ==> pool.log[k] < n && results[pool.log[k]] == Some(tasks(pool.log[k]))
      decreases n - |pool.log|
    {
      var r :| 0 <= r < pool.runners.Length && pool.runners[r].Running?;
      ResumeKeepsValid(pool.Snapshot(), r, quiet);
      ResumeShape(pool.Snapshot(), r, quiet);
      var i := pool.runners[r].i;
      InFlightBelow(pool.Snapshot(), r, quiet);
      results[i] := Some(tasks(i));
      pool.Settle(r, quiet);
    }
    var end := pool.Snapshot();
    assert AtRest(end);
    RestSettles(end, quiet);
    assert !SomeThrew(end.log, quiet);
    forall i | 0 <= i < n
      ensures results[i] == Some(tasks(i))
    {
      assert i in end.log;
      var k :| 0 <= k < |pool.log| && pool.log[k] == i;
      assert results[pool.log[k]] == Some(tasks(pool.log[k]));
    }
  }

  lemma InFlightBelow(p: Pool, r: nat, work: Work)
    requires Valid(p, work) && CanResume(p, r)
    ensures p.runners[r].i < p.n && |p.log| < p.n
  {
    NoneRunning(p.runners);
  }
}
