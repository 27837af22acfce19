/**
 * Every range that runs add to the ledger has its reason: a reset that was due,
 * a skip-forward that was asked for, or a wedge that several runs of one process
 * in a row were stuck at and that nobody can serve.
 */
module LedgerReasons {
  import opened Options
  import opened BlockRange
  import opened BlockWalk
  import opened NearBlock
  import opened Intervals
  import RpcPool
  import opened CheckpointProtocol

  /** How many runs in a row, up to the last, were stuck at `f`; runs without a window do not count. */
  function Streak(history: seq<Verdict>, f: int): nat
    decreases |history|
  {
    if history == [] then 0
    else
      var earlier := history[..|history| - 1];
      match history[|history| - 1]
      case Nothing => Streak(earlier, f)
      case Progress => 0
      case Stuck(g) => if g == f then 1 + Streak(earlier, f) else 0
  }

  /** What the in-memory counter says of a frontier. */
  function CountAt(w: Wedge, f: int): nat { if w.frontier == f then w.stuckRuns else 0 }

  /** It says of every frontier how many runs in a row were stuck there since the last skip or progress. */
  ghost predicate CountsHonestly(p: Process) {
    forall f :: CountAt(p.wedge, f) == Streak(p.verdicts, f)
  }

  lemma CountingIsHonest(p: Process, v: Verdict)
    requires CountsHonestly(p)
    ensures CountsHonestly(Process(Counted(p.wedge, v), p.verdicts + [v]))
  {
    var q := Process(Counted(p.wedge, v), p.verdicts + [v]);
    assert q.verdicts[..|p.verdicts|] == p.verdicts;
    forall f ensures CountAt(q.wedge, f) == Streak(q.verdicts, f) {
      assert CountAt(p.wedge, f) == Streak(p.verdicts, f);
    }
  }

  /** The height failed in every pass of the run, in the end for want of an endpoint that has its chunk. */
  ghost predicate NobodyServes(world: World, h: int) {
    && (forall pass: nat :: pass <= HOLE_RETRY_ROUNDS ==> Fails(world, pass, h))
    && world(HOLE_RETRY_ROUNDS, h).ChunkFailed?
    && RpcPool.IsReportedMissingEverywhere(world(HOLE_RETRY_ROUNDS, h).chunkReply)
  }

  ghost predicate Grounded(r: Range, why: Reason) {
    r.0 <= r.1 &&
    match why
    case ForceReset(tip) => r.0 >= BACKFILL_START && InRunReset(r.0, tip) == Some(Jump(r.0, r.1))
    case SkippedForward(scanned, tip, hoursBack) => SkipForward(scanned, tip, hoursBack) == Some(Jump(r.0, r.1))
    case Wedged(history, world) =>
      && Streak(history, r.0) >= 2
      && forall h :: r.0 <= h <= r.1 ==> NobodyServes(world, h)
  }

  // ----- a walk in progress, whatever the order its heights settle in ---------

  function Batch(world: World, window: set<int>, pass: nat): set<int> {
    if pass == 0 then window else StillFailing(world, window, pass - 1)
  }

  predicate ErrorsKept(world: World, w: Walk) {
    forall h :: h in w.failed ==> h in w.errors && ProcessHeight(world(w.pass, h)) == HeightFailed(w.errors[h])
  }

  predicate Tracks(world: World, w: Walk) {
    var window := Interval(w.start, w.target);
    var batch := Batch(world, window, w.pass);
    && w.pass <= HOLE_RETRY_ROUNDS
    && w.pending <= batch
    && w.failed == FailedIn(world, w.pass, batch - w.pending)
    && w.done == window - w.pending - w.failed
    && ErrorsKept(world, w)
  }

  lemma SettlingTracks(world: World, w: Walk, h: int)
    requires Tracks(world, w) && h in w.pending
    ensures Tracks(world, Settled(w, world, h))
  {
    hide Interval, ProcessHeight, Batch;
    var batch := Batch(world, Interval(w.start, w.target), w.pass);
    var w' := Settled(w, world, h);
    assert batch - w'.pending == (batch - w.pending) + {h};
    BatchInWindow(world, Interval(w.start, w.target), w.pass);
    assert w'.failed == FailedIn(world, w.pass, batch - w'.pending);
  }

  lemma BatchInWindow(world: World, window: set<int>, pass: nat)
    ensures Batch(world, window, pass) <= window
  {
  }

  lemma RoundTracks(world: World, w: Walk)
    requires Tracks(world, w) && w.pending == {} && MoreRounds(w)
    ensures Tracks(world, w.(pass := w.pass + 1, pending := w.failed, failed := {}))
  {
    hide Interval, ProcessHeight, Fails;
    var window := Interval(w.start, w.target);
    var batch := Batch(world, window, w.pass);
    NextRound(world, window, w.pass);
    assert batch - w.pending == batch;
    assert Batch(world, window, w.pass + 1) == w.failed;
    assert FailedIn(world, w.pass + 1, w.failed - w.failed) == {};
  }

  /** However its heights were scheduled, a finished walk has what the passes leave. */
  lemma FinishedWalk(world: World, w: Walk)
    requires Tracks(world, w) && w.pending == {} && !MoreRounds(w)
    ensures w.failed == Left(world, w.start, w.target) && w.done == Done(world, w.start, w.target)
    ensures WedgeEnd(w.start, w.target, w.failed, w.errors) ==
            WedgeEnd(w.start, w.target, w.failed, LastErrors(world, w.start, w.target))
  {
    hide Interval, ProcessHeight, Fails, FailedIn, WedgeEnd, LastErrors;
    var window := Interval(w.start, w.target);
    var batch := Batch(world, window, w.pass);
    assert batch - w.pending == batch;
    NextRound(world, window, w.pass);
    if w.failed == {} {
      NothingLeftToRetry(world, window, w.pass, HOLE_RETRY_ROUNDS);
    }
    WedgeEndAgrees(w.start, w.target, w.failed, w.errors, LastErrors(world, w.start, w.target));
  }

  // ----- the invariant --------------------------------------------------------

  ghost predicate ActorGrounded(a: Actor) {
    match a.phase
    case Walking(w) => a.role.Ingest? && w.start >= BACKFILL_START && Tracks(a.role.world, w)
    case Asking(plan) => Grounded((plan.jump.lo, plan.jump.hi), plan.reason)
    case Inserting(plan) => Grounded((plan.jump.lo, plan.jump.hi), plan.reason)
    case _ => true
  }

  ghost predicate AllGrounded(s: State, before: map<Range, Reason>) {
    && (forall id :: id in s.actors ==> ActorGrounded(s.actors[id]))
    && (forall p :: p in s.processes ==> CountsHonestly(s.processes[p]))
    && LedgerGrounded(s.db.ledger, before)
  }

  ghost predicate LedgerGrounded(ledger: map<Range, Reason>, before: map<Range, Reason>) {
    forall r :: r in ledger ==> r in before || Grounded(r, ledger[r])
  }

  lemma DecidesGrounded(a: Actor)
    requires a.phase.Reading? && a.phase.scanned.Some? && (a.role.Ingest? ==> a.phase.height.Some?)
    requires Decided(a).Some?
    ensures ActorGrounded(a.(phase := Decided(a).value))
  {
    hide LagBlocks, Streak;
    if a.role.Ingest? && Decided(a).value.Walking? {
      var w := Decided(a).value.walk;
      var window := Interval(w.start, w.target);
      assert FailedIn(a.role.world, 0, window - window) == {};
    }
  }

  /** A wedge is ledgered only on the evidence. */
  lemma ConcludesGrounded(world: World, w: Walk, p: Process)
    requires Tracks(world, w) && w.pending == {} && !MoreRounds(w) && CountsHonestly(p)
    ensures CountsHonestly(Concluded(p, w, world).0)
    ensures var phase := Concluded(p, w, world).1;
      phase.Some? && phase.value.Asking? ==>
        Grounded((phase.value.plan.jump.lo, phase.value.plan.jump.hi), phase.value.plan.reason)
  {
    hide Tracks, Frontier, WedgeEnd, Left, Done, Streak, IsUnfetchableEverywhere, ProcessHeight, Fails, LastErrors, Interval;
    var v := VerdictOf(w.start, w.target, w.done, w.failed);
    CountingIsHonest(p, v);
    FinishedWalk(world, w);
    var phase := Concluded(p, w, world).1;
    if phase.Some? && phase.value.Asking? {
      var plan := phase.value.plan;
      forall h | plan.jump.lo <= h <= plan.jump.hi
        ensures NobodyServes(world, h)
      {
        LastErrorsTell(world, w.start, w.target, h);
      }
    }
  }

  lemma LastErrorsTell(world: World, start: int, target: int, h: int)
    requires Unfetchable(h, Left(world, start, target), LastErrors(world, start, target))
    ensures NobodyServes(world, h)
  {
    hide Interval, StillFailing;
    FailedEveryPass(world, Interval(start, target), HOLE_RETRY_ROUNDS, h);
    UnfetchableIsAChunk(world(HOLE_RETRY_ROUNDS, h));
  }

  lemma MoveKeepsGrounds(db: Db, p: Process, a: Actor, m: Move, before: map<Range, Reason>)
    requires ActorGrounded(a) && CountsHonestly(p) && LedgerGrounded(db.ledger, before)
    requires Act(db, p, a, m).Some?
    ensures var x := Act(db, p, a, m).value;
      && (x.phase.Some? ==> ActorGrounded(a.(phase := x.phase.value)))
      && CountsHonestly(x.process)
      && LedgerGrounded(x.db.ledger, before)
  {
    hide Decided, Concluded, Settled, MoreRounds, Tracks, Grounded, CountsHonestly;
    var x := Act(db, p, a, m).value;
    match a.phase
    case Recorded(_) => CountingIsHonest(p, Progress);
    case Reading(_, _) =>
      if m.Decide? && x.phase.Some? { DecidesGrounded(a); }
    case Walking(w) =>
      if m.Settle? {
        SettlingTracks(a.role.world, w, m.h);
        SettlingKeepsStart(w, a.role.world, m.h);
      } else if MoreRounds(w) {
        RoundTracks(a.role.world, w);
      } else {
        ConcludesGrounded(a.role.world, w, p);
        ConcludesAs(p, w, a.role.world);
      }
    case _ =>
  }

  lemma SettlingKeepsStart(w: Walk, world: World, h: int)
    requires h in w.pending
    ensures Settled(w, world, h).start == w.start
  {
  }

  lemma ConcludesAs(p: Process, w: Walk, world: World)
    ensures var phase := Concluded(p, w, world).1;
      phase.Some? ==>
        || phase.value.Writing?
        || (phase.value.Asking? && phase.value.plan.jump.lo == w.start &&
            phase.value.plan.reason == Wedged(p.verdicts + [Stuck(w.start)], world))
  {
  }

  lemma StepKeepsGrounds(s: State, e: Event, before: map<Range, Reason>)
    requires AllGrounded(s, before) && Step(s, e).Some?
    ensures AllGrounded(Step(s, e).value, before)
  {
    hide Act, ActorGrounded, CountsHonestly, LedgerGrounded;
    var s' := Step(s, e).value;
    match e
    case Boot(p) => assert CountsHonestly(s'.processes[p]) by { FreshProcessHonest(); }
    case Crash(_) =>
    case Begin(id, _, _, _) => NewRunGrounded(s'.actors[id]);
    case Fail(_) =>
    case Do(id, m) =>
      var a := s.actors[id];
      MoveKeepsGrounds(s.db, s.processes[a.process], a, m, before);
  }

  lemma FreshProcessHonest()
    ensures CountsHonestly(Process(NO_WEDGE, []))
  {
  }

  lemma NewRunGrounded(a: Actor)
    requires a.phase == Reading(None, None)
    ensures ActorGrounded(a)
  {
  }

  /** What holds before anything runs: no run, and every process just booted. */
  predicate JustBooted(s: State) {
    AtRest(s) && forall p :: p in s.processes ==> s.processes[p] == Process(NO_WEDGE, [])
  }

  /** Nothing enters the ledger without its reason, in any interleaving. */
  lemma {:induction false} LedgerIsGrounded(s: State, events: seq<Event>)
    requires JustBooted(s) && Exec(s, events).Some?
    ensures var ledger := Exec(s, events).value.db.ledger;
      forall r :: r in ledger ==> r in s.db.ledger || Grounded(r, ledger[r])
  {
    hide Exec, Grounded;
    assert AllGrounded(s, s.db.ledger) by { FreshProcessHonest(); }
    RunKeepsGrounds(s, events, s.db.ledger);
  }

  lemma {:induction false} RunKeepsGrounds(s: State, events: seq<Event>, before: map<Range, Reason>)
    requires AllGrounded(s, before) && Exec(s, events).Some?
    ensures AllGrounded(Exec(s, events).value, before)
    decreases |events|
  {
    hide Step, AllGrounded;
    if events != [] {
      StepKeepsGrounds(s, events[0], before);
      RunKeepsGrounds(Step(s, events[0]).value, events[1..], before);
    }
  }

  /** After any events of any runs the counter of a process equals its runs stuck in a row, at every frontier. */
  lemma CounterIsExact(s: State, events: seq<Event>, p: nat, f: int)
    requires JustBooted(s) && Exec(s, events).Some? && p in Exec(s, events).value.processes
    ensures var process := Exec(s, events).value.processes[p];
      (if process.wedge.frontier == f then process.wedge.stuckRuns else 0) == Streak(process.verdicts, f)
  {
    hide Exec, Streak;
    assert AllGrounded(s, s.db.ledger) by { FreshProcessHonest(); }
    RunKeepsGrounds(s, events, s.db.ledger);
    var process := Exec(s, events).value.processes[p];
    assert CountAt(process.wedge, f) == Streak(process.verdicts, f);
  }

  /** The verdict of a finished walk: whether its first height is done, or whether it has none. */
  lemma VerdictExactly(world: World, w: Walk)
    requires Tracks(world, w) && w.pending == {} && !MoreRounds(w)
    ensures VerdictOf(w.start, w.target, w.done, w.failed) ==
            if w.start > w.target then Nothing
            else if w.start in Done(world, w.start, w.target) then Progress
            else Stuck(w.start)
  {
    FinishedWalk(world, w);
    hide Tracks, FailedIn, StillFailing;
    if w.start <= w.target && w.start !in w.done {
      assert w.start in w.failed;
    }
    assert w.start > w.target ==> w.failed == {};
  }
}
