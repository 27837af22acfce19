/**
 * The block walk of one ingest run: a first pass over the window, retries of
 * what failed, and the decision how far the checkpoint may move.
 */
module BlockWalk {
  import opened Options
  import opened BlockRange
  import opened NearBlock
  import opened RpcPool
  import opened Intervals

  const HOLE_RETRY_ROUNDS: nat := 3
  const WEDGE_SKIP_AFTER_RUNS: nat := 2

  /** The fetches of every pass: pass 0 is the first, pass r the r-th retry. */
  type World = (nat, int) -> HeightFetch

  function Fails(world: World, pass: nat, h: int): bool {
    ProcessHeight(world(pass, h)).HeightFailed?
  }

  /** What is left of a batch after one pass over it. */
  function FailedIn(world: World, pass: nat, batch: set<int>): (f: set<int>)
    ensures f <= batch
  {
    set h | h in batch && Fails(world, pass, h)
  }

  /** What still fails after the first pass and `rounds` rounds of retries. */
  function StillFailing(world: World, window: set<int>, rounds: nat): (f: set<int>)
    ensures f <= window
  {
    if rounds == 0 then FailedIn(world, 0, window)
    else FailedIn(world, rounds, StillFailing(world, window, rounds - 1))
  }

  lemma NextRound(world: World, window: set<int>, round: nat)
    ensures StillFailing(world, window, round) ==
            FailedIn(world, round, if round == 0 then window else StillFailing(world, window, round - 1))
  {
  }

  /** What still fails has failed in every pass. */
  lemma {:induction false} FailedEveryPass(world: World, window: set<int>, rounds: nat, h: int)
    ensures h in StillFailing(world, window, rounds) <==>
            h in window && forall pass: nat :: pass <= rounds ==> Fails(world, pass, h)
  {
    if rounds > 0 {
      FailedEveryPass(world, window, rounds - 1, h);
    }
  }

  lemma {:induction false} NothingLeftToRetry(world: World, window: set<int>, rounds: nat, more: nat)
    requires rounds <= more && StillFailing(world, window, rounds) == {}
    ensures StillFailing(world, window, more) == {}
    decreases more
  {
    if rounds < more {
      NothingLeftToRetry(world, window, rounds, more - 1);
    }
  }

  // ----- the checkpoint -------------------------------------------------------

  /** `hc` ends the longest run of completed heights that begins at `start`. */
  ghost predicate IsFrontier(start: int, target: int, completed: set<int>, hc: int) {
    && start - 1 <= hc <= Max(target, start - 1)
    && (forall h :: start <= h <= hc ==> h in completed)
    && (hc < target ==> hc + 1 !in completed)
  }

  function Frontier(start: int, target: int, completed: set<int>): (hc: int)
    ensures IsFrontier(start, target, completed, hc)
    decreases target - start
  {
    if start > target || start !in completed then start - 1
    else Frontier(start + 1, target, completed)
  }

  lemma FrontierUnique(start: int, target: int, completed: set<int>, a: int, b: int)
    requires IsFrontier(start, target, completed, a) && IsFrontier(start, target, completed, b)
    ensures a == b
  {
  }

  predicate Unfetchable(h: int, failed: set<int>, errors: map<int, FetchError>) {
    h in failed && h in errors && IsUnfetchableEverywhere(errors[h])
  }

  /** The wedge: the leading heights that still fail and that nobody can serve. */
  function WedgeEnd(start: int, target: int, failed: set<int>, errors: map<int, FetchError>): (e: int)
    ensures start - 1 <= e <= Max(target, start - 1)
    ensures forall h :: start <= h <= e ==> Unfetchable(h, failed, errors)
    ensures e < target ==> !Unfetchable(e + 1, failed, errors)
    decreases target - start
  {
    if start > target || !Unfetchable(start, failed, errors) then start - 1
    else WedgeEnd(start + 1, target, failed, errors)
  }

  // ----- the wedge counter ----------------------------------------------------

  datatype Wedge = Wedge(frontier: int, stuckRuns: nat)

  const NO_WEDGE := Wedge(-1, 0)

  /** What a finished walk means for the counter. */
  datatype Verdict = Progress | Stuck(frontier: int) | Nothing

  function VerdictOf(start: int, target: int, completed: set<int>, failed: set<int>): Verdict {
    if Frontier(start, target, completed) >= start then Progress
    else if failed != {} then Stuck(start)
    else Nothing
  }

  function Counted(w: Wedge, v: Verdict): Wedge {
    match v
    case Progress => NO_WEDGE
    case Stuck(f) => if w.frontier == f then Wedge(f, w.stuckRuns + 1) else Wedge(f, 1)
    case Nothing => w
  }

  /** The range a run gives up on, if any; `w` is the counter after this run was counted. */
  function WedgeSkip(w: Wedge, v: Verdict, start: int, target: int, failed: set<int>, errors: map<int, FetchError>): Option<Jump> {
    if v.Stuck? && w.stuckRuns >= WEDGE_SKIP_AFTER_RUNS && WedgeEnd(start, target, failed, errors) >= start
    then Some(Jump(start, WedgeEnd(start, target, failed, errors)))
    else None
  }

  /** The checkpoint a run may write after giving up on `skip`. */
  function FrontierAfterSkip(start: int, target: int, completed: set<int>, skip: Jump): int {
    Frontier(start, target, completed + Interval(skip.lo, skip.hi))
  }

  /** A run that skips a wedge moves the checkpoint at least to the end of the wedge. */
  lemma SkipAdvances(w: Wedge, v: Verdict, start: int, target: int, completed: set<int>, failed: set<int>, errors: map<int, FetchError>)
    requires WedgeSkip(w, v, start, target, failed, errors).Some?
    ensures var skip := WedgeSkip(w, v, start, target, failed, errors).value;
      start <= skip.hi <= FrontierAfterSkip(start, target, completed, skip) <= target
  {
  }

  /** A stuck frontier is skipped exactly when it has been stuck long enough and nobody can serve it. */
  lemma SkippedExactly(w: Wedge, v: Verdict, start: int, target: int, failed: set<int>, errors: map<int, FetchError>)
    requires start <= target
    ensures WedgeSkip(w, v, start, target, failed, errors).Some? <==>
            v.Stuck? && w.stuckRuns >= WEDGE_SKIP_AFTER_RUNS && Unfetchable(start, failed, errors)
  {
  }

  // ----- one run, as a function -----------------------------------------------

  /** What still fails when the retries are over. */
  function Left(world: World, start: int, target: int): (f: set<int>)
    ensures f <= Interval(start, target)
  {
    StillFailing(world, Interval(start, target), HOLE_RETRY_ROUNDS)
  }

  function Done(world: World, start: int, target: int): (d: set<int>) {
    Interval(start, target) - Left(world, start, target)
  }

  /** The error each deferred height was last seen with. */
  function LastErrors(world: World, start: int, target: int): (e: map<int, FetchError>)
    ensures e.Keys == Left(world, start, target)
    ensures forall h :: h in e ==> ProcessHeight(world(HOLE_RETRY_ROUNDS, h)) == HeightFailed(e[h])
  {
    LeftFails(world, start, target);
    map h | h in Left(world, start, target) :: ProcessHeight(world(HOLE_RETRY_ROUNDS, h)).error
  }

  lemma LeftFails(world: World, start: int, target: int)
    ensures forall h :: h in Left(world, start, target) ==> ProcessHeight(world(HOLE_RETRY_ROUNDS, h)).HeightFailed?
  {
    forall h | h in Left(world, start, target)
      ensures ProcessHeight(world(HOLE_RETRY_ROUNDS, h)).HeightFailed?
    {
      FailedEveryPass(world, Interval(start, target), HOLE_RETRY_ROUNDS, h);
      assert Fails(world, HOLE_RETRY_ROUNDS, h);
    }
  }

  /** Only the errors of heights that still fail matter. */
  lemma {:induction false} WedgeEndAgrees(start: int, target: int, failed: set<int>, a: map<int, FetchError>, b: map<int, FetchError>)
    requires forall h :: h in failed ==> h in a && h in b && a[h] == b[h]
    ensures WedgeEnd(start, target, failed, a) == WedgeEnd(start, target, failed, b)
    decreases target - start
  {
    if start <= target && Unfetchable(start, failed, a) {
      WedgeEndAgrees(start + 1, target, failed, a, b);
    }
  }

  /** Everything a run keeps. */
  datatype RunState = RunState(scanned: Stored, height: Stored, ledger: set<(int, int)>, wedge: Wedge)

  /** A run that sees the tip at `latest`, from state to state. */
  function AfterRun(s: RunState, latest: int, world: World): RunState {
    var start := StartHeight(s.height, s.scanned, latest);
    match InRunReset(start, latest)
    case Some(jump) =>
      s.(scanned := Numeric(jump.hi), height := Numeric(jump.hi), ledger := s.ledger + {(jump.lo, jump.hi)})
    case None =>
      AfterWalk(s, start, TargetHeight(start, latest), world)
  }

  function AfterWalk(s: RunState, start: int, target: int, world: World): RunState {
    var left, done := Left(world, start, target), Done(world, start, target);
    var v := VerdictOf(start, target, done, left);
    var w := Counted(s.wedge, v);
    match WedgeSkip(w, v, start, target, left, LastErrors(world, start, target))
    case Some(skip) =>
      var hc := FrontierAfterSkip(start, target, done, skip);
      RunState(Numeric(hc), Numeric(hc), s.ledger + {(skip.lo, skip.hi)}, NO_WEDGE)
    case None =>
      var hc := Frontier(start, target, done);
      if hc >= start then s.(scanned := Numeric(hc), height := Numeric(hc), wedge := w) else s.(wedge := w)
  }

  /** Completed and still-failing heights share the window between them, after every round. */
  lemma WalkPartitions(world: World, start: int, target: int, rounds: nat)
    ensures var window := Interval(start, target);
      var failing := StillFailing(world, window, rounds);
      forall h :: h in window ==>
        (h in failing <==> forall pass: nat :: pass <= rounds ==> Fails(world, pass, h))
    ensures Done(world, start, target) + Left(world, start, target) == Interval(start, target)
    ensures Done(world, start, target) !! Left(world, start, target)
  {
    forall h | h in Interval(start, target)
      ensures h in StillFailing(world, Interval(start, target), rounds) <==> forall pass: nat :: pass <= rounds ==> Fails(world, pass, h)
    {
      FailedEveryPass(world, Interval(start, target), rounds, h);
    }
  }

  // ----- what a walk does, in terms of the answers it got ---------------------

  /** A height is done exactly when in some pass it was persisted or nobody had it. */
  lemma DoneExactly(world: World, start: int, target: int, h: int)
    ensures h in Done(world, start, target) <==>
            h in Interval(start, target) && exists pass: nat :: pass <= HOLE_RETRY_ROUNDS && NothingLeftToDo(world(pass, h))
  {
    hide StillFailing, Interval;
    FailedEveryPass(world, Interval(start, target), HOLE_RETRY_ROUNDS, h);
    forall pass: nat ensures Fails(world, pass, h) <==> !NothingLeftToDo(world(pass, h)) { CompletesExactly(world(pass, h)); }
  }

  /** The window: from `start` on, up to the tip, at most 500 heights, fetched four times at most. */
  lemma WindowSize(start: int, latest: int)
    ensures |Interval(start, TargetHeight(start, latest))| == Max(0, Min(500, latest - start + 1))
    ensures HOLE_RETRY_ROUNDS + 1 == 4
  {
  }

  /** A run that is 30 hours behind ledgers everything from its start up to 12 hours behind the tip, and nothing else happens. */
  lemma ResetExactly(s: RunState, latest: int, world: World)
    ensures var start := StartHeight(s.height, s.scanned, latest);
      latest - (start - 1) >= 177_049 ==>
        var hi := latest - 70_820 - 1;
        AfterRun(s, latest, world) == RunState(Numeric(hi), Numeric(hi), s.ledger + {(start, hi)}, s.wedge)
  {
    LagConstants();
    hide LagBlocks, AfterWalk;
  }

  /** The height found nothing in any pass, and in the last its chunk was reported missing everywhere. */
  ghost predicate ChunkGone(world: World, h: int) {
    && (forall pass: nat :: pass <= HOLE_RETRY_ROUNDS ==> !NothingLeftToDo(world(pass, h)))
    && world(HOLE_RETRY_ROUNDS, h).ChunkFailed?
    && IsReportedMissingEverywhere(world(HOLE_RETRY_ROUNDS, h).chunkReply)
  }

  lemma UnfetchableExactly(world: World, start: int, target: int, h: int)
    ensures Unfetchable(h, Left(world, start, target), LastErrors(world, start, target)) <==>
            h in Interval(start, target) && ChunkGone(world, h)
  {
    hide StillFailing, Interval;
    FailedEveryPass(world, Interval(start, target), HOLE_RETRY_ROUNDS, h);
    forall pass: nat ensures Fails(world, pass, h) <==> !NothingLeftToDo(world(pass, h)) { CompletesExactly(world(pass, h)); }
    UnfetchableIsAChunk(world(HOLE_RETRY_ROUNDS, h));
  }

  /** `hi` ends the longest run of heights from `start` whose chunks are gone. */
  ghost predicate EndsTheGone(world: World, start: int, target: int, hi: int) {
    && start <= hi <= target
    && (forall h :: start <= h <= hi ==> ChunkGone(world, h))
    && (hi < target ==> !ChunkGone(world, hi + 1))
  }

  /** `hc` ends the longest run, behind `hi`, of heights that are done. */
  ghost predicate EndsTheDone(world: World, start: int, target: int, hi: int, hc: int) {
    && hi <= hc <= target
    && (forall h :: hi < h <= hc ==> h in Done(world, start, target))
    && (hc < target ==> hc + 1 !in Done(world, start, target))
  }

  lemma GoneIsNotDone(world: World, start: int, target: int, h: int)
    requires ChunkGone(world, h)
    ensures h !in Done(world, start, target)
  {
    DoneExactly(world, start, target, h);
  }

  /** What a stuck walk does to rows, counter and ledger when the counter says it is time. */
  lemma SkipExactly(s: RunState, start: int, target: int, world: World)
    requires start <= target && start !in Done(world, start, target)
    ensures var after := AfterWalk(s, start, target, world);
      var stuckRuns := if s.wedge.frontier == start then s.wedge.stuckRuns + 1 else 1;
      if stuckRuns >= 2 && ChunkGone(world, start)
      then exists hi, hc ::
        && EndsTheGone(world, start, target, hi) && EndsTheDone(world, start, target, hi, hc)
        && after == RunState(Numeric(hc), Numeric(hc), s.ledger + {(start, hi)}, NO_WEDGE)
      else after == s.(wedge := Wedge(start, stuckRuns))
  {
    var hi := WedgeEnd(start, target, Left(world, start, target), LastErrors(world, start, target));
    WedgeIsGone(world, start, target);
    StuckWalk(s, start, target, world);
    hide AfterWalk, Done, Left, LastErrors, WedgeEnd, ChunkGone, EndsTheGone, EndsTheDone;
    if hi >= start {
      SkipLands(world, start, target, hi);
      assert EndsTheDone(world, start, target, hi, FrontierAfterSkip(start, target, Done(world, start, target), Jump(start, hi)));
    }
  }

  lemma WedgeIsGone(world: World, start: int, target: int)
    requires start <= target
    ensures var hi := WedgeEnd(start, target, Left(world, start, target), LastErrors(world, start, target));
      if hi >= start then EndsTheGone(world, start, target, hi) && ChunkGone(world, start) else !ChunkGone(world, start)
  {
    var left, errors := Left(world, start, target), LastErrors(world, start, target);
    forall h ensures Unfetchable(h, left, errors) <==> h in Interval(start, target) && ChunkGone(world, h) {
      UnfetchableExactly(world, start, target, h);
    }
    hide Left, LastErrors, Unfetchable, ChunkGone, WedgeEnd;
  }

  /** A walk that is stuck, in the terms of its wedge. */
  lemma StuckWalk(s: RunState, start: int, target: int, world: World)
    requires start <= target && start !in Done(world, start, target)
    ensures var hi := WedgeEnd(start, target, Left(world, start, target), LastErrors(world, start, target));
      var stuckRuns := if s.wedge.frontier == start then s.wedge.stuckRuns + 1 else 1;
      AfterWalk(s, start, target, world) ==
      if stuckRuns >= WEDGE_SKIP_AFTER_RUNS && hi >= start then
        var hc := FrontierAfterSkip(start, target, Done(world, start, target), Jump(start, hi));
        RunState(Numeric(hc), Numeric(hc), s.ledger + {(start, hi)}, NO_WEDGE)
      else s.(wedge := Wedge(start, stuckRuns))
  {
    var left, done := Left(world, start, target), Done(world, start, target);
    assert start in left;
    assert Frontier(start, target, done) < start;
    hide Left, Done, LastErrors, WedgeEnd, Frontier, FrontierAfterSkip, Unfetchable, Interval;
    assert VerdictOf(start, target, done, left) == Stuck(start);
  }

  lemma SkipLands(world: World, start: int, target: int, hi: int)
    requires start <= hi <= target
    ensures EndsTheDone(world, start, target, hi, FrontierAfterSkip(start, target, Done(world, start, target), Jump(start, hi)))
  {
    hide Done;
    var all := Done(world, start, target) + Interval(start, hi);
    var hc := Frontier(start, target, all);
    forall h | hi < h <= hc ensures h in Done(world, start, target) { assert h in all; }
  }

  /** A walk whose first height is done moves the checkpoint to the end of what is done, and forgets any wedge. */
  lemma AdvanceExactly(s: RunState, start: int, target: int, world: World)
    requires start <= target && start in Done(world, start, target)
    ensures exists hc ::
      && EndsTheDone(world, start, target, start - 1, hc)
      && AfterWalk(s, start, target, world) == s.(scanned := Numeric(hc), height := Numeric(hc), wedge := NO_WEDGE)
  {
    hide Done, Left, LastErrors;
    var hc := Frontier(start, target, Done(world, start, target));
    assert EndsTheDone(world, start, target, start - 1, hc);
    assert VerdictOf(start, target, Done(world, start, target), Left(world, start, target)) == Progress;
    assert AfterWalk(s, start, target, world) == s.(scanned := Numeric(hc), height := Numeric(hc), wedge := NO_WEDGE);
  }

  /** A walk without a window changes nothing. */
  lemma NoWindowNothing(s: RunState, start: int, target: int, world: World)
    requires start > target
    ensures AfterWalk(s, start, target, world) == s
  {
    assert Left(world, start, target) == {};
  }

  /**
   * A wedge does not last: after two runs in a row with the same start, none of
   * which completed it, the second ledgers the heights in front whose chunks are
   * gone, if the start's is, and writes a checkpoint behind them.
   */
  lemma WedgeIsSkipped(s: RunState, latest: int, world: World, latest': int, world': World)
    requires var start := StartHeight(s.height, s.scanned, latest);
      && InRunReset(start, latest) == None && start <= latest
      && start !in Done(world, start, TargetHeight(start, latest))
    requires var start := StartHeight(s.height, s.scanned, latest);
      var s1 := AfterRun(s, latest, world);
      && StartHeight(s1.height, s1.scanned, latest') == start
      && InRunReset(start, latest') == None && start <= latest'
      && ChunkGone(world', start)
    ensures var start := StartHeight(s.height, s.scanned, latest);
      var s1 := AfterRun(s, latest, world);
      var s2 := AfterRun(s1, latest', world');
      exists hi, hc ::
        && EndsTheGone(world', start, TargetHeight(start, latest'), hi)
        && EndsTheDone(world', start, TargetHeight(start, latest'), hi, hc)
        && s2 == RunState(Numeric(hc), Numeric(hc), s1.ledger + {(start, hi)}, NO_WEDGE)
  {
    hide Done, AfterWalk, LagBlocks, ChunkGone, EndsTheGone, EndsTheDone;
    var start := StartHeight(s.height, s.scanned, latest);
    var target, target' := TargetHeight(start, latest), TargetHeight(start, latest');
    SkipExactly(s, start, target, world);
    var s1 := AfterRun(s, latest, world);
    if hi, hc :| EndsTheDone(world, start, target, hi, hc) && EndsTheGone(world, start, target, hi) && s1 == RunState(Numeric(hc), Numeric(hc), s.ledger + {(start, hi)}, NO_WEDGE) {
      SkippedStartMoves(world, start, target, hi, hc);
      assert false;
    }
    GoneIsNotDone(world', start, target', start);
    SkipExactly(s1, start, target', world');
  }

  lemma SkippedStartMoves(world: World, start: int, target: int, hi: int, hc: int)
    requires EndsTheGone(world, start, target, hi) && EndsTheDone(world, start, target, hi, hc)
    ensures forall height, latest :: StartHeight(height, Numeric(hc), latest) > start
  {
  }
}
