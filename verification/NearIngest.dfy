/**
 * One ingest run as it is written: loops over heights, sets and lists that
 * grow, the in-memory wedge counter, and the checkpoint and ledger rows.
 */
module NearIngest {
  import opened Options
  import opened BlockRange
  import opened BlockWalk
  import opened NearBlock
  import opened Intervals

  /** The rows a run reads and writes. */
  class Store {
    var scanned: Stored
    var height: Stored
    var ledger: set<(int, int)>

    constructor (scanned: Stored, height: Stored)
      ensures this.scanned == scanned && this.height == height && ledger == {}
    {
      this.scanned, this.height, ledger := scanned, height, {};
    }
  }

  datatype Report =
    | NoTip
    | ResetTo(hi: int)
    | Walked(start: int, target: int, persisted: int, deferred: seq<int>)

  class Service {
    const store: Store
    var wedgeFrontier: int
    var wedgeStuckRuns: nat

    constructor (store: Store)
      ensures this.store == store && Counter() == NO_WEDGE
    {
      this.store, wedgeFrontier, wedgeStuckRuns := store, -1, 0;
    }

    function Counter(): Wedge
      reads this
    {
      Wedge(wedgeFrontier, wedgeStuckRuns)
    }

    /** One pass over a batch; heights finish in any order. */
    method RunHeights(batch: seq<int>, world: World, pass: nat, completed: set<int>, errors: map<int, FetchError>)
      returns (failed: seq<int>, completed': set<int>, errors': map<int, FetchError>)
      requires Distinct(batch)
      ensures Elements(failed) == FailedIn(world, pass, Elements(batch))
      ensures Distinct(failed)
      ensures completed' == completed + (Elements(batch) - Elements(failed))
      ensures Recorded(world, pass, failed, errors')
    {
      failed, completed', errors' := [], completed, errors;
      var pending := Elements(batch);
      while pending != {}
        invariant pending <= Elements(batch)
        invariant Elements(failed) == FailedIn(world, pass, Elements(batch) - pending)
        invariant Distinct(failed)
        invariant completed' == completed + (Elements(batch) - pending - Elements(failed))
        invariant Recorded(world, pass, failed, errors')
      {
        assert exists x :: x in pending by { var x := Member(pending); }
        var h :| h in pending;
        pending := pending - {h};
        match ProcessHeight(world(pass, h)) {
          case Completed =>
            completed' := completed' + {h};
          case HeightFailed(error) =>
            failed := failed + [h];
            errors' := errors'[h := error];
        }
      }
      assert Elements(batch) - pending == Elements(batch);
    }

    /** The rows and the counter, as a value. */
    function State(): RunState
      reads this, store
    {
      RunState(store.scanned, store.height, store.ledger, Counter())
    }

    method Heights(start: int, target: int) returns (heights: seq<int>)
      ensures Elements(heights) == Interval(start, target) && Distinct(heights)
    {
      heights := [];
      var h := start;
      while h <= target
        invariant start <= h && (h <= target + 1 || h == start)
        invariant Elements(heights) == Interval(start, h - 1)
        invariant Distinct(heights)
        decreases target - h
      {
        heights := heights + [h];
        h := h + 1;
      }
      assert Interval(start, h - 1) == Interval(start, target);
    }

    /** The first pass and the retries of its holes. */
    method WalkWindow(start: int, target: int, world: World)
      returns (failed: seq<int>, completed: set<int>, errors: map<int, FetchError>)
      ensures Elements(failed) == Left(world, start, target)
      ensures completed == Done(world, start, target)
      ensures Recorded(world, HOLE_RETRY_ROUNDS, failed, errors)
    {
      hide FailedIn, Recorded, Distinct, Fails, ProcessHeight, Interval, StillFailing, Elements;
      var heights := Heights(start, target);
      ghost var window := Elements(heights);
      failed, completed, errors := RunHeights(heights, world, 0, {}, map[]);
      NextRound(world, window, 0);
      var round := 1;
      while round <= HOLE_RETRY_ROUNDS && |failed| > 0
        invariant 1 <= round <= HOLE_RETRY_ROUNDS + 1
        invariant Elements(failed) == StillFailing(world, window, round - 1)
        invariant Distinct(failed)
        invariant completed == window - Elements(failed)
        invariant Recorded(world, round - 1, failed, errors)
      {
        ghost var before := Elements(failed);
        failed, completed, errors := RunHeights(failed, world, round, completed, errors);
        assert completed == window - Elements(failed);
        assert Elements(failed) == StillFailing(world, window, round) by { NextRound(world, window, round); }
        round := round + 1;
      }
      if |failed| == 0 {
        NothingLeftToRetry(world, window, round - 1, HOLE_RETRY_ROUNDS);
        NothingRecorded(world, HOLE_RETRY_ROUNDS, errors);
      }
    }

    /** The loop that finds where the run of completed heights ends. */
    method FindFrontier(start: int, target: int, completed: set<int>) returns (hc: int)
      ensures hc == Frontier(start, target, completed)
    {
      hc := start - 1;
      var h := start;
      while h <= target
        invariant hc == h - 1 && start <= h
        invariant Frontier(start, target, completed) == Frontier(h, target, completed)
        decreases target - h
      {
        if h !in completed { break; }
        hc := h;
        h := h + 1;
      }
    }

    /** The loop that finds how far the wedge reaches. */
    method FindWedge(start: int, target: int, failed: set<int>, errors: map<int, FetchError>) returns (wedgeEnd: int)
      ensures wedgeEnd == WedgeEnd(start, target, failed, errors)
    {
      wedgeEnd := start - 1;
      var h := start;
      while h <= target
        invariant wedgeEnd == h - 1 && start <= h
        invariant WedgeEnd(start, target, failed, errors) == WedgeEnd(h, target, failed, errors)
        decreases target - h
      {
        if !Unfetchable(h, failed, errors) { break; }
        wedgeEnd := h;
        h := h + 1;
      }
    }

    /** Idempotent on the pair of heights. */
    method RecordSkippedRange(lo: int, hi: int)
      modifies store`ledger
      ensures store.ledger == old(store.ledger) + {(lo, hi)}
    {
      if (lo, hi) in store.ledger { return; }
      store.ledger := store.ledger + {(lo, hi)};
    }

    method PersistCheckpoints(h: int)
      modifies store`scanned, store`height
      ensures store.scanned == Numeric(h) && store.height == Numeric(h)
    {
      store.height, store.scanned := Numeric(h), Numeric(h);
    }

    /** Counts a finished walk. */
    method CountRun(start: int, highestContiguous: int, failed: seq<int>) returns (stuck: bool)
      modifies this`wedgeFrontier, this`wedgeStuckRuns
      ensures var v := if highestContiguous >= start then Progress else if failed != [] then Stuck(start) else Nothing;
        stuck == v.Stuck? && Counter() == Counted(old(Counter()), v)
    {
      stuck := false;
      if highestContiguous >= start {
        wedgeFrontier, wedgeStuckRuns := -1, 0;
      } else if |failed| > 0 {
        stuck := true;
        if wedgeFrontier == start {
          wedgeStuckRuns := wedgeStuckRuns + 1;
        } else {
          wedgeFrontier, wedgeStuckRuns := start, 1;
        }
      }
    }

    /** Gives up on the wedge in front of a frontier stuck for long enough. */
    method SkipWedge(start: int, target: int, failed: seq<int>, completed: set<int>, errors: map<int, FetchError>)
      returns (skip: Option<Jump>, highestContiguous: int, deferred: seq<int>)
      requires Frontier(start, target, completed) < start && failed != []
      modifies this`wedgeFrontier, this`wedgeStuckRuns, store`ledger
      ensures skip == WedgeSkip(old(Counter()), Stuck(start), start, target, Elements(failed), errors)
      ensures skip.None? ==>
        highestContiguous == Frontier(start, target, completed) && deferred == failed &&
        Counter() == old(Counter()) && store.ledger == old(store.ledger)
      ensures skip.Some? ==>
        highestContiguous == FrontierAfterSkip(start, target, completed, skip.value) &&
        (forall h :: h in deferred <==> h in failed && h > skip.value.hi) &&
        Counter() == NO_WEDGE && store.ledger == old(store.ledger) + {(skip.value.lo, skip.value.hi)}
    {
      skip, highestContiguous, deferred := None, start - 1, failed;
      if wedgeStuckRuns >= WEDGE_SKIP_AFTER_RUNS {
        var wedgeEnd := FindWedge(start, target, Elements(failed), errors);
        if wedgeEnd >= start {
          skip := Some(Jump(start, wedgeEnd));
          RecordSkippedRange(start, wedgeEnd);
          deferred := [];
          for i := 0 to |failed|
            invariant forall h :: h in deferred <==> h in failed[..i] && h > wedgeEnd
          {
            if failed[i] > wedgeEnd { deferred := deferred + [failed[i]]; }
          }
          highestContiguous := FindFrontier(start, target, completed + Interval(start, wedgeEnd));
          wedgeFrontier, wedgeStuckRuns := -1, 0;
        }
      }
    }

    /** Walks a window, decides how far the checkpoint may move, and moves it. */
    method Walk(start: int, target: int, world: World) returns (highestContiguous: int, deferred: seq<int>)
      modifies this`wedgeFrontier, this`wedgeStuckRuns, store
      ensures State() == AfterWalk(old(State()), start, target, world)
      ensures if highestContiguous >= start
              then store.scanned == Numeric(highestContiguous) && store.height == Numeric(highestContiguous)
              else store.scanned == old(store.scanned) && store.height == old(store.height)
      ensures forall h :: h in deferred ==> h in Left(world, start, target)
      ensures forall h :: h in Left(world, start, target) && h !in deferred ==> h <= highestContiguous
    {
      hide Left, Done, LastErrors, Frontier, WedgeEnd, Counted;
      var failed, completed, errors := WalkWindow(start, target, world);
      highestContiguous := FindFrontier(start, target, completed);
      var stuck := CountRun(start, highestContiguous, failed);
      assert Counter() == Counted(old(Counter()), VerdictOf(start, target, completed, Elements(failed)));
      WedgeEndAgrees(start, target, Elements(failed), errors, LastErrors(world, start, target));
      deferred := failed;
      if stuck {
        var skip;
        skip, highestContiguous, deferred := SkipWedge(start, target, failed, completed, errors);
      }
      if highestContiguous >= start {
        PersistCheckpoints(highestContiguous);
      }
    }

    /** A whole run: the new rows and counter are those of `AfterRun`, and the report names what was left over. */
    method RunOnce(latest: Option<int>, world: World) returns (report: Report)
      modifies this`wedgeFrontier, this`wedgeStuckRuns, store
      ensures latest == None ==> report == NoTip && State() == old(State())
      ensures latest.Some? ==> report != NoTip && State() == AfterRun(old(State()), latest.value, world)
      ensures latest.Some? ==>
        var start := StartHeight(old(store.height), old(store.scanned), latest.value);
        match InRunReset(start, latest.value)
        case Some(jump) => report == ResetTo(jump.hi)
        case None => report.Walked? && report.start == start && report.target == TargetHeight(start, latest.value)
      ensures report.ResetTo? ==> store.scanned == Numeric(report.hi)
      ensures report.Walked? ==>
        if report.persisted >= report.start
        then store.scanned == Numeric(report.persisted) && store.height == Numeric(report.persisted)
        else store.scanned == old(store.scanned) && store.height == old(store.height)
      ensures report.Walked? ==>
        (forall h :: h in report.deferred ==> h in Left(world, report.start, report.target)) &&
        (forall h :: h in Left(world, report.start, report.target) && h !in report.deferred ==> h <= report.persisted)
    {
      hide LagBlocks, StartHeight, Left, AfterWalk;
      if latest == None { return NoTip; }
      var tip := latest.value;
      var start := StartHeight(store.height, store.scanned, tip);
      var lag := tip - (start - 1);
      if lag >= FORCE_RESET_LAG {
        var skipTarget := tip - SKIP_TARGET_LAG;
        if skipTarget > start {
          RecordSkippedRange(start, skipTarget - 1);
          PersistCheckpoints(skipTarget - 1);
          return ResetTo(skipTarget - 1);
        }
      }
      var target := TargetHeight(start, tip);
      var persisted, deferred := Walk(start, target, world);
      return Walked(start, target, persisted, deferred);
    }
  }

  /** The failures of a pass, with the error each height was last seen with. */
  ghost predicate Recorded(world: World, pass: nat, failed: seq<int>, errors: map<int, FetchError>) {
    forall h :: h in failed ==> h in errors && ProcessHeight(world(pass, h)) == HeightFailed(errors[h])
  }

  lemma NothingRecorded(world: World, pass: nat, errors: map<int, FetchError>)
    ensures Recorded(world, pass, [], errors)
  {
  }

  predicate Distinct(s: seq<int>) {
    forall i, j :: 0 <= i < j < |s| ==> s[i] != s[j]
  }

  function Elements(s: seq<int>): (e: set<int>)
    ensures forall x :: x in e <==> x in s
    ensures e == {} <==> s == []
  {
    assert s != [] ==> s[0] in s;
    set x | x in s
  }
}
