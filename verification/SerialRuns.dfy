/**
 * When the scanned checkpoint falls: never but by a stale run that writes below
 * what is stored, so never with one run at a time. It never passes the tip. A run
 * that is left alone does what `AfterRun` says.
 */
module SerialRuns {
  import opened Options
  import opened BlockRange
  import opened BlockWalk
  import opened NearBlock
  import opened Intervals
  import opened CheckpointProtocol
  import opened LedgerReasons

  ghost predicate AtMostOne(s: State) {
    forall i, j :: i in s.actors && j in s.actors ==> i == j
  }

  /** At every moment of these events at most one run is in progress. */
  ghost predicate Serial(s: State, events: seq<Event>)
    decreases |events|
  {
    && AtMostOne(s)
    && (events != [] ==> Step(s, events[0]).Some? && Serial(Step(s, events[0]).value, events[1..]))
  }

  /** Nobody asks skip-forward for so few hours that it would jump past the tip. */
  predicate SaneHours(events: seq<Event>) {
    forall k :: 0 <= k < |events| ==> Sane(events[k])
  }

  predicate Sane(e: Event) {
    e.Begin? && e.role.SkipForwarding? ==> LagBlocks(e.role.hoursBack) >= -1
  }

  predicate NotLower(a: Stored, b: Stored) {
    a.Numeric? ==> b.Numeric? && a.n <= b.n
  }

  predicate Below(v: Stored, h: int) {
    v.Numeric? ==> v.n < h
  }

  /** What the run has read is what is stored, and it will only write higher. */
  ghost predicate UpToDate(db: Db, a: Actor) {
    match a.phase
    case Reading(scanned, _) => scanned.Some? ==> scanned.value == db.scanned
    case Walking(w) => Below(db.scanned, w.start) && w.target <= a.tip
    case Asking(plan) => Below(db.scanned, plan.hc)
    case Inserting(plan) => Below(db.scanned, plan.hc)
    case Recorded(plan) => Below(db.scanned, plan.hc)
    case Writing(hc, _, _) => Below(db.scanned, hc + 1)
  }

  /** What it will write is no higher than the tip it saw. */
  ghost predicate Capped(a: Actor) {
    match a.phase
    case Reading(_, _) => a.role.SkipForwarding? ==> LagBlocks(a.role.hoursBack) >= -1
    case Walking(w) => w.target <= a.tip
    case Asking(plan) => plan.hc <= a.tip
    case Inserting(plan) => plan.hc <= a.tip
    case Recorded(plan) => plan.hc <= a.tip
    case Writing(hc, _, _) => hc <= a.tip
  }

  lemma DecidesUpToDate(db: Db, a: Actor)
    requires a.phase.Reading? && a.phase.scanned.Some? && (a.role.Ingest? ==> a.phase.height.Some?)
    requires UpToDate(db, a) && Decided(a).Some?
    ensures UpToDate(db, a.(phase := Decided(a).value))
  {
    hide LagBlocks, Interval;
  }

  lemma DecidesCapped(a: Actor)
    requires a.phase.Reading? && a.phase.scanned.Some? && (a.role.Ingest? ==> a.phase.height.Some?)
    requires Capped(a) && Decided(a).Some?
    ensures Capped(a.(phase := Decided(a).value))
  {
    hide Interval;
    LagConstants();
    hide LagBlocks;
  }

  /** A finished walk writes into its window. */
  lemma ConcludesInWindow(p: Process, w: Walk, world: World)
    ensures var phase := Concluded(p, w, world).1;
      phase.Some? ==>
        || (phase.value.Asking? && w.start <= phase.value.plan.hc <= w.target)
        || (phase.value.Writing? && w.start <= phase.value.hc <= w.target)
  {
    hide Counted, Frontier, WedgeEnd, Unfetchable;
  }

  lemma SettlingKeepsWindow(w: Walk, world: World, h: int)
    requires h in w.pending
    ensures var w' := Settled(w, world, h);
      w'.start == w.start && w'.target == w.target && w'.pass == w.pass
  {
  }

  lemma MoveRises(db: Db, p: Process, a: Actor, m: Move)
    requires UpToDate(db, a) && Act(db, p, a, m).Some?
    ensures var x := Act(db, p, a, m).value;
      NotLower(db.scanned, x.db.scanned) && (x.phase.Some? ==> UpToDate(x.db, a.(phase := x.phase.value)))
  {
    hide Decided, Concluded, Settled, MoreRounds, Interval;
    var x := Act(db, p, a, m).value;
    match a.phase
    case Reading(_, _) =>
      if m.Decide? && x.phase.Some? { DecidesUpToDate(db, a); }
    case Walking(w) =>
      if m.Settle? { SettlingKeepsWindow(w, a.role.world, m.h); }
      else if !MoreRounds(w) { ConcludesInWindow(p, w, a.role.world); }
    case _ =>
  }

  lemma MoveStaysCapped(db: Db, p: Process, a: Actor, m: Move)
    requires Capped(a) && Act(db, p, a, m).Some?
    ensures var x := Act(db, p, a, m).value;
      && (x.phase.Some? ==> Capped(a.(phase := x.phase.value)))
      && (x.db.scanned == db.scanned || (x.db.scanned.Numeric? && x.db.scanned.n <= a.tip))
  {
    hide Decided, Concluded, Settled, MoreRounds, Interval, LagBlocks;
    var x := Act(db, p, a, m).value;
    match a.phase
    case Reading(_, _) =>
      if m.Decide? && x.phase.Some? { DecidesCapped(a); }
    case Walking(w) =>
      if m.Settle? { SettlingKeepsWindow(w, a.role.world, m.h); }
      else if !MoreRounds(w) { ConcludesInWindow(p, w, a.role.world); }
    case _ =>
  }

  lemma NewRunUpToDate(db: Db, a: Actor)
    requires a.phase.Reading? && a.phase.scanned.None?
    ensures UpToDate(db, a)
  {
  }

  // ----- stale runs -----------------------------------------------------------

  predicate HasRead(a: Actor) {
    !(a.phase.Reading? && a.phase.scanned.None?)
  }

  predicate WritesScanned(e: Event) {
    e.Do? && (e.move.WriteScanned? || e.move.WriteBoth?)
  }

  /** The runs whose reading of the scanned checkpoint another run has overwritten since. */
  function StaleAfter(s: State, stale: set<nat>, e: Event): set<nat> {
    if WritesScanned(e) then stale + set i | i in s.actors && i != e.id && HasRead(s.actors[i])
    else if e.Begin? then stale - {e.id}
    else stale
  }

  ghost predicate Current(s: State, stale: set<nat>) {
    forall id :: id in s.actors && id !in stale ==> UpToDate(s.db, s.actors[id])
  }

  /** What the writer is about to write is no lower than what is stored. */
  predicate HighEnough(s: State, e: Event)
    requires e.Do?
  {
    e.id in s.actors && s.actors[e.id].phase.Writing? && s.db.scanned.Numeric? ==> s.db.scanned.n <= s.actors[e.id].phase.hc
  }

  lemma OnlyWritesMove(db: Db, p: Process, a: Actor, m: Move)
    requires Act(db, p, a, m).Some?
    ensures var after := Act(db, p, a, m).value.db.scanned;
      if m.WriteScanned? || m.WriteBoth? then a.phase.Writing? && after == Numeric(a.phase.hc) else after == db.scanned
  {
    hide Decided, Concluded, Settled, MoreRounds, Interval;
  }

  /** What one run writes leaves a run up to date that has not read yet; nothing else concerns it. */
  lemma StaysUpToDate(db: Db, db': Db, a: Actor)
    requires UpToDate(db, a) && (db.scanned == db'.scanned || !HasRead(a))
    ensures UpToDate(db', a)
  {
  }

  /** An event lowers the checkpoint only as a write of a stale run, and only if that is too low. */
  lemma StepFallsExactly(s: State, stale: set<nat>, e: Event)
    requires Current(s, stale) && Step(s, e).Some?
    ensures Current(Step(s, e).value, StaleAfter(s, stale, e))
    ensures NotLower(s.db.scanned, Step(s, e).value.db.scanned) <==>
            (WritesScanned(e) && e.id in stale ==> HighEnough(s, e))
  {
    hide Act, UpToDate;
    var s' := Step(s, e).value;
    match e
    case Begin(id, _, _, _) => NewRunUpToDate(s'.db, s'.actors[id]);
    case Do(id, m) =>
      var a := s.actors[id];
      var p := s.processes[a.process];
      OnlyWritesMove(s.db, p, a, m);
      if id !in stale { MoveRises(s.db, p, a, m); }
      forall i | i in s'.actors && i !in StaleAfter(s, stale, e)
        ensures UpToDate(s'.db, s'.actors[i])
      {
        if i != id { StaysUpToDate(s.db, s'.db, s.actors[i]); }
      }
    case _ =>
  }

  /** No step of these events lowers the scanned checkpoint. */
  ghost predicate NeverFalls(s: State, events: seq<Event>)
    decreases |events|
  {
    events != [] && Step(s, events[0]).Some? ==>
      NotLower(s.db.scanned, Step(s, events[0]).value.db.scanned) && NeverFalls(Step(s, events[0]).value, events[1..])
  }

  /** Stale runs write nothing lower than what is stored. */
  ghost predicate StaleWritesRise(s: State, stale: set<nat>, events: seq<Event>)
    decreases |events|
  {
    events != [] && Step(s, events[0]).Some? ==>
      && (WritesScanned(events[0]) && events[0].id in stale ==> HighEnough(s, events[0]))
      && StaleWritesRise(Step(s, events[0]).value, StaleAfter(s, stale, events[0]), events[1..])
  }

  /** Under any interleaving the checkpoint never falls, exactly when no stale run writes below what is stored. */
  lemma {:induction false} FallsExactly(s: State, stale: set<nat>, events: seq<Event>)
    requires Current(s, stale) && Exec(s, events).Some?
    ensures NeverFalls(s, events) <==> StaleWritesRise(s, stale, events)
    decreases |events|
  {
    hide Step, Current, StaleAfter, NotLower, HighEnough;
    if events != [] {
      StepFallsExactly(s, stale, events[0]);
      FallsExactly(Step(s, events[0]).value, StaleAfter(s, stale, events[0]), events[1..]);
    }
  }

  lemma {:induction false} NeverFallsToTheEnd(s: State, events: seq<Event>)
    requires NeverFalls(s, events) && Exec(s, events).Some?
    ensures NotLower(s.db.scanned, Exec(s, events).value.db.scanned)
    decreases |events|
  {
    hide Step;
    if events != [] { NeverFallsToTheEnd(Step(s, events[0]).value, events[1..]); }
  }

  /** With one run at a time nothing is ever stale. */
  lemma {:induction false} SerialIsNeverStale(s: State, events: seq<Event>)
    requires Serial(s, events)
    ensures StaleWritesRise(s, {}, events)
    decreases |events|
  {
    hide Step;
    if events != [] {
      assert StaleAfter(s, {}, events[0]) == {} by { SerialWriterIsAlone(s, events[0]); }
      SerialIsNeverStale(Step(s, events[0]).value, events[1..]);
    }
  }

  lemma SerialWriterIsAlone(s: State, e: Event)
    requires AtMostOne(s) && Step(s, e).Some?
    ensures StaleAfter(s, {}, e) == {}
  {
    hide Act;
  }

  /** Runs that do not overlap never lower the scanned checkpoint, wherever they are cut short. */
  lemma SerialRunsNeverLower(s: State, events: seq<Event>)
    requires Current(s, {}) && Serial(s, events) && Exec(s, events).Some?
    ensures NeverFalls(s, events) && NotLower(s.db.scanned, Exec(s, events).value.db.scanned)
  {
    hide Exec, Serial, NeverFalls, StaleWritesRise, Current;
    SerialIsNeverStale(s, events);
    FallsExactly(s, {}, events);
    NeverFallsToTheEnd(s, events);
  }

  // ----- the tip, under any interleaving --------------------------------------

  ghost predicate AllCapped(s: State) {
    forall id :: id in s.actors ==> Capped(s.actors[id]) && s.actors[id].tip <= s.highestTip
  }

  /** Every checkpoint that is written is one that some run saw below the tip. */
  ghost predicate NoHigherThan(before: Stored, now: Stored, tip: int) {
    now == before || (now.Numeric? && now.n <= tip)
  }

  lemma StepStaysCapped(s: State, e: Event, before: Stored)
    requires AllCapped(s) && Sane(e) && Step(s, e).Some?
    requires NoHigherThan(before, s.db.scanned, s.highestTip)
    ensures AllCapped(Step(s, e).value)
    ensures NoHigherThan(before, Step(s, e).value.db.scanned, Step(s, e).value.highestTip)
  {
    hide Act, Capped, LagBlocks;
    var s' := Step(s, e).value;
    match e
    case Begin(id, _, _, _) =>
      NewRunCapped(s'.actors[id]);
    case Do(id, m) =>
      var a := s.actors[id];
      MoveStaysCapped(s.db, s.processes[a.process], a, m);
    case _ =>
  }

  lemma NewRunCapped(a: Actor)
    requires a.phase == Reading(None, None)
    requires a.role.SkipForwarding? ==> LagBlocks(a.role.hoursBack) >= -1
    ensures Capped(a)
  {
  }

  lemma {:induction false} NeverPastTheTip(s: State, events: seq<Event>, before: Stored)
    requires AllCapped(s) && SaneHours(events) && Exec(s, events).Some?
    requires NoHigherThan(before, s.db.scanned, s.highestTip)
    ensures NoHigherThan(before, Exec(s, events).value.db.scanned, Exec(s, events).value.highestTip)
    decreases |events|
  {
    hide Step, AllCapped, Sane, NoHigherThan;
    if events != [] {
      assert Sane(events[0]);
      StepStaysCapped(s, events[0], before);
      assert SaneHours(events[1..]);
      NeverPastTheTip(Step(s, events[0]).value, events[1..], before);
    }
  }

  /** Before anything runs, all of this holds. */
  lemma SerialAndCapped(s: State, events: seq<Event>)
    requires AtRest(s) && Exec(s, events).Some?
    ensures NeverFalls(s, events) <==> StaleWritesRise(s, {}, events)
    ensures Serial(s, events) ==> NotLower(s.db.scanned, Exec(s, events).value.db.scanned)
    ensures SaneHours(events) ==>
      NoHigherThan(s.db.scanned, Exec(s, events).value.db.scanned, Exec(s, events).value.highestTip)
  {
    hide Exec, Serial, NeverFalls, StaleWritesRise;
    FallsExactly(s, {}, events);
    if Serial(s, events) { SerialRunsNeverLower(s, events); }
    if SaneHours(events) { NeverPastTheTip(s, events, s.db.scanned); }
  }

  // ----- overlapping runs -----------------------------------------------------

  function Healthy(pass: nat, h: int): HeightFetch { Persisted }

  const FIRST: int := BACKFILL_START + 11
  const TIP: int := BACKFILL_START + 100_000
  const OVERTAKEN: int := TIP - 70_820 - 1
  const PLAN := Plan(Jump(FIRST, OVERTAKEN), OVERTAKEN, SkippedForward(FIRST - 1, TIP, 12.0))

  /** An ingest run with a window of one height. */
  function Slow(phase: Phase): Actor { Actor(0, Ingest(Healthy), FIRST, phase) }

  /** A skip-forward that overtakes it. */
  function Fast(phase: Phase): Actor { Actor(1, SkipForwarding(12.0), TIP, phase) }

  const IDLE := Process(NO_WEDGE, [])
  const DB0 := Db(Numeric(FIRST - 1), Numeric(FIRST - 1), map[], {})
  const DB1 := DB0.(processed := {FIRST})
  const DB2 := DB1.(ledger := map[(FIRST, OVERTAKEN) := PLAN.reason])
  const DB3 := DB2.(scanned := Numeric(OVERTAKEN))

  function Moves(id: nat, moves: seq<Move>): (es: seq<Event>)
    ensures |es| == |moves| && forall k :: 0 <= k < |moves| ==> es[k] == Do(id, moves[k])
  {
    seq(|moves|, k requires 0 <= k < |moves| => Do(id, moves[k]))
  }

  /** Some moves of one run in a row. */
  function Play(db: Db, p: Process, a: Actor, moves: seq<Move>): Option<Effect>
    decreases |moves|
  {
    if moves == [] then Some(Effect(db, p, Some(a.phase)))
    else
      match Act(db, p, a, moves[0])
      case None => None
      case Some(x) =>
        if x.phase.Some? then Play(x.db, x.process, a.(phase := x.phase.value), moves[1..])
        else if |moves| == 1 then Some(x) else None
  }

  /** The state when run `id` has had effect `x`. */
  function Embed(s: State, id: nat, x: Effect): State
    requires id in s.actors
  {
    s.(db := x.db, processes := s.processes[s.actors[id].process := x.process], actors := WithPhase(s.actors, id, x.phase))
  }

  lemma {:induction false} PlayIsExec(s: State, id: nat, moves: seq<Move>)
    requires id in s.actors && s.actors[id].process in s.processes
    requires Play(s.db, s.processes[s.actors[id].process], s.actors[id], moves).Some?
    ensures Exec(s, Moves(id, moves))
         == Some(Embed(s, id, Play(s.db, s.processes[s.actors[id].process], s.actors[id], moves).value))
    decreases |moves|
  {
    hide Act;
    var a := s.actors[id];
    var p := s.processes[a.process];
    if moves == [] {
      assert Embed(s, id, Effect(s.db, p, Some(a.phase))) == s;
    } else {
      assert Moves(id, moves)[1..] == Moves(id, moves[1..]);
      var x := Act(s.db, p, a, moves[0]).value;
      var s' := Step(s, Do(id, moves[0])).value;
      assert s' == Embed(s, id, x);
      if x.phase.Some? {
        PlayIsExec(s', id, moves[1..]);
        var y := Play(s.db, p, a, moves).value;
        assert Embed(s', id, y) == Embed(s, id, y);
      }
    }
  }

  const SLOW_MOVES := [ReadScanned, ReadHeight, Decide, Settle(FIRST), EndPass]
  const FAST_MOVES := [ReadScanned, Decide, Find, Insert, Resume, WriteScanned]

  lemma PlayFirst(db: Db, p: Process, a: Actor, moves: seq<Move>, db': Db, p': Process, phase: Phase)
    requires moves != [] && Act(db, p, a, moves[0]) == Some(Effect(db', p', Some(phase)))
    ensures Play(db, p, a, moves) == Play(db', p', a.(phase := phase), moves[1..])
  {
    hide Act;
  }

  /** The slow run reads the checkpoint and processes its height; it still has to write. */
  lemma SlowRun()
    ensures Play(DB0, IDLE, Slow(Reading(None, None)), SLOW_MOVES)
         == Some(Effect(DB1, Process(NO_WEDGE, [Progress]), Some(Writing(FIRST, true, true))))
  {
    LagConstants();
    hide LagBlocks, Play;
    var read := Some(Numeric(FIRST - 1));
    var walking := Walk(FIRST, FIRST, 0, {FIRST}, {}, {}, map[]);
    var over := Walk(FIRST, FIRST, 0, {}, {}, {FIRST}, map[]);
    assert Interval(FIRST, FIRST) == {FIRST};
    assert Settled(walking, Healthy, FIRST) == over;
    assert Concluded(IDLE, over, Healthy) == (Process(NO_WEDGE, [Progress]), Some(Writing(FIRST, true, true))) by {
      FrontierUnique(FIRST, FIRST, {FIRST}, Frontier(FIRST, FIRST, {FIRST}), FIRST);
      assert IDLE.verdicts + [Progress] == [Progress];
    }
    hide Concluded, Settled;
    PlayFirst(DB0, IDLE, Slow(Reading(None, None)), SLOW_MOVES, DB0, IDLE, Reading(read, None));
    PlayFirst(DB0, IDLE, Slow(Reading(read, None)), SLOW_MOVES[1..], DB0, IDLE, Reading(read, read));
    PlayFirst(DB0, IDLE, Slow(Reading(read, read)), SLOW_MOVES[2..], DB0, IDLE, Walking(walking));
    PlayFirst(DB0, IDLE, Slow(Walking(walking)), SLOW_MOVES[3..], DB1, IDLE, Walking(over));
    PlayFirst(DB1, IDLE, Slow(Walking(over)), SLOW_MOVES[4..], DB1, Process(NO_WEDGE, [Progress]), Writing(FIRST, true, true));
    PlayNothing(DB1, Process(NO_WEDGE, [Progress]), Slow(Writing(FIRST, true, true)), SLOW_MOVES[5..]);
  }

  lemma PlayNothing(db: Db, p: Process, a: Actor, moves: seq<Move>)
    requires moves == []
    ensures Play(db, p, a, moves) == Some(Effect(db, p, Some(a.phase)))
  {
  }

  /** Meanwhile the fast one ledgers the range that follows and moves the checkpoint. */
  lemma FastRun()
    ensures Play(DB1, IDLE, Fast(Reading(None, None)), FAST_MOVES)
         == Some(Effect(DB3, IDLE, Some(Writing(OVERTAKEN, false, true))))
  {
    LagConstants();
    hide LagBlocks, Play;
    assert SkipForward(FIRST - 1, TIP, 12.0) == Some(PLAN.jump);
    hide SkipForward;
    var read := Some(Numeric(FIRST - 1));
    PlayFirst(DB1, IDLE, Fast(Reading(None, None)), FAST_MOVES, DB1, IDLE, Reading(read, None));
    PlayFirst(DB1, IDLE, Fast(Reading(read, None)), FAST_MOVES[1..], DB1, IDLE, Asking(PLAN));
    FastRecords();
  }

  lemma FastRecords()
    ensures Play(DB1, IDLE, Fast(Asking(PLAN)), FAST_MOVES[2..])
         == Some(Effect(DB3, IDLE, Some(Writing(OVERTAKEN, false, true))))
  {
    hide Play;
    PlayFirst(DB1, IDLE, Fast(Asking(PLAN)), FAST_MOVES[2..], DB1, IDLE, Inserting(PLAN));
    PlayFirst(DB1, IDLE, Fast(Inserting(PLAN)), FAST_MOVES[3..], DB2, IDLE, Recorded(PLAN));
    PlayFirst(DB2, IDLE, Fast(Recorded(PLAN)), FAST_MOVES[4..], DB2, IDLE, Writing(OVERTAKEN, true, true));
    PlayFirst(DB2, IDLE, Fast(Writing(OVERTAKEN, true, true)), FAST_MOVES[5..], DB3, IDLE, Writing(OVERTAKEN, false, true));
    PlayNothing(DB3, IDLE, Fast(Writing(OVERTAKEN, false, true)), FAST_MOVES[6..]);
  }

  lemma SlowWrites(db: Db, p: Process)
    ensures Act(db, p, Slow(Writing(FIRST, true, true)), WriteBoth)
         == Some(Effect(db.(scanned := Numeric(FIRST), height := Numeric(FIRST)), p, None))
  {
  }

  lemma {:induction false} ExecAppend(s: State, es: seq<Event>, more: seq<Event>)
    requires Exec(s, es).Some?
    ensures Exec(s, es + more) == Exec(Exec(s, es).value, more)
    decreases |es|
  {
    hide Step;
    if es == [] {
      assert es + more == more;
    } else {
      assert (es + more)[1..] == es[1..] + more;
      ExecAppend(Step(s, es[0]).value, es[1..], more);
    }
  }

  lemma ExecOne(s: State, e: Event)
    requires Step(s, e).Some?
    ensures Exec(s, [e]) == Step(s, e)
  {
    hide Step;
    assert Exec(Step(s, e).value, []) == Some(Step(s, e).value);
  }

  /** The checkpoint a skip-forward wrote is lowered by an ingest run that read it before. */
  lemma OverlapLowers() returns (s: State, overtake: seq<Event>, finish: Event)
    ensures AtRest(s) && Exec(s, overtake).Some? && Step(Exec(s, overtake).value, finish).Some?
    ensures Exec(s, overtake).value.db.scanned == Numeric(OVERTAKEN)
    ensures Step(Exec(s, overtake).value, finish).value.db.scanned == Numeric(FIRST)
    ensures FIRST < OVERTAKEN
  {
    hide Act, Exec, Play;
    s := State(DB0, map[0 := IDLE, 1 := IDLE], map[], FIRST);
    SlowRun();
    FastRun();
    var begin0, begin1 := Begin(0, 0, Slow(Reading(None, None)).role, FIRST), Begin(1, 1, SkipForwarding(12.0), TIP);
    var s1 := Step(s, begin0).value;
    ExecOne(s, begin0);
    PlayIsExec(s1, 0, SLOW_MOVES);
    var s2 := Exec(s1, Moves(0, SLOW_MOVES)).value;
    ExecAppend(s, [begin0], Moves(0, SLOW_MOVES));
    var s3 := Step(s2, begin1).value;
    ExecOne(s2, begin1);
    ExecAppend(s, [begin0] + Moves(0, SLOW_MOVES), [begin1]);
    PlayIsExec(s3, 1, FAST_MOVES);
    var s4 := Exec(s3, Moves(1, FAST_MOVES)).value;
    ExecAppend(s, [begin0] + Moves(0, SLOW_MOVES) + [begin1], Moves(1, FAST_MOVES));
    overtake := [begin0] + Moves(0, SLOW_MOVES) + [begin1] + Moves(1, FAST_MOVES);
    finish := Do(0, WriteBoth);
    SlowWrites(s4.db, s4.processes[0]);
  }

  // ----- a run that is left alone ---------------------------------------------

  function Rows(db: Db, p: Process): RunState {
    RunState(db.scanned, db.height, db.ledger.Keys, p.wedge)
  }

  function AfterPlan(db: Db, p: Process, plan: Plan): RunState {
    RunState(Numeric(plan.hc), Numeric(plan.hc), db.ledger.Keys + {(plan.jump.lo, plan.jump.hi)},
             if plan.reason.Wedged? then NO_WEDGE else p.wedge)
  }

  /** What a run will have done if nothing else happens from here on. */
  function Outcome(db: Db, p: Process, a: Actor): RunState {
    match a.phase
    case Reading(_, _) =>
      (match a.role
       case Ingest(world) => AfterRun(Rows(db, p), a.tip, world)
       case SkipForwarding(hoursBack) => AfterSkipForward(Rows(db, p), a.tip, hoursBack))
    case Walking(w) => if a.role.Ingest? then AfterWalk(Rows(db, p), w.start, w.target, a.role.world) else Rows(db, p)
    case Asking(plan) => AfterPlan(db, p, plan)
    case Inserting(plan) => AfterPlan(db, p, plan)
    case Recorded(plan) => AfterPlan(db, p, plan)
    case Writing(hc, _, _) => RunState(Numeric(hc), Numeric(hc), db.ledger.Keys, p.wedge)
  }

  /** A confirmed skip-forward: the gap is ledgered and both checkpoints move to its end. */
  function AfterSkipForward(s: RunState, tip: int, hoursBack: real): RunState {
    if !s.scanned.Numeric? then s
    else
      match SkipForward(s.scanned.n, tip, hoursBack)
      case None => s
      case Some(jump) => RunState(Numeric(jump.hi), Numeric(jump.hi), s.ledger + {(jump.lo, jump.hi)}, s.wedge)
  }

  predicate Undisturbed(db: Db, a: Actor) {
    match a.phase
    case Reading(scanned, height) =>
      (scanned.Some? ==> scanned.value == db.scanned) && (height.Some? ==> height.value == db.height)
    case Walking(w) => a.role.Ingest? && Tracks(a.role.world, w)
    case Asking(plan) => a.role.SkipForwarding? ==> !plan.reason.Wedged?
    case Inserting(plan) => (plan.jump.lo, plan.jump.hi) !in db.ledger && (a.role.SkipForwarding? ==> !plan.reason.Wedged?)
    case Recorded(plan) => (plan.jump.lo, plan.jump.hi) in db.ledger && (a.role.SkipForwarding? ==> !plan.reason.Wedged?)
    case Writing(hc, scannedDue, heightDue) =>
      if a.role.Ingest? then scannedDue && heightDue
      else (scannedDue || heightDue) && (!scannedDue ==> db.scanned == Numeric(hc)) && (!heightDue ==> db.height == Numeric(hc))
  }

  lemma SkipDecidesTowardsOutcome(db: Db, p: Process, a: Actor)
    requires a.phase.Reading? && a.phase.scanned.Some? && a.role.SkipForwarding? && Undisturbed(db, a)
    ensures match Decided(a)
      case None => Rows(db, p) == Outcome(db, p, a)
      case Some(phase) => Undisturbed(db, a.(phase := phase)) && Outcome(db, p, a.(phase := phase)) == Outcome(db, p, a)
  {
    hide SkipForward;
  }

  lemma DecidesTowardsOutcome(db: Db, p: Process, a: Actor)
    requires a.phase.Reading? && a.phase.scanned.Some? && a.phase.height.Some? && a.role.Ingest?
    requires Undisturbed(db, a)
    ensures Decided(a).Some?
    ensures var a' := a.(phase := Decided(a).value);
      Undisturbed(db, a') && Outcome(db, p, a') == Outcome(db, p, a)
  {
    hide InRunReset, StartHeight, TargetHeight, AfterWalk;
    var w := Decided(a).value;
    if w.Walking? {
      var window := Interval(w.walk.start, w.walk.target);
      assert FailedIn(a.role.world, 0, window - window) == {};
      hide Interval, FailedIn;
    }
  }

  /** The decision at the end of a walk, in the terms of `AfterWalk`. */
  lemma WalkOutcome(rows: RunState, p: Process, w: Walk, world: World)
    requires Tracks(world, w) && w.pending == {} && !MoreRounds(w) && rows.wedge == p.wedge
    ensures var (p', phase) := Concluded(p, w, world);
      AfterWalk(rows, w.start, w.target, world) ==
      match phase
      case Some(Asking(plan)) => RunState(Numeric(plan.hc), Numeric(plan.hc), rows.ledger + {(plan.jump.lo, plan.jump.hi)}, NO_WEDGE)
      case Some(Writing(hc, _, _)) => RunState(Numeric(hc), Numeric(hc), rows.ledger, p'.wedge)
      case _ => rows.(wedge := p'.wedge)
  {
    var v := VerdictOf(w.start, w.target, w.done, w.failed);
    SameDecision(world, w, Counted(p.wedge, v));
    hide Tracks, Left, Done, LastErrors, WedgeSkip, WedgeEnd, Unfetchable, Interval, Frontier, Counted, MoreRounds, FrontierAfterSkip, VerdictOf, AfterRun;
  }

  lemma ConcludesAsOutcome(db: Db, p: Process, a: Actor, w: Walk)
    requires a.phase == Walking(w) && Undisturbed(db, a) && w.pending == {} && !MoreRounds(w)
    ensures var (p', phase) := Concluded(p, w, a.role.world);
      if phase.Some?
      then Undisturbed(db, a.(phase := phase.value)) && Outcome(db, p', a.(phase := phase.value)) == Outcome(db, p, a)
      else Rows(db, p') == Outcome(db, p, a)
  {
    hide Tracks, AfterWalk, Concluded;
    WalkOutcome(Rows(db, p), p, w, a.role.world);
    ConcludesAs(p, w, a.role.world);
    ConcludesWriting(p, w, a.role.world);
  }

  lemma ConcludesWriting(p: Process, w: Walk, world: World)
    ensures var phase := Concluded(p, w, world).1;
      phase.Some? && phase.value.Writing? ==> phase.value.scannedDue && phase.value.heightDue
  {
  }

  lemma SameDecision(world: World, w: Walk, c: Wedge)
    requires Tracks(world, w) && w.pending == {} && !MoreRounds(w)
    ensures w.done == Done(world, w.start, w.target) && w.failed == Left(world, w.start, w.target)
    ensures var v := VerdictOf(w.start, w.target, w.done, w.failed);
      WedgeSkip(c, v, w.start, w.target, w.failed, w.errors)
      == WedgeSkip(c, v, w.start, w.target, w.failed, LastErrors(world, w.start, w.target))
  {
    hide Tracks, Left, Done, LastErrors, WedgeEnd, VerdictOf;
    FinishedWalk(world, w);
  }

  lemma MoveKeepsOutcome(db: Db, p: Process, a: Actor, m: Move)
    requires Undisturbed(db, a) && Act(db, p, a, m).Some?
    ensures var x := Act(db, p, a, m).value;
      if x.phase.Some?
      then Undisturbed(x.db, a.(phase := x.phase.value)) && Outcome(x.db, x.process, a.(phase := x.phase.value)) == Outcome(db, p, a)
      else Rows(x.db, x.process) == Outcome(db, p, a)
  {
    hide Decided, Concluded, Settled, MoreRounds, Interval, Tracks, AfterRun, AfterWalk, AfterSkipForward;
    match a.phase
    case Reading(_, _) =>
      if m.Decide? {
        if a.role.Ingest? { DecidesTowardsOutcome(db, p, a); } else { SkipDecidesTowardsOutcome(db, p, a); }
      }
    case Walking(w) =>
      if m.Settle? {
        SettlingTracks(a.role.world, w, m.h);
        SettlingKeepsWindow(w, a.role.world, m.h);
      } else if MoreRounds(w) {
        RoundTracks(a.role.world, w);
      } else {
        ConcludesAsOutcome(db, p, a, w);
      }
    case _ =>
  }

  ghost predicate Alone(s: State, id: nat, p: nat) {
    && p in s.processes
    && s.actors.Keys <= {id}
    && (id in s.actors ==> s.actors[id].process == p && Undisturbed(s.db, s.actors[id]))
  }

  /** What will be in the tables and the counter once run `id`, if it is still going, is over. */
  ghost function Foreseen(s: State, id: nat, p: nat): RunState
    requires Alone(s, id, p)
  {
    if id in s.actors then Outcome(s.db, s.processes[p], s.actors[id]) else Rows(s.db, s.processes[p])
  }

  lemma StepAsForeseen(s: State, id: nat, p: nat, m: Move)
    requires Alone(s, id, p) && Step(s, Do(id, m)).Some?
    ensures Alone(Step(s, Do(id, m)).value, id, p)
    ensures Foreseen(Step(s, Do(id, m)).value, id, p) == Foreseen(s, id, p)
  {
    hide Act, Undisturbed, Outcome, Rows;
    var a := s.actors[id];
    assert Act(s.db, s.processes[p], a, m).Some?;
    MoveKeepsOutcome(s.db, s.processes[p], a, m);
  }

  lemma {:induction false} RunsAsForeseen(s: State, id: nat, p: nat, moves: seq<Move>)
    requires Alone(s, id, p) && Exec(s, Moves(id, moves)).Some?
    ensures Alone(Exec(s, Moves(id, moves)).value, id, p)
    ensures Foreseen(Exec(s, Moves(id, moves)).value, id, p) == Foreseen(s, id, p)
    decreases |moves|
  {
    hide Step, Alone, Foreseen;
    if moves != [] {
      assert Moves(id, moves)[1..] == Moves(id, moves[1..]);
      StepAsForeseen(s, id, p, moves[0]);
      RunsAsForeseen(Step(s, Do(id, moves[0])).value, id, p, moves[1..]);
    }
  }

  /**
   * A run that starts, is disturbed by nobody and finishes leaves the tables and
   * the counter as `AfterRun` says, in whatever order its heights settled.
   */
  lemma UndisturbedRun(s: State, id: nat, p: nat, world: World, tip: int, moves: seq<Move>)
    requires AtRest(s) && p in s.processes
    requires Exec(s, [Begin(id, p, Ingest(world), tip)] + Moves(id, moves)).Some?
    ensures var t := Exec(s, [Begin(id, p, Ingest(world), tip)] + Moves(id, moves)).value;
      AtRest(t) ==> p in t.processes && Rows(t.db, t.processes[p]) == AfterRun(Rows(s.db, s.processes[p]), tip, world)
  {
    hide AfterRun, Act;
    var begin := Begin(id, p, Ingest(world), tip);
    var started := Step(s, begin).value;
    assert ([begin] + Moves(id, moves))[1..] == Moves(id, moves);
    RunsAsForeseen(started, id, p, moves);
  }

  /** And a skip-forward that nobody disturbs does what its gap calls for, whichever of its two rows it writes first. */
  lemma UndisturbedSkipForward(s: State, id: nat, p: nat, hoursBack: real, tip: int, moves: seq<Move>)
    requires AtRest(s) && p in s.processes
    requires Exec(s, [Begin(id, p, SkipForwarding(hoursBack), tip)] + Moves(id, moves)).Some?
    ensures var t := Exec(s, [Begin(id, p, SkipForwarding(hoursBack), tip)] + Moves(id, moves)).value;
      AtRest(t) ==>
        p in t.processes && Rows(t.db, t.processes[p]) == AfterSkipForward(Rows(s.db, s.processes[p]), tip, hoursBack)
  {
    hide AfterSkipForward, Act;
    var begin := Begin(id, p, SkipForwarding(hoursBack), tip);
    var started := Step(s, begin).value;
    assert ([begin] + Moves(id, moves))[1..] == Moves(id, moves);
    RunsAsForeseen(started, id, p, moves);
  }
}
