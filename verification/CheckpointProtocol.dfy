/**
 * The checkpoint and the ledger of missing ranges under concurrency: any number
 * of ingest runs and skip-forwards, in any number of processes, interleaved at
 * their awaits, each of which may fail or lose its process between any two writes.
 */
module CheckpointProtocol {
  import opened Options
  import opened BlockRange
  import opened BlockWalk
  import opened NearBlock
  import opened Intervals

  /** Why a range is in the ledger: the row's `reason`, with what it was based on. */
  datatype Reason =
    | ForceReset(tip: int)
    | SkippedForward(scanned: int, tip: int, hoursBack: real)
    | Wedged(history: seq<Verdict>, world: World)

  type Range = (int, int)

  /** The tables; `processed` are the heights whose processing ever finished. */
  datatype Db = Db(scanned: Stored, height: Stored, ledger: map<Range, Reason>, processed: set<int>)

  /** What a process holds in memory between runs, with the verdicts of its runs so far; a skip is progress. */
  datatype Process = Process(wedge: Wedge, verdicts: seq<Verdict>)

  datatype Walk = Walk(start: int, target: int, pass: nat, pending: set<int>, failed: set<int>, done: set<int>, errors: map<int, FetchError>)

  /** A range about to be ledgered, and the checkpoint to write afterwards. */
  datatype Plan = Plan(jump: Jump, hc: int, reason: Reason)

  datatype Phase =
    | Reading(scanned: Option<Stored>, height: Option<Stored>)
    | Walking(walk: Walk)
    | Asking(plan: Plan)
    | Inserting(plan: Plan)
    | Recorded(plan: Plan)
    | Writing(hc: int, scannedDue: bool, heightDue: bool)

  /** An ingest run meets the fetches of its `world`; a skip-forward is asked for some hours. */
  datatype Role = Ingest(world: World) | SkipForwarding(hoursBack: real)

  /** A run in progress, started when it learnt the tip. */
  datatype Actor = Actor(process: nat, role: Role, tip: int, phase: Phase)

  datatype State = State(db: Db, processes: map<nat, Process>, actors: map<nat, Actor>, highestTip: int)

  /** The code between two awaits of one run. */
  datatype Move =
    | ReadScanned | ReadHeight | Decide
    | Settle(h: int) | EndPass
    | Find | Insert | Resume
    | WriteScanned | WriteHeight | WriteBoth

  datatype Event =
    | Boot(process: nat)
    | Crash(process: nat)
    | Begin(id: nat, process: nat, role: Role, tip: int)
    | Fail(id: nat)
    | Do(id: nat, move: Move)

  // ----- one run --------------------------------------------------------------

  /** What a move does: to the tables, to the process, and to the run, which may be over. */
  datatype Effect = Effect(db: Db, process: Process, phase: Option<Phase>)

  function Decided(a: Actor): Option<Phase>
    requires a.phase.Reading? && a.phase.scanned.Some? && (a.role.Ingest? ==> a.phase.height.Some?)
  {
    match a.role
    case Ingest(_) =>
      var start := StartHeight(a.phase.height.value, a.phase.scanned.value, a.tip);
      (match InRunReset(start, a.tip)
       case Some(jump) => Some(Asking(Plan(jump, jump.hi, ForceReset(a.tip))))
       case None =>
         var target := TargetHeight(start, a.tip);
         Some(Walking(Walk(start, target, 0, Interval(start, target), {}, {}, map[]))))
    case SkipForwarding(hoursBack) =>
      if !a.phase.scanned.value.Numeric? then None
      else
        var scanned := a.phase.scanned.value.n;
        match SkipForward(scanned, a.tip, hoursBack)
        case Some(jump) => Some(Asking(Plan(jump, jump.hi, SkippedForward(scanned, a.tip, hoursBack))))
        case None => None
  }

  function Settled(w: Walk, world: World, h: int): Walk
    requires h in w.pending
  {
    match ProcessHeight(world(w.pass, h))
    case Completed => w.(pending := w.pending - {h}, done := w.done + {h})
    case HeightFailed(error) => w.(pending := w.pending - {h}, failed := w.failed + {h}, errors := w.errors[h := error])
  }

  predicate MoreRounds(w: Walk) { w.pass < HOLE_RETRY_ROUNDS && w.failed != {} }

  /** The end of a walk: count the run, then give up on a wedge, advance, or leave the frontier. */
  function Concluded(p: Process, w: Walk, world: World): (Process, Option<Phase>) {
    var v := VerdictOf(w.start, w.target, w.done, w.failed);
    var p' := Process(Counted(p.wedge, v), p.verdicts + [v]);
    match WedgeSkip(p'.wedge, v, w.start, w.target, w.failed, w.errors)
    case Some(skip) =>
      var hc := FrontierAfterSkip(w.start, w.target, w.done, skip);
      (p', Some(Asking(Plan(skip, hc, Wedged(p'.verdicts, world)))))
    case None =>
      var hc := Frontier(w.start, w.target, w.done);
      (p', if hc >= w.start then Some(Writing(hc, true, true)) else None)
  }

  function Act(db: Db, p: Process, a: Actor, m: Move): Option<Effect> {
    match (a.phase, m)
    case (Reading(_, height), ReadScanned) => Some(Effect(db, p, Some(Reading(Some(db.scanned), height))))
    case (Reading(scanned, _), ReadHeight) => Some(Effect(db, p, Some(Reading(scanned, Some(db.height)))))
    case (Reading(scanned, height), Decide) =>
      if scanned.Some? && (a.role.Ingest? ==> height.Some?) then Some(Effect(db, p, Decided(a))) else None
    case (Walking(w), Settle(h)) =>
      if h in w.pending && a.role.Ingest? then
        var done := if ProcessHeight(a.role.world(w.pass, h)).Completed? then {h} else {};
        Some(Effect(db.(processed := db.processed + done), p, Some(Walking(Settled(w, a.role.world, h)))))
      else None
    case (Walking(w), EndPass) =>
      if w.pending != {} || !a.role.Ingest? then None
      else if MoreRounds(w) then Some(Effect(db, p, Some(Walking(w.(pass := w.pass + 1, pending := w.failed, failed := {})))))
      else
        var (p', phase) := Concluded(p, w, a.role.world);
        Some(Effect(db, p', phase))
    case (Asking(plan), Find) =>
      Some(Effect(db, p, Some(if (plan.jump.lo, plan.jump.hi) in db.ledger then Recorded(plan) else Inserting(plan))))
    case (Inserting(plan), Insert) =>
      var range := (plan.jump.lo, plan.jump.hi);
      if range in db.ledger then Some(Effect(db, p, None))
      else Some(Effect(db.(ledger := db.ledger[range := plan.reason]), p, Some(Recorded(plan))))
    case (Recorded(plan), Resume) =>
      Some(Effect(db, if plan.reason.Wedged? then Process(NO_WEDGE, p.verdicts + [Progress]) else p, Some(Writing(plan.hc, true, true))))
    case (Writing(hc, true, true), WriteBoth) =>
      if a.role.Ingest? then Some(Effect(db.(scanned := Numeric(hc), height := Numeric(hc)), p, None)) else None
    case (Writing(hc, true, heightDue), WriteScanned) =>
      if a.role.Ingest? then None
      else Some(Effect(db.(scanned := Numeric(hc)), p, if heightDue then Some(Writing(hc, false, true)) else None))
    case (Writing(hc, scannedDue, true), WriteHeight) =>
      if a.role.Ingest? then None
      else Some(Effect(db.(height := Numeric(hc)), p, if scannedDue then Some(Writing(hc, true, false)) else None))
    case (_, _) => None
  }

  // ----- the whole system -----------------------------------------------------

  function WithPhase(actors: map<nat, Actor>, id: nat, phase: Option<Phase>): map<nat, Actor>
    requires id in actors
  {
    match phase
    case None => actors - {id}
    case Some(ph) => actors[id := actors[id].(phase := ph)]
  }

  /** The state after an event, if the event can happen. */
  function Step(s: State, e: Event): Option<State> {
    match e
    case Boot(p) =>
      if p in s.processes then None else Some(s.(processes := s.processes[p := Process(NO_WEDGE, [])]))
    case Crash(p) =>
      Some(s.(processes := s.processes - {p},
              actors := map id | id in s.actors && s.actors[id].process != p :: s.actors[id]))
    case Begin(id, p, role, tip) =>
      if id in s.actors || p !in s.processes then None
      else Some(s.(actors := s.actors[id := Actor(p, role, tip, Reading(None, None))], highestTip := Max(s.highestTip, tip)))
    case Fail(id) =>
      if id in s.actors then Some(s.(actors := s.actors - {id})) else None
    case Do(id, m) =>
      if id !in s.actors || s.actors[id].process !in s.processes then None
      else
        var a := s.actors[id];
        match Act(s.db, s.processes[a.process], a, m)
        case None => None
        case Some(x) =>
          Some(s.(db := x.db, processes := s.processes[a.process := x.process], actors := WithPhase(s.actors, id, x.phase)))
  }

  /** The state after a run of events, if each can happen in turn. */
  function Exec(s: State, events: seq<Event>): Option<State>
    decreases |events|
  {
    if events == [] then Some(s)
    else
      match Step(s, events[0])
      case None => None
      case Some(s') => Exec(s', events[1..])
  }

  // ----- coverage -------------------------------------------------------------

  ghost predicate Covered(db: Db, h: int) {
    h in db.processed || exists r :: r in db.ledger && r.0 <= h <= r.1
  }

  ghost predicate CoveredTo(db: Db, floor: int, hi: int) {
    forall h :: floor <= h <= hi ==> Covered(db, h)
  }

  ghost predicate StoredCovered(db: Db, floor: int, v: Stored) {
    v.Numeric? ==> CoveredTo(db, floor, v.n)
  }

  /** Where the claim begins, and whether the scanned row was no number to begin with. */
  datatype Origin = Origin(floor: int, garbled: bool)

  function OriginOf(db: Db): (o: Origin)
    ensures o.floor >= BACKFILL_START
  {
    Origin(StartHeight(db.height, db.scanned, 0), db.scanned.Garbled?)
  }

  ghost predicate DbCovered(db: Db, o: Origin) {
    && StoredCovered(db, o.floor, db.scanned)
    && (if o.garbled then StoredCovered(db, o.floor, db.height) else !db.scanned.Garbled?)
  }

  /** Settled heights and heights still to come share the window. */
  predicate Partitioned(w: Walk) {
    && w.pending + w.failed + w.done == Interval(w.start, w.target)
    && w.pending !! w.failed && w.pending !! w.done && w.failed !! w.done
  }

  ghost predicate PlanCovered(db: Db, o: Origin, plan: Plan) {
    && CoveredTo(db, o.floor, plan.jump.lo - 1)
    && forall h :: plan.jump.hi < h <= plan.hc ==> Covered(db, h)
  }

  ghost predicate ActorCovered(db: Db, o: Origin, a: Actor) {
    match a.phase
    case Reading(scanned, height) =>
      && (scanned.Some? ==> StoredCovered(db, o.floor, scanned.value) && (scanned.value.Garbled? ==> o.garbled))
      && (height.Some? && o.garbled ==> StoredCovered(db, o.floor, height.value))
    case Walking(w) => CoveredTo(db, o.floor, w.start - 1) && w.done <= db.processed && Partitioned(w)
    case Asking(plan) => PlanCovered(db, o, plan)
    case Inserting(plan) => PlanCovered(db, o, plan)
    case Recorded(plan) => CoveredTo(db, o.floor, plan.hc)
    case Writing(hc, _, _) => CoveredTo(db, o.floor, hc)
  }

  ghost predicate AllCovered(s: State, o: Origin) {
    && DbCovered(s.db, o)
    && forall id :: id in s.actors ==> ActorCovered(s.db, o, s.actors[id])
  }

  /** Processed heights stay processed, ledgered ranges stay ledgered, with their reasons. */
  ghost predicate Grows(db: Db, db': Db) {
    && db.processed <= db'.processed
    && forall r :: r in db.ledger ==> r in db'.ledger && db'.ledger[r] == db.ledger[r]
  }

  lemma StaysCovered(db: Db, db': Db, o: Origin, a: Actor)
    requires Grows(db, db') && ActorCovered(db, o, a)
    ensures ActorCovered(db', o, a)
  {
    hide Partitioned;
    CoverageGrows(db, db');
  }

  lemma CoverageGrows(db: Db, db': Db)
    requires Grows(db, db')
    ensures forall h :: Covered(db, h) ==> Covered(db', h)
  {
  }

  lemma MovesGrow(db: Db, p: Process, a: Actor, m: Move)
    requires Act(db, p, a, m).Some?
    ensures Grows(db, Act(db, p, a, m).value.db)
  {
    hide Settled, Decided, Concluded;
  }

  /** A run starts right behind what was covered when it read the checkpoints. */
  lemma DecidesCovered(db: Db, o: Origin, a: Actor)
    requires o.floor >= BACKFILL_START
    requires a.phase.Reading? && a.phase.scanned.Some? && (a.role.Ingest? ==> a.phase.height.Some?)
    requires ActorCovered(db, o, a) && Decided(a).Some?
    ensures ActorCovered(db, o, a.(phase := Decided(a).value))
  {
    hide LagBlocks, Covered, Interval;
    if a.role.Ingest? {
      var start := StartHeight(a.phase.height.value, a.phase.scanned.value, a.tip);
      assert CoveredTo(db, o.floor, start - 1);
    }
  }

  lemma SettlesCovered(w: Walk, world: World, h: int)
    requires h in w.pending && Partitioned(w)
    ensures Partitioned(Settled(w, world, h))
    ensures var w' := Settled(w, world, h);
      && w'.done == w.done + (if ProcessHeight(world(w.pass, h)).Completed? then {h} else {})
      && w'.start == w.start && w'.target == w.target
  {
    hide ProcessHeight, Interval;
    if ProcessHeight(world(w.pass, h)).Completed? {
      MoveOne(w.pending, w.done, w.failed, h);
    } else {
      MoveOne(w.pending, w.failed, w.done, h);
    }
  }

  lemma MoveOne(from: set<int>, into: set<int>, rest: set<int>, h: int)
    requires h in from && from !! into && from !! rest && into !! rest
    ensures var from', into' := from - {h}, into + {h};
      && from' + into' + rest == from + into + rest
      && from' + rest + into' == from + rest + into
      && from' !! into' && from' !! rest && into' !! rest
  {
  }

  lemma RoundKeepsPartition(w: Walk)
    requires Partitioned(w) && w.pending == {}
    ensures Partitioned(w.(pass := w.pass + 1, pending := w.failed, failed := {}))
  {
  }

  /** Whatever a finished walk writes is covered, once its wedge is ledgered. */
  lemma ConcludesCovered(db: Db, o: Origin, a: Actor, p: Process)
    requires a.phase.Walking? && a.role.Ingest? && ActorCovered(db, o, a)
    requires Concluded(p, a.phase.walk, a.role.world).1.Some?
    ensures ActorCovered(db, o, a.(phase := Concluded(p, a.phase.walk, a.role.world).1.value))
  {
    hide Counted, WedgeSkip, FrontierAfterSkip, Frontier, Partitioned, VerdictOf;
    var w := a.phase.walk;
    var v := VerdictOf(w.start, w.target, w.done, w.failed);
    var c := Counted(p.wedge, v);
    var skip := WedgeSkip(c, v, w.start, w.target, w.failed, w.errors);
    if skip.Some? {
      BeyondTheWedge(db, w, c, v);
    } else {
      var hc := Frontier(w.start, w.target, w.done);
      assert forall h :: w.start <= h <= hc ==> Covered(db, h);
    }
  }

  /** Between the end of a wedge and the checkpoint written after it everything was completed. */
  lemma BeyondTheWedge(db: Db, w: Walk, c: Wedge, v: Verdict)
    requires w.done <= db.processed && WedgeSkip(c, v, w.start, w.target, w.failed, w.errors).Some?
    ensures var skip := WedgeSkip(c, v, w.start, w.target, w.failed, w.errors).value;
      skip.lo == w.start && forall h :: skip.hi < h <= FrontierAfterSkip(w.start, w.target, w.done, skip) ==> Covered(db, h)
  {
    hide WedgeEnd, Frontier;
    var skip := WedgeSkip(c, v, w.start, w.target, w.failed, w.errors).value;
    forall h | skip.hi < h <= FrontierAfterSkip(w.start, w.target, w.done, skip)
      ensures Covered(db, h)
    {
      assert h in w.done + Interval(skip.lo, skip.hi);
    }
  }

  lemma RecordedCovers(db: Db, o: Origin, plan: Plan)
    requires PlanCovered(db, o, plan) && (plan.jump.lo, plan.jump.hi) in db.ledger
    ensures CoveredTo(db, o.floor, plan.hc)
  {
    var r := (plan.jump.lo, plan.jump.hi);
    forall h | o.floor <= h <= plan.hc
      ensures Covered(db, h)
    {
      if plan.jump.lo <= h <= plan.jump.hi {
        assert r.0 <= h <= r.1;
      }
    }
  }

  lemma MoveKeepsCoverage(db: Db, p: Process, o: Origin, a: Actor, m: Move)
    requires o.floor >= BACKFILL_START && DbCovered(db, o) && ActorCovered(db, o, a)
    requires Act(db, p, a, m).Some?
    ensures var x := Act(db, p, a, m).value;
      DbCovered(x.db, o) && (x.phase.Some? ==> ActorCovered(x.db, o, a.(phase := x.phase.value)))
  {
    hide Covered, Decided, Concluded, Settled, Partitioned, CoveredTo, MoreRounds;
    var x := Act(db, p, a, m).value;
    MovesGrow(db, p, a, m);
    StaysCovered(db, x.db, o, a);
    DbStaysCovered(db, x.db, o);
    match a.phase
    case Reading(_, _) =>
      if m.Decide? && x.phase.Some? { DecidesCovered(db, o, a); }
    case Walking(w) =>
      if m.Settle? {
        SettlesCovered(w, a.role.world, m.h);
      }
      else if MoreRounds(w) { RoundKeepsPartition(w); }
      else if x.phase.Some? { ConcludesCovered(db, o, a, p); }
    case Asking(plan) =>
      if x.phase.value.Recorded? { RecordedCovers(db, o, plan); }
    case Inserting(plan) =>
      if x.phase.Some? { RecordedCovers(x.db, o, plan); }
    case Recorded(_) =>
    case Writing(_, _, _) =>
      WritesCovered(db, x.db, o);
  }

  lemma DbStaysCovered(db: Db, db': Db, o: Origin)
    requires Grows(db, db')
    ensures StoredCovered(db, o.floor, db.scanned) ==> StoredCovered(db', o.floor, db.scanned)
    ensures StoredCovered(db, o.floor, db.height) ==> StoredCovered(db', o.floor, db.height)
  {
    CoverageGrows(db, db');
  }

  lemma WritesCovered(db: Db, db': Db, o: Origin)
    requires db.processed == db'.processed && db.ledger == db'.ledger
    ensures forall hi :: CoveredTo(db, o.floor, hi) ==> CoveredTo(db', o.floor, hi)
  {
    CoverageGrows(db, db');
  }

  lemma StepKeepsCoverage(s: State, o: Origin, e: Event)
    requires o.floor >= BACKFILL_START && AllCovered(s, o) && Step(s, e).Some?
    ensures AllCovered(Step(s, e).value, o)
    ensures Grows(s.db, Step(s, e).value.db)
  {
    hide Act, ActorCovered, DbCovered;
    var s' := Step(s, e).value;
    match e
    case Boot(_) =>
    case Crash(_) =>
    case Begin(id, _, _, _) => NewRunCovered(s.db, o, s'.actors[id]);
    case Fail(_) =>
    case Do(id, m) =>
      var a := s.actors[id];
      var p := s.processes[a.process];
      MovesGrow(s.db, p, a, m);
      MoveKeepsCoverage(s.db, p, o, a, m);
      forall i | i in s'.actors
        ensures ActorCovered(s'.db, o, s'.actors[i])
      {
        if i != id { StaysCovered(s.db, s'.db, o, s.actors[i]); }
      }
  }

  lemma NewRunCovered(db: Db, o: Origin, a: Actor)
    requires a.phase == Reading(None, None)
    ensures ActorCovered(db, o, a)
  {
  }

  /** What holds before anything runs. */
  predicate AtRest(s: State) { s.actors == map[] }

  /**
   * Coverage: after any events of any runs, every height from the first start on,
   * up to the scanned checkpoint, has been processed or lies in a ledgered range.
   */
  lemma {:induction false} Coverage(s: State, events: seq<Event>)
    requires AtRest(s) && Exec(s, events).Some?
    ensures var db := Exec(s, events).value.db;
      StoredCovered(db, OriginOf(s.db).floor, db.scanned)
  {
    AtRestCovered(s);
    RunKeepsCoverage(s, OriginOf(s.db), events);
  }

  lemma AtRestCovered(s: State)
    requires AtRest(s)
    ensures AllCovered(s, OriginOf(s.db))
  {
  }

  lemma {:induction false} RunKeepsCoverage(s: State, o: Origin, events: seq<Event>)
    requires o.floor >= BACKFILL_START && AllCovered(s, o) && Exec(s, events).Some?
    ensures AllCovered(Exec(s, events).value, o)
    decreases |events|
  {
    hide Step, AllCovered;
    if events != [] {
      StepKeepsCoverage(s, o, events[0]);
      RunKeepsCoverage(Step(s, events[0]).value, o, events[1..]);
    }
  }
}
