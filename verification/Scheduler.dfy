/** The scheduler's lock: one run per task, and a cap on all of them together. */
module Scheduler {
  import opened Options
  import opened BlockRange
  import opened Intervals

  datatype Task = NearIngest | HealthFastAuth | HealthUser | PublicKeyAccounts | ContractState

  const MAX_INFLIGHT_TASKS := 4
  const CATCHUP_GATE_LAG := 3000

  /** A task that was never started has no entry. */
  datatype Lock = Lock(running: map<Task, bool>, inFlight: int)

  predicate Marked(l: Lock, t: Task) { t in l.running && l.running[t] }

  function Granted(l: Lock, t: Task): bool { !Marked(l, t) && l.inFlight < MAX_INFLIGHT_TASKS }

  function AfterEnter(l: Lock, t: Task): Lock {
    if Granted(l, t) then Lock(l.running[t := true], l.inFlight + 1) else l
  }

  function AfterLeave(l: Lock, t: Task): Lock {
    Lock(l.running[t := false], Max(0, l.inFlight - 1))
  }

  /** The lock, and the runs it let in that have neither returned nor thrown. */
  datatype System = System(lock: Lock, active: multiset<Task>)

  datatype Event = Enter(t: Task) | Leave(t: Task)

  function Step(s: System, e: Event): Option<System> {
    match e
    case Enter(t) =>
      Some(System(AfterEnter(s.lock, t), if Granted(s.lock, t) then s.active + multiset{t} else s.active))
    case Leave(t) =>
      if t !in s.active then None else Some(System(AfterLeave(s.lock, t), s.active - multiset{t}))
  }

  function Exec(s: System, events: seq<Event>): Option<System>
    decreases |events|
  {
    if events == [] then Some(s)
    else
      match Step(s, events[0])
      case None => None
      case Some(s') => Exec(s', events[1..])
  }

  const IDLE := System(Lock(map[], 0), multiset{})

  ghost predicate Kept(s: System) {
    && s.lock.inFlight == |s.active| <= MAX_INFLIGHT_TASKS
    && forall t :: s.active[t] == if Marked(s.lock, t) then 1 else 0
  }

  lemma StepKeeps(s: System, e: Event)
    requires Kept(s) && Step(s, e).Some?
    ensures Kept(Step(s, e).value)
  {
    var s' := Step(s, e).value;
    if e.Leave? {
      assert |s.active - multiset{e.t}| == |s.active| - 1;
    }
    forall t
      ensures s'.active[t] == if Marked(s'.lock, t) then 1 else 0
    {
      assert s.active[t] == if Marked(s.lock, t) then 1 else 0;
    }
  }

  lemma {:induction false} ExecKeeps(s: System, events: seq<Event>)
    requires Kept(s) && Exec(s, events).Some?
    ensures Kept(Exec(s, events).value)
    decreases |events|
  {
    hide Step, Kept;
    if events != [] {
      StepKeeps(s, events[0]);
      ExecKeeps(Step(s, events[0]).value, events[1..]);
    }
  }

  /**
   * In any interleaving no task runs twice at once, the counter is the number of
   * runs and at most the cap, a run is let in exactly when its task is idle and
   * the cap is not reached, and the clamp of the counter never changes it.
   */
  lemma LockIsSound(events: seq<Event>, t: Task)
    requires Exec(IDLE, events).Some?
    ensures var s := Exec(IDLE, events).value;
      && s.active[t] <= 1
      && s.lock.inFlight == |s.active| <= 4
      && (Marked(s.lock, t) <==> t in s.active)
      && (Granted(s.lock, t) <==> t !in s.active && |s.active| < 4)
      && (t in s.active ==> AfterLeave(s.lock, t).inFlight == s.lock.inFlight - 1)
  {
    hide Exec;
    ExecKeeps(IDLE, events);
    var s := Exec(IDLE, events).value;
    assert s.active[t] == if Marked(s.lock, t) then 1 else 0;
    if t in s.active { assert |s.active - multiset{t}| == |s.active| - 1; }
  }

  /** A checkpoint row as the gate reads it: an absent row is unknown, unlike in the walk. */
  function Known(v: Stored): Option<int> {
    if v.Numeric? then Some(v.n) else None
  }

  function IsCatchingUp(head: Stored, scanned: Stored): bool {
    match (Known(head), Known(scanned))
    case (Some(h), Some(s)) => h - s > CATCHUP_GATE_LAG
    case _ => false
  }

  /** The gate closes exactly when both rows are numbers and more than 3000 heights lie between them. */
  lemma GateExactly(head: Stored, scanned: Stored)
    ensures IsCatchingUp(head, scanned) <==>
            head.Numeric? && scanned.Numeric? && |Interval(scanned.n + 1, head.n)| > 3000
  {
  }

  /** Before the first checkpoint is written the walk takes it for zero, and the gate stays open. */
  lemma GateStaysOpenAtFirst(head: int)
    ensures Parsed(Absent) == Some(0) && !IsCatchingUp(Numeric(head), Absent)
    ensures IsCatchingUp(Numeric(head), Numeric(0)) <==> head > CATCHUP_GATE_LAG
  {
  }

  class SchedulerService {
    var running: map<Task, bool>
    var inFlight: int

    function Snapshot(): Lock
      reads this
    {
      Lock(running, inFlight)
    }

    constructor ()
      ensures Snapshot() == IDLE.lock
    {
      running, inFlight := map[], 0;
    }

    /** `runWithLock` up to the run itself. */
    method Enter(t: Task) returns (granted: bool)
      modifies this
      ensures granted == Granted(old(Snapshot()), t)
      ensures Snapshot() == AfterEnter(old(Snapshot()), t)
    {
      if t in running && running[t] { return false; }
      if inFlight >= MAX_INFLIGHT_TASKS { return false; }
      running := running[t := true];
      inFlight := inFlight + 1;
      return true;
    }

    /** What happens however the run ends. */
    method Leave(t: Task)
      modifies this
      ensures Snapshot() == AfterLeave(old(Snapshot()), t)
    {
      running := running[t := false];
      inFlight := Max(0, inFlight - 1);
    }

    /** A sibling of the ingest enters only when the chain is not being caught up with. */
    method EnterUnlessCatchingUp(t: Task, head: Stored, scanned: Stored) returns (granted: bool)
      modifies this
      ensures granted == (!IsCatchingUp(head, scanned) && Granted(old(Snapshot()), t))
      ensures Snapshot() == if granted then AfterEnter(old(Snapshot()), t) else old(Snapshot())
    {
      if IsCatchingUp(head, scanned) { return false; }
      granted := Enter(t);
    }
  }
}
