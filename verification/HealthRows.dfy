/**
 * The life of a health row. A retry pass picks the row, asks for its transaction,
 * and writes what it learnt; any number of passes may be between those two steps.
 */
module HealthRows {
  import opened Options
  import opened HealthClassifiers

  const MAX_RETRY_COUNT: nat := 10
  const RETRY_BACKOFF_MS: int := 300_000

  datatype Row = Row(classification: FaClassification, retryCount: nat, lastAttemptedAt: int, classifiedAt: Option<int>)

  predicate Pending(c: FaClassification) { c.outcome == RpcPending }

  function Classified(c: FaClassification, now: int): Option<int> {
    if Pending(c) then None else Some(now)
  }

  /** Discovery inserts a row unless there is one. */
  function Discovered(row: Option<Row>, c: FaClassification, now: int): Option<Row> {
    if row.Some? then row else Some(Row(c, if Pending(c) then 1 else 0, now, Classified(c, now)))
  }

  predicate Eligible(row: Row, picked: int) {
    Pending(row.classification) && row.retryCount < MAX_RETRY_COUNT && row.lastAttemptedAt < picked - RETRY_BACKOFF_MS
  }

  /** A retry writes what it found, with the count it read when it picked the row. */
  function Retried(readCount: nat, c: FaClassification, now: int): Row {
    Row(c, readCount + 1, now, Classified(c, now))
  }

  /** An answer for the transaction that was written down. */
  datatype Attempt = Attempt(c: FaClassification, at: int)

  /** A pass that has picked the row at a time, and how many attempts had been written by then. */
  datatype Pick = Pick(readCount: nat, at: int, seen: nat)

  datatype System = System(row: Option<Row>, picks: map<nat, Pick>, attempts: seq<Attempt>)

  datatype Event =
    | Discover(c: FaClassification, now: int)
    | PickRow(id: nat, picked: int)
    | Write(id: nat, c: FaClassification, now: int)
    | Lose(id: nat)

  const NOTHING := System(None, map[], [])

  function Step(s: System, e: Event): Option<System> {
    match e
    case Discover(c, now) =>
      Some(s.(row := Discovered(s.row, c, now), attempts := if s.row.None? then s.attempts + [Attempt(c, now)] else s.attempts))
    case PickRow(id, picked) =>
      if id in s.picks || s.row.None? || !Eligible(s.row.value, picked) then None
      else Some(s.(picks := s.picks[id := Pick(s.row.value.retryCount, picked, |s.attempts|)]))
    case Write(id, c, now) =>
      if id !in s.picks then None
      else Some(System(Some(Retried(s.picks[id].readCount, c, now)), s.picks - {id}, s.attempts + [Attempt(c, now)]))
    case Lose(id) =>
      if id in s.picks then Some(s.(picks := s.picks - {id})) else None
  }

  function Exec(s: System, events: seq<Event>): Option<System>
    decreases |events|
  {
    if events == [] then Some(s)
    else
      match Step(s, events[0])
      case None => None
      case Some(s') => Exec(s', events[1..])
  }

  // ----- what holds of every run ----------------------------------------------

  function Last(s: System): Attempt
    requires s.attempts != []
  {
    s.attempts[|s.attempts| - 1]
  }

  /** The row shows the last attempt, and a pick has read a pending row. */
  ghost predicate Sound(s: System) {
    && (s.row.None? <==> s.attempts == [])
    && (s.row.Some? ==>
          && s.row.value.classification == Last(s).c && s.row.value.lastAttemptedAt == Last(s).at
          && s.row.value.classifiedAt == Classified(Last(s).c, Last(s).at))
    && (forall id :: id in s.picks ==> 1 <= s.picks[id].seen <= |s.attempts| && Pending(s.attempts[s.picks[id].seen - 1].c))
  }

  lemma StepKeepsSound(s: System, e: Event)
    requires Sound(s) && Step(s, e).Some?
    ensures Sound(Step(s, e).value)
  {
    match e
    case Write(id, c, now) => assert Last(Step(s, e).value) == Attempt(c, now);
    case Discover(c, now) => assert s.row.None? ==> Last(Step(s, e).value) == Attempt(c, now);
    case _ =>
  }

  predicate Resolved(s: System) { s.row.Some? && !Pending(s.row.value.classification) }

  predicate Unresolves(s: System, e: Event) {
    Resolved(s) && Step(s, e).Some? && !Resolved(Step(s, e).value)
  }

  /** A pick that read the row before the last attempt was written. */
  predicate Stale(s: System, id: nat) {
    id in s.picks && s.picks[id].seen < |s.attempts|
  }

  /** No answer is written by a pick that read the row before the verdict that stands. */
  predicate TakesBack(s: System, e: Event) {
    e.Write? && Stale(s, e.id) && !Pending(Last(s).c) && Pending(e.c)
  }

  /** A verdict is taken back exactly by a pending answer from a pick that read the row before it. */
  lemma UnresolvesExactly(s: System, e: Event)
    requires Sound(s)
    ensures Unresolves(s, e) <==> TakesBack(s, e)
  {
  }

  ghost predicate KeepsVerdicts(s: System, events: seq<Event>)
    decreases |events|
  {
    events != [] ==> !Unresolves(s, events[0]) && (Step(s, events[0]).Some? ==> KeepsVerdicts(Step(s, events[0]).value, events[1..]))
  }

  ghost predicate NothingTakesBack(s: System, events: seq<Event>)
    decreases |events|
  {
    events != [] ==> !TakesBack(s, events[0]) && (Step(s, events[0]).Some? ==> NothingTakesBack(Step(s, events[0]).value, events[1..]))
  }

  /** Over every sequence of events verdicts are kept if and only if there is no such write. */
  lemma {:induction false} KeepsVerdictsExactly(s: System, events: seq<Event>)
    requires Sound(s)
    ensures KeepsVerdicts(s, events) <==> NothingTakesBack(s, events)
    decreases |events|
  {
    hide Step, Sound, Unresolves, TakesBack;
    if events != [] {
      UnresolvesExactly(s, events[0]);
      if Step(s, events[0]).Some? {
        StepKeepsSound(s, events[0]);
        KeepsVerdictsExactly(Step(s, events[0]).value, events[1..]);
      }
    }
  }

  // ----- runs without stale writes --------------------------------------------

  ghost predicate NoStaleWrites(s: System, events: seq<Event>)
    decreases |events|
  {
    events != [] ==>
      && !(events[0].Write? && Stale(s, events[0].id))
      && (Step(s, events[0]).Some? ==> NoStaleWrites(Step(s, events[0]).value, events[1..]))
  }

  /** The row counts its attempts, which are at most ten; all before the last were pending. */
  ghost predicate RowTells(s: System) {
    var n := |s.attempts|;
    && Sound(s)
    && n <= MAX_RETRY_COUNT
    && (s.row.Some? ==> s.row.value.retryCount == if n == 1 && !Pending(Last(s).c) then 0 else n)
    && (forall k :: 0 <= k < n - 1 ==> Pending(s.attempts[k].c))
    && (forall id :: id in s.picks ==> s.picks[id].readCount == s.picks[id].seen < MAX_RETRY_COUNT)
  }

  lemma StepKeepsRowTells(s: System, e: Event)
    requires RowTells(s) && Step(s, e).Some? && !(e.Write? && Stale(s, e.id))
    ensures RowTells(Step(s, e).value)
  {
    StepKeepsSound(s, e);
  }

  /** Without stale writes the row tells its history: so its verdict is final, after at most ten attempts. */
  lemma {:induction false} RowTellsItsHistory(s: System, events: seq<Event>)
    requires RowTells(s) && NoStaleWrites(s, events) && Exec(s, events).Some?
    ensures RowTells(Exec(s, events).value)
    decreases |events|
  {
    hide Step, RowTells, Stale;
    if events != [] {
      StepKeepsRowTells(s, events[0]);
      RowTellsItsHistory(Step(s, events[0]).value, events[1..]);
    }
  }

  /** A row is due exactly when its last answer was pending, is more than a backoff old, and was not the tenth. */
  lemma DueExactly(s: System, id: nat, picked: int)
    requires RowTells(s) && id !in s.picks
    ensures Step(s, PickRow(id, picked)).Some? <==>
            s.attempts != [] && Pending(Last(s).c) && |s.attempts| < 10 && Last(s).at + 300_000 < picked
  {
  }

  /** A pass writes no earlier, by its clock, than it picked. */
  ghost predicate ClockForward(s: System, events: seq<Event>)
    decreases |events|
  {
    events != [] ==>
      && (events[0].Write? && events[0].id in s.picks ==> s.picks[events[0].id].at <= events[0].now)
      && (Step(s, events[0]).Some? ==> ClockForward(Step(s, events[0]).value, events[1..]))
  }

  predicate Apart(attempts: seq<Attempt>) {
    forall k :: 0 <= k < |attempts| - 1 ==> attempts[k].at + RETRY_BACKOFF_MS < attempts[k + 1].at
  }

  /** The pick came a backoff after the attempt it read. */
  predicate PickApart(attempts: seq<Attempt>, p: Pick) {
    1 <= p.seen <= |attempts| ==> attempts[p.seen - 1].at + RETRY_BACKOFF_MS < p.at
  }

  ghost predicate Spaced(s: System) {
    Apart(s.attempts) && forall id :: id in s.picks ==> PickApart(s.attempts, s.picks[id])
  }

  lemma StepKeepsSpaced(s: System, e: Event)
    requires Sound(s) && Spaced(s) && Step(s, e).Some? && !(e.Write? && Stale(s, e.id))
    requires e.Write? && e.id in s.picks ==> s.picks[e.id].at <= e.now
    ensures Spaced(Step(s, e).value)
  {
    var s' := Step(s, e).value;
    match e
    case Write(id, c, now) =>
      assert PickApart(s.attempts, s.picks[id]);
      ApartOneMore(s.attempts, Attempt(c, now));
      hide Apart;
      forall i | i in s'.picks ensures PickApart(s'.attempts, s'.picks[i]) {
        assert PickApart(s.attempts, s.picks[i]);
      }
    case PickRow(_, _) =>
    case _ =>
  }

  lemma ApartOneMore(attempts: seq<Attempt>, a: Attempt)
    requires Apart(attempts) && (attempts != [] ==> attempts[|attempts| - 1].at + RETRY_BACKOFF_MS < a.at)
    ensures Apart(attempts + [a])
  {
  }

  /** And then the backoff lies between two attempts. */
  lemma {:induction false} AttemptsAreSpaced(s: System, events: seq<Event>)
    requires Sound(s) && Spaced(s) && NoStaleWrites(s, events) && ClockForward(s, events) && Exec(s, events).Some?
    ensures Spaced(Exec(s, events).value)
    decreases |events|
  {
    hide Step, Sound, Spaced, Stale;
    if events != [] {
      StepKeepsSound(s, events[0]);
      StepKeepsSpaced(s, events[0]);
      AttemptsAreSpaced(Step(s, events[0]).value, events[1..]);
    }
  }

  // ----- one pick at a time ---------------------------------------------------

  ghost predicate AtMostOnePick(s: System) {
    forall i, j :: i in s.picks && j in s.picks ==> i == j
  }

  /** No two picks of the row are ever in flight. */
  ghost predicate NoTwoPicks(s: System, events: seq<Event>)
    decreases |events|
  {
    && AtMostOnePick(s)
    && (events != [] && Step(s, events[0]).Some? ==> NoTwoPicks(Step(s, events[0]).value, events[1..]))
  }

  ghost predicate NoneStale(s: System) {
    Sound(s) && forall id :: id in s.picks ==> !Stale(s, id)
  }

  lemma StepKeepsNoneStale(s: System, e: Event)
    requires NoneStale(s) && AtMostOnePick(s) && Step(s, e).Some?
    ensures NoneStale(Step(s, e).value)
  {
    StepKeepsSound(s, e);
  }

  lemma {:induction false} OnePickIsNeverStale(s: System, events: seq<Event>)
    requires NoneStale(s) && NoTwoPicks(s, events)
    ensures NoStaleWrites(s, events)
    decreases |events|
  {
    hide Step, AtMostOnePick, Sound;
    if events != [] && Step(s, events[0]).Some? {
      StepKeepsNoneStale(s, events[0]);
      OnePickIsNeverStale(Step(s, events[0]).value, events[1..]);
    }
  }

  /**
   * So a row that no two passes pick at once tells its history, keeps its verdict,
   * is asked for at most ten times, and never twice within the backoff.
   */
  lemma OnePickAtATime(events: seq<Event>)
    requires NoTwoPicks(NOTHING, events) && Exec(NOTHING, events).Some?
    ensures RowTells(Exec(NOTHING, events).value)
    ensures KeepsVerdicts(NOTHING, events)
    ensures ClockForward(NOTHING, events) ==> Spaced(Exec(NOTHING, events).value)
  {
    OnePickIsNeverStale(NOTHING, events);
    RowTellsItsHistory(NOTHING, events);
    NoStaleTakesNothingBack(NOTHING, events);
    KeepsVerdictsExactly(NOTHING, events);
    if ClockForward(NOTHING, events) { AttemptsAreSpaced(NOTHING, events); }
  }

  lemma {:induction false} NoStaleTakesNothingBack(s: System, events: seq<Event>)
    requires NoStaleWrites(s, events)
    ensures NothingTakesBack(s, events)
    decreases |events|
  {
    hide Step;
    if events != [] && Step(s, events[0]).Some? {
      NoStaleTakesNothingBack(Step(s, events[0]).value, events[1..]);
    }
  }

  // ----- two picks at once ----------------------------------------------------

  const PENDING := FaClassification(RpcPending, None, None, None, Some("timeout"))
  const VERDICT := FaClassification(Success, Some(true), None, None, None)

  /** Two passes pick the row; one resolves it, and the other, whose query fails, takes the verdict back. */
  lemma OverlapUnresolves() returns (before: seq<Event>, last: Event)
    ensures Exec(NOTHING, before).Some? && Resolved(Exec(NOTHING, before).value)
    ensures Unresolves(Exec(NOTHING, before).value, last)
  {
    var t := RETRY_BACKOFF_MS + 1;
    before := [Discover(PENDING, 0), PickRow(0, t), PickRow(1, t), Write(0, VERDICT, t)];
    last := Write(1, PENDING, t);
    var s1 := Step(NOTHING, before[0]).value;
    var s2 := Step(s1, before[1]).value;
    var s3 := Step(s2, before[2]).value;
    var s4 := Step(s3, before[3]).value;
    assert Exec(s4, []) == Some(s4);
    assert Exec(s3, before[3..]) == Some(s4);
    assert Exec(s2, before[2..]) == Some(s4);
    assert Exec(s1, before[1..]) == Some(s4);
  }

  // ----- the row as it is written ---------------------------------------------

  class HealthRow {
    var row: Option<Row>

    constructor ()
      ensures row == None
    {
      row := None;
    }

    method InsertOrIgnore(c: FaClassification, now: int)
      modifies this
      ensures row == Discovered(old(row), c, now)
    {
      if row == None {
        row := Some(Row(c, if c.outcome == RpcPending then 1 else 0, now, if c.outcome == RpcPending then None else Some(now)));
      }
    }

    /** The count of the row, if it is due for a retry. */
    method PickForRetry(picked: int) returns (readCount: Option<nat>)
      ensures readCount == if row.Some? && Eligible(row.value, picked) then Some(row.value.retryCount) else None
    {
      if row == None { return None; }
      var r := row.value;
      var retryCutoff := picked - RETRY_BACKOFF_MS;
      if r.classification.outcome == RpcPending && r.retryCount < MAX_RETRY_COUNT && r.lastAttemptedAt < retryCutoff {
        return Some(r.retryCount);
      }
      return None;
    }

    method Update(readCount: nat, c: FaClassification, now: int)
      modifies this
      ensures row == Some(Retried(readCount, c, now))
    {
      row := Some(Row(c, readCount + 1, now, if c.outcome == RpcPending then None else Some(now)));
    }
  }
}
