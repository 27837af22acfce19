/**
 * How the health collectors judge a transaction by its receipts.
 */
module HealthClassifiers {
  import opened Options

  /** `executor` is trimmed and lower-cased; `reason` is what the status says of its failure. */
  datatype Receipt = Receipt(executor: Option<string>, fails: bool, reason: Option<string>)

  /** The answer to a status query: the call itself may fail. */
  datatype TxStatus =
    | Unreachable(message: string)
    | Known(receipts: seq<Receipt>, conversionFails: bool, conversionReason: Option<string>)

  datatype Outcome = Success | GuardFailure | MpcFailure | OtherFailure | RpcPending

  datatype FaClassification = FaClassification(
    outcome: Outcome, reachedMpc: Option<bool>, failingExecutor: Option<string>, reason: Option<string>, lastError: Option<string>)

  datatype GenericOutcome = GenericSuccess | GenericFailure | GenericPending

  datatype GenericClassification = GenericClassification(
    outcome: GenericOutcome, failingExecutor: Option<string>, reason: Option<string>, lastError: Option<string>)

  /** Receipt `k` is the first that fails on an executor one knows; the others are passed over. */
  predicate FirstKnownFailure(receipts: seq<Receipt>, k: int) {
    && 0 <= k < |receipts| && receipts[k].fails && receipts[k].executor.Some?
    && forall j :: 0 <= j < k && receipts[j].fails ==> receipts[j].executor.None?
  }

  /** The executor ran an MPC contract; an empty name is known but never one. */
  predicate RanMpc(mpc: set<string>, r: Receipt) {
    r.executor.Some? && r.executor.value != "" && r.executor.value in mpc
  }

  predicate ReachedMpc(mpc: set<string>, receipts: seq<Receipt>) {
    exists k :: 0 <= k < |receipts| && RanMpc(mpc, receipts[k])
  }

  /** The receipt whose status is kept: the first known failure, else the last failure of all. */
  ghost predicate IsBlamed(receipts: seq<Receipt>, blamed: Option<Receipt>) {
    if exists k :: FirstKnownFailure(receipts, k) then
      exists k :: FirstKnownFailure(receipts, k) && blamed == Some(receipts[k])
    else if exists k :: 0 <= k < |receipts| && receipts[k].fails then
      exists k :: LastFailure(receipts, k) && blamed == Some(receipts[k])
    else blamed == None
  }

  /** What a loop over the receipts keeps: the status of the failure, until its executor is known. */
  function Blamed(receipts: seq<Receipt>): Option<Receipt>
    decreases |receipts|
  {
    if receipts == [] then None
    else
      var earlier := Blamed(receipts[..|receipts| - 1]);
      var last := receipts[|receipts| - 1];
      if last.fails && (earlier.None? || earlier.value.executor.None?) then Some(last) else earlier
  }

  predicate LastFailure(receipts: seq<Receipt>, k: int) {
    && 0 <= k < |receipts| && receipts[k].fails
    && forall j :: k < j < |receipts| ==> !receipts[j].fails
  }

  /** Without a known failure the last failure is kept, if there is one. */
  lemma {:induction false} BlamesTheLast(receipts: seq<Receipt>)
    requires forall j :: 0 <= j < |receipts| && receipts[j].fails ==> receipts[j].executor.None?
    ensures match Blamed(receipts)
      case None => forall j :: 0 <= j < |receipts| ==> !receipts[j].fails
      case Some(r) =>
        r.fails && r.executor.None? && exists k :: LastFailure(receipts, k) && receipts[k] == r
    decreases |receipts|
  {
    if receipts != [] {
      var n := |receipts| - 1;
      BlamesTheLast(receipts[..n]);
      if receipts[n].fails {
        assert LastFailure(receipts, n);
      } else if Blamed(receipts).Some? {
        var k :| LastFailure(receipts[..n], k) && receipts[..n][k] == Blamed(receipts).value;
        assert forall j :: 0 <= j < n ==> receipts[..n][j] == receipts[j];
        assert LastFailure(receipts, k);
      }
    }
  }

  /** The first known failure is kept once it is there. */
  lemma {:induction false} BlamesTheFirstKnown(receipts: seq<Receipt>, k: int)
    requires FirstKnownFailure(receipts, k)
    ensures Blamed(receipts) == Some(receipts[k])
    decreases |receipts|
  {
    var n := |receipts| - 1;
    if k < n {
      BlamesTheFirstKnown(receipts[..n], k);
    } else {
      BlamesTheLast(receipts[..n]);
    }
  }

  /** Either there is a first known failure, or no failure has a known executor. */
  lemma {:induction false} FirstKnownFailureExists(receipts: seq<Receipt>, n: nat)
    requires n <= |receipts| && forall k :: !FirstKnownFailure(receipts, k)
    ensures forall j :: 0 <= j < n && receipts[j].fails ==> receipts[j].executor.None?
  {
    if n > 0 {
      FirstKnownFailureExists(receipts, n - 1);
      assert !FirstKnownFailure(receipts, n - 1);
    }
  }

  /** Whatever the receipts, the status that is kept is the right one. */
  lemma BlamedIsRight(receipts: seq<Receipt>)
    ensures IsBlamed(receipts, Blamed(receipts))
    ensures (exists k :: FirstKnownFailure(receipts, k)) <==> ExecutorOf(Blamed(receipts)).Some?
  {
    if k :| FirstKnownFailure(receipts, k) {
      BlamesTheFirstKnown(receipts, k);
    } else {
      FirstKnownFailureExists(receipts, |receipts|);
      BlamesTheLast(receipts);
    }
  }

  lemma KnownFailureUnique(receipts: seq<Receipt>)
    ensures forall j, k :: FirstKnownFailure(receipts, j) && FirstKnownFailure(receipts, k) ==> j == k
  {
  }

  // ----- the two classifiers --------------------------------------------------

  function ExecutorOf(blamed: Option<Receipt>): Option<string> {
    if blamed.Some? then blamed.value.executor else None
  }

  function ReasonOf(blamed: Option<Receipt>, conversionReason: Option<string>): Option<string> {
    if blamed.Some? && blamed.value.reason.Some? then blamed.value.reason else conversionReason
  }

  function ClassifiedGeneric(s: TxStatus): GenericClassification {
    match s
    case Unreachable(message) => GenericClassification(GenericPending, None, None, Some(message))
    case Known(receipts, conversionFails, conversionReason) =>
      var blamed := Blamed(receipts);
      if ExecutorOf(blamed).None? && !conversionFails then GenericClassification(GenericSuccess, None, None, None)
      else GenericClassification(GenericFailure, ExecutorOf(blamed), ReasonOf(blamed, conversionReason), None)
  }

  function ClassifiedFa(mpc: set<string>, s: TxStatus): FaClassification {
    match s
    case Unreachable(message) => FaClassification(RpcPending, None, None, None, Some(message))
    case Known(receipts, conversionFails, conversionReason) =>
      var reached := ReachedMpc(mpc, receipts);
      var blamed := Blamed(receipts);
      var executor := ExecutorOf(blamed);
      var reason := ReasonOf(blamed, conversionReason);
      if executor.None? && !conversionFails then FaClassification(Success, Some(reached), None, None, None)
      else if blamed.Some? && RanMpc(mpc, blamed.value) then FaClassification(MpcFailure, Some(true), executor, reason, None)
      else if reached && executor.Some? then FaClassification(OtherFailure, Some(true), executor, reason, None)
      else FaClassification(GuardFailure, Some(reached), executor, reason, None)
  }

  /** The collector that only counts successes and failures. */
  method ClassifyTxGeneric(s: TxStatus) returns (c: GenericClassification)
    ensures c == ClassifiedGeneric(s)
  {
    match s {
      case Unreachable(message) => return GenericClassification(GenericPending, None, None, Some(message));
      case Known(receipts, conversionFails, conversionReason) =>
        var firstFailingExecutor: Option<string> := None;
        var failureReason: Option<string> := None;
        for i := 0 to |receipts|
          invariant firstFailingExecutor == ExecutorOf(Blamed(receipts[..i]))
          invariant failureReason == ReasonOf(Blamed(receipts[..i]), None)
        {
          assert receipts[..i + 1][..i] == receipts[..i];
          if firstFailingExecutor == None && receipts[i].fails {
            firstFailingExecutor := receipts[i].executor;
            failureReason := receipts[i].reason;
          }
        }
        assert receipts[..|receipts|] == receipts;
        if firstFailingExecutor == None && !conversionFails {
          return GenericClassification(GenericSuccess, None, None, None);
        }
        return GenericClassification(GenericFailure, firstFailingExecutor,
                                     if failureReason.Some? then failureReason else conversionReason, None);
    }
  }

  /** The collector that tells guard, MPC and other failures apart. */
  method ClassifyTx(mpc: set<string>, s: TxStatus) returns (c: FaClassification)
    ensures c == ClassifiedFa(mpc, s)
  {
    match s {
      case Unreachable(message) => return FaClassification(RpcPending, None, None, None, Some(message));
      case Known(receipts, conversionFails, conversionReason) =>
        var reachedMpc := false;
        var firstFailingExecutor: Option<string> := None;
        var failureReason: Option<string> := None;
        for i := 0 to |receipts|
          invariant reachedMpc == ReachedMpc(mpc, receipts[..i])
          invariant firstFailingExecutor == ExecutorOf(Blamed(receipts[..i]))
          invariant failureReason == ReasonOf(Blamed(receipts[..i]), None)
        {
          assert receipts[..i + 1][..i] == receipts[..i];
          ReachedOneMore(mpc, receipts, i);
          var executor := receipts[i].executor;
          if executor.Some? && executor.value != "" && executor.value in mpc { reachedMpc := true; }
          if firstFailingExecutor == None && receipts[i].fails {
            firstFailingExecutor := executor;
            failureReason := receipts[i].reason;
          }
        }
        assert receipts[..|receipts|] == receipts;
        if firstFailingExecutor == None && !conversionFails {
          return FaClassification(Success, Some(reachedMpc), None, None, None);
        }
        var reason := if failureReason.Some? then failureReason else conversionReason;
        if firstFailingExecutor.Some? && firstFailingExecutor.value != "" && firstFailingExecutor.value in mpc {
          return FaClassification(MpcFailure, Some(true), firstFailingExecutor, reason, None);
        }
        if reachedMpc && firstFailingExecutor.Some? {
          return FaClassification(OtherFailure, Some(true), firstFailingExecutor, reason, None);
        }
        return FaClassification(GuardFailure, Some(reachedMpc), firstFailingExecutor, reason, None);
    }
  }

  lemma ReachedOneMore(mpc: set<string>, receipts: seq<Receipt>, i: nat)
    requires i < |receipts|
    ensures ReachedMpc(mpc, receipts[..i + 1]) <==> ReachedMpc(mpc, receipts[..i]) || RanMpc(mpc, receipts[i])
  {
    if ReachedMpc(mpc, receipts[..i]) {
      var k :| 0 <= k < i && RanMpc(mpc, receipts[..i][k]);
      assert receipts[..i + 1][k] == receipts[..i][k];
    }
    if RanMpc(mpc, receipts[i]) { assert receipts[..i + 1][i] == receipts[i]; }
    if ReachedMpc(mpc, receipts[..i + 1]) {
      var k :| 0 <= k < i + 1 && RanMpc(mpc, receipts[..i + 1][k]);
      assert k < i ==> receipts[..i][k] == receipts[..i + 1][k];
    }
  }

  // ----- how they relate ------------------------------------------------------

  function Merged(o: Outcome): GenericOutcome {
    match o
    case Success => GenericSuccess
    case RpcPending => GenericPending
    case _ => GenericFailure
  }

  /** Merging the three kinds of failure gives the generic classification, whatever the receipts. */
  lemma Refines(mpc: set<string>, s: TxStatus)
    ensures var fa := ClassifiedFa(mpc, s);
      ClassifiedGeneric(s) == GenericClassification(Merged(fa.outcome), fa.failingExecutor, fa.reason, fa.lastError)
  {
  }

  /** Which transactions get which outcome. */
  lemma OutcomesExactly(mpc: set<string>, receipts: seq<Receipt>, conversionFails: bool, conversionReason: Option<string>)
    ensures var c := ClassifiedFa(mpc, Known(receipts, conversionFails, conversionReason));
      var known := exists k :: FirstKnownFailure(receipts, k);
      var onMpc := exists k :: FirstKnownFailure(receipts, k) && RanMpc(mpc, receipts[k]);
      && (c.outcome == Success <==> !known && !conversionFails)
      && (c.outcome == MpcFailure <==> onMpc)
      && (c.outcome == OtherFailure <==> known && !onMpc && ReachedMpc(mpc, receipts))
      && (c.outcome == GuardFailure <==> (known && !ReachedMpc(mpc, receipts)) || (!known && conversionFails))
      && c.outcome != RpcPending
      && c.reachedMpc == Some(ReachedMpc(mpc, receipts))
  {
    BlamedIsRight(receipts);
    KnownFailureUnique(receipts);
  }

  /** A transaction is pending exactly when its status could not be had, and then nothing is known but why. */
  lemma PendingExactly(mpc: set<string>, s: TxStatus)
    ensures var c := ClassifiedFa(mpc, s);
      && (c.outcome == RpcPending <==> s.Unreachable?)
      && (s.Unreachable? ==> c.reachedMpc == None && c.failingExecutor == None && c.reason == None && c.lastError == Some(s.message))
  {
  }

  /**
   * Whom and what a failure is put down to: the first failing receipt with a known
   * executor, else the last failing receipt, whose executor is not known; what that
   * receipt does not say, the conversion may.
   */
  lemma BlameExactly(mpc: set<string>, receipts: seq<Receipt>, conversionFails: bool, conversionReason: Option<string>, k: int)
    ensures var c := ClassifiedFa(mpc, Known(receipts, conversionFails, conversionReason));
      && c.lastError == None
      && (c.outcome == Success ==> c.failingExecutor == None && c.reason == None)
      && (FirstKnownFailure(receipts, k) ==>
            && c.failingExecutor == receipts[k].executor
            && c.reason == if receipts[k].reason.Some? then receipts[k].reason else conversionReason)
      && (c.outcome != Success && (forall j :: !FirstKnownFailure(receipts, j)) ==>
            && c.failingExecutor == None
            && (LastFailure(receipts, k) ==> c.reason == if receipts[k].reason.Some? then receipts[k].reason else conversionReason)
            && ((forall j :: 0 <= j < |receipts| ==> !receipts[j].fails) ==> c.reason == conversionReason))
  {
    BlamedIsRight(receipts);
    KnownFailureUnique(receipts);
  }

  /** A failing receipt without an executor does not keep a transaction from being a success. */
  lemma ExecutorlessFailureIsSuccess(mpc: set<string>)
    ensures ClassifiedFa(mpc, Known([Receipt(None, true, Some("boom"))], false, None)).outcome == Success
  {
    OutcomesExactly(mpc, [Receipt(None, true, Some("boom"))], false, None);
  }
}
