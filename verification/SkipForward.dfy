/** Skip-forward and the boot guard as they are written, on the rows the ingest shares. */
module SkipForward {
  import opened Options
  import opened BlockRange
  import opened NearIngest

  datatype Summary = Summary(scanned: int, latest: int, gap: Jump, confirmed: bool)

  datatype Answer = Refused | Summarised(summary: Summary)

  function GapSize(j: Jump): int { j.hi - j.lo + 1 }

  class SkipForwardService {
    const store: Store

    constructor (store: Store)
      ensures this.store == store
    {
      this.store := store;
    }

    /**
     * Ledgers the gap and moves both checkpoints to its end, when there is a gap and
     * the caller confirms; otherwise nothing changes. Without a scanned checkpoint
     * or a tip it refuses.
     */
    method Run(latest: Option<int>, confirm: bool, hoursBack: real) returns (answer: Answer)
      modifies store
      ensures answer.Refused? <==> !old(store.scanned).Numeric? || latest.None?
      ensures answer.Summarised? ==>
        var scanned := old(store.scanned).n;
        var gap := answer.summary.gap;
        && answer.summary == Summary(scanned, latest.value, Jump(scanned + 1, latest.value - LagBlocks(hoursBack) - 1), confirm)
        && (GapSize(gap) > 0 <==> BlockRange.SkipForward(scanned, latest.value, hoursBack) == Some(gap))
      ensures answer.Summarised? && confirm && GapSize(answer.summary.gap) > 0 ==>
        var gap := answer.summary.gap;
        && store.ledger == old(store.ledger) + {(gap.lo, gap.hi)}
        && store.scanned == Numeric(gap.hi) && store.height == Numeric(gap.hi)
      ensures answer.Refused? || !confirm || GapSize(answer.summary.gap) <= 0 ==>
        store.scanned == old(store.scanned) && store.height == old(store.height) && store.ledger == old(store.ledger)
    {
      hide LagBlocks;
      if !store.scanned.Numeric? || latest == None { return Refused; }
      var scanned, tip := store.scanned.n, latest.value;
      var skipTarget := tip - LagBlocks(hoursBack);
      var gap := Jump(scanned + 1, skipTarget - 1);
      answer := Summarised(Summary(scanned, tip, gap, confirm));
      if GapSize(gap) <= 0 || !confirm { return; }
      if (gap.lo, gap.hi) !in store.ledger {
        store.ledger := store.ledger + {(gap.lo, gap.hi)};
      }
      store.scanned := Numeric(skipTarget - 1);
      store.height := Numeric(skipTarget - 1);
    }

    /**
     * Skips when the checkpoint is stranded at the tip it sees first, and then to
     * where the tip it sees second is. `probe` says what the next height answers,
     * which matters only between the two lags.
     */
    method AutoSkipIfStranded(first: Option<int>, second: Option<int>, hoursBack: real, maxLagHours: real, probe: Probe)
      returns (answer: Option<Answer>)
      modifies store
      ensures answer.Some? <==>
        && old(store.scanned).Numeric? && first.Some?
        && var lag := first.value - old(store.scanned).n;
           lag >= LagBlocks(hoursBack) && (lag >= LagBlocks(maxLagHours) || probe == ProbeMissing)
      ensures answer.Some? <==>
        old(store.scanned).Numeric? && first.Some? && Stranded(old(store.scanned).n, first.value, hoursBack, maxLagHours, probe)
      ensures answer.None? ==>
        store.scanned == old(store.scanned) && store.height == old(store.height) && store.ledger == old(store.ledger)
      ensures answer.Some? ==>
        match (if second.Some? then BlockRange.SkipForward(old(store.scanned).n, second.value, hoursBack) else None)
        case Some(jump) =>
          && store.scanned == Numeric(jump.hi) && store.height == Numeric(jump.hi)
          && store.ledger == old(store.ledger) + {(jump.lo, jump.hi)}
        case None =>
          store.scanned == old(store.scanned) && store.height == old(store.height) && store.ledger == old(store.ledger)
      ensures answer.Some? ==> (answer.value.Refused? <==> second.None?)
    {
      hide LagBlocks;
      if !store.scanned.Numeric? || first == None { return None; }
      var lag := first.value - store.scanned.n;
      if lag < LagBlocks(hoursBack) { return None; }
      if lag < LagBlocks(maxLagHours) {
        match probe {
          case ProbeServed => return None;
          case ProbeUnclear => return None;
          case ProbeMissing =>
        }
      }
      var a := Run(second, true, hoursBack);
      answer := Some(a);
    }
  }

  /**
   * After a jump of the boot guard with the default hours, an ingest run jumps again
   * only once the chain has grown by the difference of the two lags (and is that long
   * past the backfill height). The guard itself
   * does so then too, but also as soon as the tip has moved at all, if the next
   * height is missing everywhere: the lag it left is already the lag it asks for.
   */
  lemma SecondJumpExactly(height: Stored, scanned: int, latest: int, later: int, before: Probe, probe: Probe)
    requires BootReset(scanned, latest, before).Some?
    ensures var hi := BootReset(scanned, latest, before).value.hi;
      var grown := later >= latest + (FORCE_RESET_LAG - SKIP_TARGET_LAG) - 1;
      && (BootReset(hi, later, probe).Some? <==> grown || (probe == ProbeMissing && later >= latest + 1))
      && (InRunReset(StartHeight(height, Numeric(hi), later), later).Some? <==> grown && later >= BACKFILL_START + FORCE_RESET_LAG - 1)
  {
    LagConstants();
    hide LagBlocks;
  }

  /** A guard that jumps twice within one block: the second time over a single height. */
  lemma SecondJumpAtOnce()
    ensures BootReset(200_000_000, 200_100_000, ProbeMissing) == Some(Jump(200_000_001, 200_029_179))
    ensures BootReset(200_029_179, 200_100_001, ProbeMissing) == Some(Jump(200_029_180, 200_029_180))
  {
    LagConstants();
    hide LagBlocks;
  }
}
