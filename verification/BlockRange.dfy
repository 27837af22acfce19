/**
 * The arithmetic of the block walk: which window a run covers, when a run
 * gives up and jumps near the tip, and what skip-forward records.
 */
module BlockRange {
  import opened Options

  const BACKFILL_START: int := 194_800_000
  const MAX_BLOCKS_PER_RUN: int := 500

  /** The number of blocks in so many hours, at 0.61 seconds a block, rounded to nearest. */
  function LagBlocks(hours: real): int {
    (hours * 3600.0 / 0.61 + 0.5).Floor
  }

  const SKIP_TARGET_LAG: int := LagBlocks(12.0)
  const FORCE_RESET_LAG: int := LagBlocks(30.0)

  lemma LagConstants()
    ensures SKIP_TARGET_LAG == 70820 && FORCE_RESET_LAG == 177049
  {
  }

  /** A checkpoint row: absent, a number, or text that is none. */
  datatype Stored = Absent | Numeric(n: int) | Garbled

  /** JavaScript's `Number(value ?? "")`: an absent row reads as zero. */
  function Parsed(s: Stored): Option<int> {
    match s
    case Absent => Some(0)
    case Numeric(n) => Some(n)
    case Garbled => None
  }

  function Max(a: int, b: int): int { if a >= b then a else b }

  function Min(a: int, b: int): int { if a <= b then a else b }

  function ComputedStart(height: Stored, scanned: Stored, latest: int): int {
    match (Parsed(scanned), Parsed(height))
    case (Some(s), _) => s + 1
    case (None, Some(h)) => h + 1
    case (None, None) => Min(BACKFILL_START, latest)
  }

  function StartHeight(height: Stored, scanned: Stored, latest: int): int {
    Max(ComputedStart(height, scanned, latest), BACKFILL_START)
  }

  function TargetHeight(start: int, latest: int): int {
    Min(latest, start + MAX_BLOCKS_PER_RUN - 1)
  }

  /** The fallbacks are dead: only a scanned row that is no number lets the other checkpoint in. */
  lemma HeightCheckpointIsDead(height: Stored, scanned: Stored, latest: int)
    requires scanned != Garbled
    ensures StartHeight(height, scanned, latest) == StartHeight(Absent, scanned, 0)
    ensures scanned == Absent ==> StartHeight(height, scanned, latest) == 194_800_000
  {
  }

  /** A jump: the range to ledger; the scanned checkpoint becomes its end. */
  datatype Jump = Jump(lo: int, hi: int)

  /** The periodic reset inside a run that starts at `start`. */
  function InRunReset(start: int, latest: int): Option<Jump> {
    if latest - (start - 1) >= FORCE_RESET_LAG && latest - SKIP_TARGET_LAG > start
    then Some(Jump(start, latest - SKIP_TARGET_LAG - 1))
    else None
  }

  /** Skip-forward from a scanned checkpoint. */
  function SkipForward(scanned: int, latest: int, hoursBack: real): Option<Jump> {
    var hi := latest - LagBlocks(hoursBack) - 1;
    if hi - (scanned + 1) + 1 <= 0 then None else Some(Jump(scanned + 1, hi))
  }

  /** What probing the next height said, when it is asked. */
  datatype Probe = ProbeServed | ProbeMissing | ProbeUnclear

  /** The boot-time guard: whether it runs skip-forward. */
  function Stranded(scanned: int, latest: int, hoursBack: real, maxLagHours: real, probe: Probe): bool {
    var lag := latest - scanned;
    lag >= LagBlocks(hoursBack) && (lag >= LagBlocks(maxLagHours) || probe == ProbeMissing)
  }

  /** The boot guard with its default hours. */
  function BootReset(scanned: int, latest: int, probe: Probe): Option<Jump> {
    if Stranded(scanned, latest, 12.0, 30.0, probe) then SkipForward(scanned, latest, 12.0) else None
  }

  /** Once the lag is there, the second test of the in-run reset always passes. */
  lemma InnerGuardNeverBlocks(start: int, latest: int)
    ensures InRunReset(start, latest).Some? <==> latest - (start - 1) >= FORCE_RESET_LAG
  {
    LagConstants();
  }

  /**
   * With the next height still served, so that only the lag can decide, the
   * boot guard and a run make the same jump, or both make none, exactly when
   * the scanned checkpoint is no lower than the block before the backfill
   * floor, or the chain itself is too short of it to call for a jump.
   */
  lemma ResetsAgree(height: Stored, scanned: int, latest: int)
    ensures BootReset(scanned, latest, ProbeServed) == InRunReset(StartHeight(height, Numeric(scanned), latest), latest)
            <==> scanned >= BACKFILL_START - 1 || latest - scanned < FORCE_RESET_LAG
  {
    LagConstants();
  }

  /** Below the backfill height the boot guard ledgers heights that a run would not. */
  lemma ResetsDisagreeBelow(height: Stored)
    ensures BootReset(194_000_000, 200_000_000, ProbeServed) == Some(Jump(194_000_001, 199_929_179))
    ensures InRunReset(StartHeight(height, Numeric(194_000_000), 200_000_000), 200_000_000) == Some(Jump(BACKFILL_START, 199_929_179))
  {
    LagConstants();
    hide LagBlocks;
  }

  /** After a jump at tip `latest` no run jumps again until the chain has grown by the difference of the two lags. */
  lemma RefiresExactly(height: Stored, start: int, latest: int, later: int)
    requires InRunReset(start, latest).Some? && start >= BACKFILL_START
    ensures var scanned := InRunReset(start, latest).value.hi;
      InRunReset(StartHeight(height, Numeric(scanned), later), later).Some? <==>
      later >= latest + (FORCE_RESET_LAG - SKIP_TARGET_LAG) - 1
  {
    LagConstants();
  }

  /** A jump always moves the checkpoint forward. */
  lemma JumpsForward(scanned: int, latest: int, hoursBack: real)
    requires SkipForward(scanned, latest, hoursBack).Some?
    ensures SkipForward(scanned, latest, hoursBack).value.hi > scanned
    ensures SkipForward(scanned, latest, hoursBack).value.hi <= latest <==> LagBlocks(hoursBack) >= -1
  {
  }

  /** Asked for a negative number of hours, skip-forward jumps past the tip. */
  lemma NegativeHoursOvershoot()
    ensures SkipForward(200_000_000, 200_000_100, -1.0) == Some(Jump(200_000_001, 200_006_001))
  {
    assert LagBlocks(-1.0) == -5902 by {
      assert -1.0 * 3600.0 / 0.61 + 0.5 > -5902.0 && -1.0 * 3600.0 / 0.61 + 0.5 < -5901.0;
    }
  }
}
