# NEAR indexer: model and proofs

A NEAR block indexer walks the chain block by block, asks a small pool of public RPC
endpoints for blocks and chunks, keeps the transactions that concern FastAuth
contracts and accounts, and resolves the keys found in them to accounts. This
project models its core in Dafny and proves what that core is for. Run `dafny verify
dfyconfig.toml` here to check it.

## What is modelled

- **The checkpoint protocol** (`BlockRange`, `NearBlock`, `BlockWalk`, `NearIngest`,
  `SkipForward`, `CheckpointProtocol`, `LedgerReasons`, `SerialRuns`). The ingest
  run appears three times: as a class with loops (`NearIngest.Service.RunOnce`), as
  a function from rows to rows (`BlockWalk.AfterRun`), and as the moves of one actor
  in a system where any number of runs and skip-forwards interleave at their awaits
  and processes crash between any two writes (`CheckpointProtocol.Step`). The method
  is proved equal to the function; a run of the system that nothing disturbs is
  proved equal to it too (`SerialRuns.UndisturbedRun`). Coverage of the heights, the
  reasons of every ledgered range and the tip bound hold in every interleaving. The
  checkpoint never falls exactly when no stale run writes below what is stored
  (`SerialRuns.FallsExactly`), so never with one run at a time; with runs that
  overlap it can (`SerialRuns.OverlapLowers`). `IndexedChain` joins the protocol
  with the rows of `TxRows`: what the checkpoint passes is in the tables. A height
  is "processed" when its processing returned; a failed membership probe can still
  have lost a user row.
- **The sign payload decoder** (`Numerals`, `Base58`, `DelegateFormat`,
  `PayloadDecoder`, `PayloadTheorems`, `StrictFormat`, `SignPayload`). The encoder
  of NEP-366 (section "Specification", with the prefix tag of NEP-461, section
  "Specification") is the specification; the skip parser is proved to accept exactly
  what it produces. In one place the encoder is wider than the standard, because the
  reader is: an absent allowance may have any tag but 1, where Borsh writes 0;
  `StrictFormat` says which encodings are of the standard. Base58 follows section 3
  of draft-msporny-base58.
- **The RPC pool** (`SmoothRoundRobin`, `RpcPool`, `BlacklistHistory`,
  `NearRpcService`, `RequestSlots`). Time and the world's answers are parameters;
  what concurrent requests do while one waits is an arbitrary list of pool events.
- **The concurrency primitives** (`WorkerPools`, `SingleFlight` in `TtlMemo.dfy`,
  `Scheduler`). Each is a step system whose steps are the code between awaits, with
  a class beside it whose methods are those steps. In the plain pool the caller
  hears of a failure at once; `failure` is what it hears, while the other runners go
  on.
- **Data refinements** (`HealthClassifiers`, `HealthRows`, `LinkAccounts`, `TxRows`,
  `RangeProgress`), with the choice of chunks to fetch (`ChunkSelection`) and the
  membership probes (`MembershipProbe`).

Where the code and its comments disagree the code is followed: skip-forward goes
back 12 hours, not 24; a height counts as missing with one dissenting endpoint, not
by agreement of all; a missing scanned checkpoint reads as zero, so the fallbacks
behind it are dead.

Some expected properties are false of the code. Each is stated with the exact
condition under which it holds and an input that breaks it: the aborting pool
swallows a null rejection (`AbortVerdict`, `NullIsSwallowed`), the memo is single
flight unless a factory re-enters it (`SingleFlightExactly`,
`ReentryDoublesTheCall`), a jump stays at or below the tip for a lag of at least
minus one block (`JumpsForward`, `NegativeHoursOvershoot`), the two resets agree
from the backfill height on (`ResetsAgree`, `ResetsDisagreeBelow`), an untagged body
is read as its own unless its sender is as long as the tag's value and spells
another DelegateAction (`BareKeyRoundTrip`, `BareKeyNeedsGuard`), the boot guard
does not jump again before the lag has regrown unless the next height is missing
everywhere (`SecondJumpExactly`, `SecondJumpAtOnce`), a verdict of a health row
stands unless a pass that read the row before it writes a pending answer
(`KeepsVerdictsExactly`, `OverlapUnresolves`), and key counts survive a cut after
the links only without new links, a cut after the insert of accounts only without
new links of older accounts (`CutAfterLinks`, `CutAfterInsert`, `UncountedLink`); a
wrong count is never repaired (`NeverRepaired`).

The links of a batch rest on what the lookup returns: accounts that do not repeat
and have no colon in them
(src/modules/public-key-accounts/pubkey-lookup.service.ts:50-56). That a transaction
hash names one transaction in one block is an assumption of the results in `TxRows`;
without it the last transaction of a block would win.

## Model

| member | source | states |
|---|---|---|
| `CheckpointProtocol.Coverage` | src/modules/near-ingest/near-ingest.service.ts:186-379 | main result: in every interleaving of ingest runs and skip-forwards, over any number of processes, with failures and crashes between any two writes, every height from the first start up to the scanned checkpoint is processed or lies in a ledgered range |
| `CheckpointProtocol.RunKeepsCoverage` | src/modules/near-ingest/near-ingest.service.ts:186-379 | the same for the whole invariant, so that it holds at every step: what each run in progress may still write is covered too, and its pending, failed and done heights share its window |
| `CheckpointProtocol.StepKeepsCoverage` | src/modules/near-ingest/near-ingest.service.ts:186-379 | no event, among them booting, crashing and failing anywhere, breaks the invariant or takes back a processed height or a ledgered range with its reason |
| `CheckpointProtocol.MoveKeepsCoverage` | src/modules/ops/skip-forward.service.ts:61-151 | no stretch of code between two awaits of an ingest run or a skip-forward breaks it, stale reads and an already ledgered range included |
| `CheckpointProtocol.DecidesCovered` | src/modules/near-ingest/near-ingest.service.ts:434-454 | a run starts no further than right behind what was covered when it read the checkpoints, also when the scanned row is absent or no number |
| `CheckpointProtocol.ConcludesCovered` | src/modules/near-ingest/near-ingest.service.ts:323-379 | whatever a finished walk is about to write is covered, given the range it is about to ledger |
| `CheckpointProtocol.BeyondTheWedge` | src/modules/near-ingest/near-ingest.service.ts:361-366 | between the end of a skipped wedge and the checkpoint written after it every height was completed |
| `CheckpointProtocol.RecordedCovers` | src/modules/near-ingest/near-ingest.service.ts:853-859 | once the range is in the ledger, by whoever inserted it, the checkpoint may move to its end |
| `CheckpointProtocol.SettlesCovered` | src/modules/near-ingest/near-ingest.service.ts:280-301 | a height that settles moves from pending to done or to failed, and the three still share the window |
| `CheckpointProtocol.MovesGrow` | src/modules/near-ingest/near-ingest.service.ts:853-859 | nothing but additions ever happens to the processed heights and the ledger |
| `LedgerReasons.LedgerIsGrounded` | src/modules/near-ingest/near-ingest.service.ts:338-375 | main result: whatever runs add to the ledger, in any interleaving, is a reset that was due, a skip-forward that was asked for, or a wedge: at least two runs of one process in a row stuck at its first height, and every height in it failed in all four passes, in the end with two endpoints reporting its chunk missing and at most one not |
| `LedgerReasons.RunKeepsGrounds` | src/modules/near-ingest/near-ingest.service.ts:338-375 | the invariant behind it, for runs in progress as well |
| `LedgerReasons.CounterIsExact` | src/modules/near-ingest/near-ingest.service.ts:337-373 | main result: after any events of any runs the wedge counter of a process is, at every frontier, the number of its runs stuck there in a row since the last skip or progress |
| `LedgerReasons.CountingIsHonest` | src/modules/near-ingest/near-ingest.service.ts:337-345 | counting a run keeps that equality |
| `LedgerReasons.VerdictExactly` | src/modules/near-ingest/near-ingest.service.ts:337-345 | a finished walk counts as stuck, as progress or not at all exactly by whether its first height is done, or whether it has none |
| `LedgerReasons.ConcludesGrounded` | src/modules/near-ingest/near-ingest.service.ts:338-375 | a walk decides to ledger a wedge only on that evidence |
| `LedgerReasons.ConcludesAs` | src/modules/near-ingest/near-ingest.service.ts:338-381 | a walk ends by writing, by ledgering a range that begins at its start for the reason of its own verdict, or by doing nothing |
| `LedgerReasons.SettlingTracks` | src/modules/near-ingest/near-ingest.service.ts:279-303 | heights settling in any order leave the same picture: who failed in this pass, who is done, which error was last |
| `LedgerReasons.FinishedWalk` | src/modules/near-ingest/near-ingest.service.ts:305-321 | whatever the schedule, a finished walk has failed and done exactly the heights that the passes leave failed and done, and stops its wedge at the same height |
| `SerialRuns.FallsExactly` | src/modules/near-ingest/near-ingest.service.ts:377-379 | main result: under any interleaving the scanned checkpoint never falls if and only if no stale run, one whose reading another run has overwritten since, writes below what is stored |
| `SerialRuns.StepFallsExactly` | src/modules/ops/skip-forward.service.ts:138-146 | an event lowers the checkpoint only as the write of a stale run, and then exactly when what it writes is below what is stored |
| `SerialRuns.SerialRunsNeverLower` | src/modules/near-ingest/near-ingest.service.ts:186-214 | so runs that do not overlap never lower it at any step, wherever they are cut short |
| `SerialRuns.NeverPastTheTip` | src/modules/near-ingest/near-ingest.service.ts:377-379 | under any interleaving no run writes a checkpoint above the highest tip seen, as long as nobody asks skip-forward for less than minus one block |
| `SerialRuns.SerialAndCapped` | src/modules/near-ingest/near-ingest.service.ts:434-454 | both, from a system at rest |
| `SerialRuns.OverlapLowers` | src/modules/indexer-trigger/indexer-trigger.controller.ts:28-37 | with overlap the checkpoint can fall: a run of events in which an ingest run lowers what a skip-forward wrote |
| `SerialRuns.UndisturbedRun` | src/modules/near-ingest/near-ingest.service.ts:164-428 | a run of the step system that nothing disturbs leaves the rows and the counter exactly as `BlockWalk.AfterRun` says |
| `SerialRuns.UndisturbedSkipForward` | src/modules/ops/skip-forward.service.ts:61-151 | and an undisturbed skip-forward ledgers its gap and moves both checkpoints, whichever it writes first |
| `SerialRuns.MoveKeepsOutcome` | src/modules/near-ingest/near-ingest.service.ts:164-428 | each of its moves keeps what the run will have done |
| `SerialRuns.WalkOutcome` | src/modules/near-ingest/near-ingest.service.ts:323-379 | the decision at the end of a walk agrees with that of the whole-run function |
| `BlockRange.LagConstants` | src/modules/near-ingest/near-ingest.service.ts:75-77 | the skip target is 70820 blocks, the reset threshold 177049 |
| `BlockRange.HeightCheckpointIsDead` | src/modules/near-ingest/near-ingest.service.ts:440-450 | the other checkpoint and the tip do not matter unless the scanned row is no number; without a scanned row the start is the backfill height |
| `BlockRange.InnerGuardNeverBlocks` | src/modules/near-ingest/near-ingest.service.ts:186-189 | once the lag is there the second test of the reset always passes |
| `BlockRange.ResetsAgree` | src/modules/ops/skip-forward.service.ts:172-199 | with the next height served, boot guard and in-run reset make the same jump or none, exactly when the scanned checkpoint is at least the backfill height minus one or the chain is too short of it for any jump |
| `BlockRange.ResetsDisagreeBelow` | src/modules/near-ingest/near-ingest.service.ts:450-450 | an input below the backfill height on which they differ |
| `BlockRange.RefiresExactly` | src/modules/near-ingest/near-ingest.service.ts:186-214 | after a jump the next one comes exactly when the chain has grown by the difference of the two lags less one |
| `BlockRange.JumpsForward` | src/modules/ops/skip-forward.service.ts:75-79 | a jump always moves the checkpoint forward, and stays at or below the tip exactly when the hours are at least minus one block |
| `BlockRange.NegativeHoursOvershoot` | src/modules/ops/skip-forward.service.ts:75-79 | an input that jumps past the tip |
| `SkipForward.SecondJumpExactly` | src/modules/ops/skip-forward.service.ts:160-200 | after the boot guard has jumped, an ingest run jumps again exactly when the chain has grown by the difference of the lags (and is long enough past the backfill height); the guard itself does then too, and also as soon as the tip has moved if the next height is missing everywhere |
| `SkipForward.SecondJumpAtOnce` | src/modules/ops/skip-forward.service.ts:172-193 | an input on which it jumps twice within a block, the second time over a single height |
| `SkipForward.SkipForwardService.Run` | src/modules/ops/skip-forward.service.ts:61-151 | refuses without a checkpoint or a tip; ledgers the gap and moves both checkpoints when there is one and it is confirmed; changes nothing otherwise |
| `SkipForward.SkipForwardService.AutoSkipIfStranded` | src/modules/ops/skip-forward.service.ts:160-200 | answers exactly when stranded at the first tip, and then jumps to where the second tip is, in all three rows, or changes nothing without a gap or a second tip |
| `BlockWalk.FailedEveryPass` | src/modules/near-ingest/near-ingest.service.ts:305-319 | what still fails after any number of rounds is what failed in every pass |
| `BlockWalk.NothingLeftToRetry` | src/modules/near-ingest/near-ingest.service.ts:312-319 | when nothing fails further rounds change nothing, so the loop may stop early |
| `BlockWalk.WalkPartitions` | src/modules/near-ingest/near-ingest.service.ts:265-319 | after any round completed and failing heights share the window |
| `BlockWalk.DoneExactly` | src/modules/near-ingest/near-ingest.service.ts:265-319 | a height of the window is done exactly when in some of the four passes it was persisted or nobody had it |
| `BlockWalk.WindowSize` | src/modules/near-ingest/near-ingest.service.ts:451-451 | the window has 500 heights, or as many as there are up to the tip |
| `BlockWalk.ResetExactly` | src/modules/near-ingest/near-ingest.service.ts:186-214 | a run 177049 blocks behind ledgers from its start up to 70821 below the tip, moves both checkpoints there, and leaves the counter |
| `BlockWalk.AdvanceExactly` | src/modules/near-ingest/near-ingest.service.ts:323-379 | a walk whose first height is done moves both checkpoints to the end of what is done and forgets any wedge |
| `BlockWalk.SkipExactly` | src/modules/near-ingest/near-ingest.service.ts:338-379 | a walk whose first height is not done counts one more stuck run; from the second on, if the chunk of that height is gone, it ledgers exactly the heights in front whose chunks are gone and moves past what is done behind them; otherwise it changes no row |
| `BlockWalk.NoWindowNothing` | src/modules/near-ingest/near-ingest.service.ts:337-379 | a walk without a window changes nothing, the counter included |
| `BlockWalk.WedgeIsSkipped` | src/modules/near-ingest/near-ingest.service.ts:329-375 | main result: a wedge does not last; the second of two runs with the same start that did not complete it ledgers it and writes a checkpoint behind it, if its chunk is gone |
| `BlockWalk.Frontier` | src/modules/near-ingest/near-ingest.service.ts:323-327 | the end of the longest run of completed heights |
| `BlockWalk.FrontierUnique` | src/modules/near-ingest/near-ingest.service.ts:323-327 | there is only one such end |
| `BlockWalk.WedgeEnd` | src/modules/near-ingest/near-ingest.service.ts:349-353 | the end of the longest run of failing heights that nobody can serve |
| `BlockWalk.WedgeEndAgrees` | src/modules/near-ingest/near-ingest.service.ts:349-353 | only the last errors of heights that still fail matter to it |
| `BlockWalk.SkipAdvances` | src/modules/near-ingest/near-ingest.service.ts:354-366 | a run that skips a wedge moves the checkpoint at least to its end and stays in its window |
| `BlockWalk.SkippedExactly` | src/modules/near-ingest/near-ingest.service.ts:338-354 | a frontier is skipped if and only if it is stuck, has been for two runs, and nobody can serve it |
| `NearIngest.Service.RunHeights` | src/modules/near-ingest/near-ingest.service.ts:279-303 | one pass, in any order: who failed, who completed, with the error of each failure |
| `NearIngest.Service.WalkWindow` | src/modules/near-ingest/near-ingest.service.ts:257-319 | first pass and retries leave exactly the heights that failed every pass |
| `NearIngest.Service.FindFrontier` | src/modules/near-ingest/near-ingest.service.ts:323-327 | the loop finds the frontier |
| `NearIngest.Service.FindWedge` | src/modules/near-ingest/near-ingest.service.ts:348-353 | the loop finds the end of the wedge |
| `NearIngest.Service.CountRun` | src/modules/near-ingest/near-ingest.service.ts:337-345 | the counter moves as the verdict of the run says |
| `NearIngest.Service.SkipWedge` | src/modules/near-ingest/near-ingest.service.ts:347-374 | ledgers, advances, drops the skipped heights from what is deferred and resets the counter, or changes nothing |
| `NearIngest.Service.RecordSkippedRange` | src/modules/near-ingest/near-ingest.service.ts:853-859 | recording is idempotent |
| `NearIngest.Service.RunOnce` | src/modules/near-ingest/near-ingest.service.ts:164-428 | the whole run: rows and counter become those of `AfterRun`, and the report names the reset or the window that `computeRange` gives, the checkpoint written, and defers heights that still fail and no other, all those above the checkpoint among them |
| `NearBlock.CompletesExactly` | src/modules/near-ingest/near-ingest.service.ts:560-573 | a height is completed exactly when its block was persisted or is reported missing everywhere |
| `NearBlock.UnfetchableIsAChunk` | src/modules/near-ingest/near-block.service.ts:98-118 | a deferred height judged unfetchable lost a chunk |
| `SmoothRoundRobin.Best` | src/modules/common/near-rpc/near-rpc.service.ts:165-174 | the first open endpoint with the highest score |
| `SmoothRoundRobin.PickKeepsBalance` | src/modules/common/near-rpc/near-rpc.service.ts:164-176 | a pick keeps the open scores summing to zero and above minus the total weight |
| `SmoothRoundRobin.AlwaysBalanced` | src/modules/common/near-rpc/near-rpc.service.ts:164-176 | so it is after every pick |
| `SmoothRoundRobin.ScoreLedger` | src/modules/common/near-rpc/near-rpc.service.ts:164-176 | a score is the weight times the picks so far minus the total times how often the endpoint was chosen |
| `SmoothRoundRobin.NeverAhead` | src/modules/common/near-rpc/near-rpc.service.ts:164-176 | no endpoint is ever chosen more than its share plus less than one |
| `SmoothRoundRobin.FirstRound` | src/modules/common/near-rpc/near-rpc.service.ts:164-176 | the first round chooses each open endpoint its weight and ends with zero scores |
| `SmoothRoundRobin.Periodic` | src/modules/common/near-rpc/near-rpc.service.ts:164-176 | after a round the scores repeat |
| `SmoothRoundRobin.ExactShare` | src/modules/common/near-rpc/near-rpc.service.ts:164-176 | every window of as many picks as the total weight, wherever it begins, chooses each open endpoint exactly its weight |
| `RpcPool.PicksFollowTheWheel` | src/modules/common/near-rpc/near-rpc.service.ts:129-176 | while the same endpoints stay open the pool's own picks are, pick by pick, those with the exact shares |
| `RpcPool.Available` | src/modules/common/near-rpc/near-rpc.service.ts:150-156 | there is always an open endpoint to pick from |
| `RpcPool.Picked` | src/modules/common/near-rpc/near-rpc.service.ts:164-176 | a picked endpoint is never blacklisted |
| `RpcPool.FreshConsistent` | src/modules/common/near-rpc/near-rpc.service.ts:103-127 | a new pool is consistent if and only if one failure is allowed at all |
| `RpcPool.EventsKeepConsistent` | src/modules/common/near-rpc/near-rpc.service.ts:129-156 | whatever requests do, an open endpoint has fewer failures than the maximum and a blacklisted one a time of failure |
| `RpcPool.RequestKeepsConsistent` | src/modules/common/near-rpc/near-rpc.service.ts:237-333 | a whole request keeps it, whatever others do meanwhile |
| `BlacklistHistory.PoolShowsHistory` | src/modules/common/near-rpc/near-rpc.service.ts:129-156 | main result: after any events the records show, for every endpoint, its failures since it was last served, lifted or forgotten: their number, the last one's time, and whether they blacklist it |
| `BlacklistHistory.BlacklistedExactly` | src/modules/common/near-rpc/near-rpc.service.ts:237-246 | an open endpoint is blacklisted exactly by a failure that does so at once, or by the one that reaches the maximum since then |
| `BlacklistHistory.LiftedExactly` | src/modules/common/near-rpc/near-rpc.service.ts:129-156 | it is open again exactly when served, or at a pick when more than the duration has passed since its last failure or nobody is open |
| `BlacklistHistory.StaysOut` | src/modules/common/near-rpc/near-rpc.service.ts:150-176 | until then it is not picked |
| `BlacklistHistory.RequestIsEvents` | src/modules/common/near-rpc/near-rpc.service.ts:248-333 | a request does to the pool what a list of such events does |
| `BlacklistHistory.LogTellsWhere` | src/modules/common/near-rpc/near-rpc.service.ts:254-258 | each entry of its log names the endpoint picked for that attempt |
| `BlacklistHistory.PickScores` | src/modules/common/near-rpc/near-rpc.service.ts:150-176 | a pick turns the wheel among those then open, from the scores they have, or among all from zero when nobody is |
| `BlacklistHistory.OnlyPicksScore` | src/modules/common/near-rpc/near-rpc.service.ts:164-176 | failures and successes leave the scores alone |
| `RpcPool.LogShape` | src/modules/common/near-rpc/near-rpc.service.ts:254-323 | the attempts of a request end at the first that is served |
| `RpcPool.VerdictEvidence` | src/modules/near-ingest/near-block.service.ts:115-118 | main result: with any interference, a request is judged to be about something missing if and only if no attempt was served, two different endpoints reported it missing and at most one contacted endpoint never did |
| `NearRpcService.Service.ClearExpiredBlacklists` | src/modules/common/near-rpc/near-rpc.service.ts:129-139 | the loop lifts the blacklistings that have run out and no other |
| `NearRpcService.Service.ResetAllEndpoints` | src/modules/common/near-rpc/near-rpc.service.ts:141-148 | the loop forgets everything |
| `NearRpcService.Service.GetAvailableEndpoints` | src/modules/common/near-rpc/near-rpc.service.ts:150-156 | lifts, and forgets all when nothing is open |
| `NearRpcService.Service.RaiseScores` | src/modules/common/near-rpc/near-rpc.service.ts:165-172 | the scan raises every open score and finds the best and the total |
| `NearRpcService.Service.PickNextEndpoint` | src/modules/common/near-rpc/near-rpc.service.ts:164-176 | the pick and the new scores are those of the model |
| `NearRpcService.Service.HandleFailure` | src/modules/common/near-rpc/near-rpc.service.ts:237-246 | what a failure does to its endpoint |
| `NearRpcService.Service.AcquireRequestSlot` | src/modules/common/near-rpc/near-rpc.service.ts:181-187 | reserves the first free slot |
| `NearRpcService.Service.AcquireAll` | src/modules/common/near-rpc/near-rpc.service.ts:181-187 | the slots of a series of callers are those of the spacing results |
| `NearRpcService.Service.Request` | src/modules/common/near-rpc/near-rpc.service.ts:248-333 | the retry loop gathers exactly the evidence of its log |
| `RequestSlots.SlotIsEarliest` | src/modules/common/near-rpc/near-rpc.service.ts:184-185 | nobody waits behind a free slot or goes before arriving |
| `RequestSlots.Spacing` | src/modules/common/near-rpc/near-rpc.service.ts:181-187 | slots are at least an interval apart, whatever the clock does |
| `RequestSlots.WindowBound` | src/modules/common/near-rpc/near-rpc.service.ts:178-187 | no window of n intervals holds more than n slots, wherever it opens |
| `PayloadTheorems.AcceptsExactly` | src/modules/common/decoders/decode-sign-action.ts:175-203 | main result: the reader accepts exactly the buffers that hold an encoded DelegateAction at the offset, absent allowances with any tag but 1 included, and then answers its key |
| `PayloadTheorems.DelegateKeyAt` | src/modules/common/decoders/decode-sign-action.ts:175-203 | whatever surrounds it, an encoded DelegateAction yields its own key |
| `PayloadTheorems.DelegateFound` | src/modules/common/decoders/decode-sign-action.ts:175-203 | whatever is accepted is an encoded DelegateAction |
| `PayloadTheorems.ActionAt` | src/modules/common/decoders/decode-sign-action.ts:85-120 | skipping an encoded action ends right after it |
| `PayloadTheorems.ActionFound` | src/modules/common/decoders/decode-sign-action.ts:85-120 | whatever action is skipped is an encoded one |
| `PayloadTheorems.ActionsFound` | src/modules/common/decoders/decode-sign-action.ts:183-189 | the same for a list of actions, with its count |
| `PayloadTheorems.AccessKeyAt` | src/modules/common/decoders/decode-sign-action.ts:60-83 | the same for an access key of either permission |
| `PayloadTheorems.AccessKeyFound` | src/modules/common/decoders/decode-sign-action.ts:60-83 | and back: what is skipped as one is one |
| `PayloadTheorems.ReadU32At` | src/modules/common/decoders/decode-sign-action.ts:37-40 | four bytes read as a number if and only if they are its little-endian form |
| `StrictFormat.ReadInOneWay` | src/modules/common/decoders/decode-sign-action.ts:175-203 | at an offset a buffer holds one DelegateAction at most: the format is unambiguous |
| `StrictFormat.StandardExactly` | src/modules/common/decoders/decode-sign-action.ts:66-70 | what is carried is an encoding of the standard if and only if every absent allowance is written as 0 |
| `StrictFormat.TagTwoIsAccepted` | src/modules/common/decoders/decode-sign-action.ts:68-70 | an accepted buffer with allowance tag 2, which no encoding of the standard is |
| `SignPayload.TaggedKeyRoundTrip` | src/modules/common/decoders/decode-sign-action.ts:205-218 | the tagged encoding yields the key |
| `SignPayload.TaggedActionType` | src/modules/common/decoders/decode-sign-action.ts:149-173 | and the name of its first action, or Empty |
| `SignPayload.ActionTypeExactly` | src/modules/common/decoders/decode-sign-action.ts:149-173 | the action type of every payload: none if short, raw if untagged, else by the header behind the tag and the byte where the first action begins |
| `SignPayload.KnownMessage` | src/modules/common/decoders/decode-sign-action.ts:21-21 | a message spelt out byte by byte, tag included |
| `SignPayload.KnownAccessKeys` | src/modules/common/decoders/decode-sign-action.ts:60-83 | an access key of either permission spelt out byte by byte |
| `SignPayload.KnownCallAndStake` | src/modules/common/decoders/decode-sign-action.ts:94-107 | a function call and a stake spelt out byte by byte |
| `SignPayload.BareKeyRoundTrip` | src/modules/common/decoders/decode-sign-action.ts:205-218 | the untagged body yields its key if and only if the sender is not as long as the tag's value, or no DelegateAction of another key stands where a tagged one would |
| `SignPayload.SenderIsReadInstead` | src/modules/common/decoders/decode-sign-action.ts:211-217 | a sender of that length which begins with a DelegateAction is read in place of the action it is part of |
| `SignPayload.BareKeyNeedsGuard` | src/modules/common/decoders/decode-sign-action.ts:205-218 | such an input exists: a body for which another key is answered |
| `SignPayload.RejectsExactly` | src/modules/common/decoders/decode-sign-action.ts:205-218 | no key is answered if and only if the payload is short or holds no DelegateAction, tagged or not |
| `SignPayload.DecodeSignDelegatePublicKey` | src/modules/common/decoders/decode-sign-action.ts:205-218 | the extractor answers the text of that key |
| `PayloadDecoder.SkipLengthPrefixed` | src/modules/common/decoders/decode-sign-action.ts:42-48 | the offset moves past the length and stays in the buffer |
| `PayloadDecoder.SkipPublicKey` | src/modules/common/decoders/decode-sign-action.ts:50-58 | the offset moves past a whole key and stays in the buffer |
| `PayloadDecoder.AfterAccessKey` | src/modules/common/decoders/decode-sign-action.ts:60-83 | the same for an access key |
| `PayloadDecoder.AfterAction` | src/modules/common/decoders/decode-sign-action.ts:85-120 | the same for an action |
| `PayloadDecoder.SkipAccessKey` | src/modules/common/decoders/decode-sign-action.ts:60-83 | the reader with its loop answers where the access key ends |
| `PayloadDecoder.SkipAction` | src/modules/common/decoders/decode-sign-action.ts:85-120 | the reader answers where the action ends |
| `PayloadDecoder.TryDecodeDelegateAction` | src/modules/common/decoders/decode-sign-action.ts:175-203 | the reader with its loop answers the key of the DelegateAction at the offset, and turns as often as counted |
| `PayloadDecoder.StringTurnsBound` | src/modules/common/decoders/decode-sign-action.ts:73-79 | the loop over method names turns at most a quarter as often as there are bytes left, plus once, whatever count is declared |
| `PayloadDecoder.ActionTurnsBound` | src/modules/common/decoders/decode-sign-action.ts:85-120 | so it is bounded inside an action |
| `PayloadDecoder.ActionsTurnsBound` | src/modules/common/decoders/decode-sign-action.ts:183-189 | and for all loops of a list of actions together |
| `PayloadDecoder.DecodeTurnsBound` | src/modules/common/decoders/decode-sign-action.ts:175-203 | so all loops of the whole reader turn less than once for each byte after the offset, whatever the counts say |
| `DelegateFormat.KeyTextInjective` | src/modules/common/decoders/decode-sign-action.ts:200-202 | different keys have different texts |
| `DelegateFormat.KeyTextExactly` | src/modules/common/decoders/decode-sign-action.ts:200-202 | a text stands for a key exactly when it names the curve and the rest decodes to the key's bytes |
| `Base58.PushedValue` | src/modules/common/decoders/decode-sign-action.ts:130-139 | taking in a byte multiplies the value of the digits by 256 and adds the byte |
| `Base58.PushedNormal` | src/modules/common/decoders/decode-sign-action.ts:130-139 | the top digit is never zero and digits stay below 58 |
| `Base58.PushByte` | src/modules/common/decoders/decode-sign-action.ts:130-139 | the loops in place do that, with a carry below 256 |
| `Base58.CollectedValue` | src/modules/common/decoders/decode-sign-action.ts:128-140 | the digits have the value of the bytes |
| `Base58.Encode` | src/modules/common/decoders/decode-sign-action.ts:122-147 | the whole encoder gives the canonical text |
| `Base58.LetterIsAlphabet` | src/modules/common/decoders/decode-sign-action.ts:35-35 | the digits are the letters of the alphabet in order |
| `Base58.RoundTrip` | src/modules/common/decoders/decode-sign-action.ts:122-147 | a reference decoder gives back the bytes, leading zeros included |
| `Base58.EncodingInjective` | src/modules/common/decoders/decode-sign-action.ts:122-147 | different byte strings have different texts |
| `Base58.TextRoundTrip` | src/modules/common/decoders/decode-sign-action.ts:122-147 | and every text over the alphabet is the text of the bytes it decodes to |
| `WorkerPools.EachClaimedOnce` | src/modules/common/concurrency.ts:14-30 | main result for every pool and schedule: claimed indices are a prefix, each settled once or held by one runner; no more runners than asked for; the failure kept is that of the log |
| `WorkerPools.FullyBusy` | src/modules/common/concurrency.ts:14-60 | until a worker fails, every pool keeps exactly as many workers busy as was asked for, at least one, as far as indices are left |
| `WorkerPools.PlainPoolRunsAll` | src/modules/common/concurrency.ts:10-31 | at the end everything ran exactly once, or every runner died; it resolves if and only if every worker succeeds |
| `WorkerPools.KeptFailure` | src/modules/common/concurrency.ts:53-57 | the failure kept is the first to arrive, where the aborting pool does not see a null |
| `WorkerPools.AbortClaimsNothing` | src/modules/common/concurrency.ts:48-60 | once a failure is noted nothing more is claimed and the failure stays |
| `WorkerPools.AbortVerdict` | src/modules/common/concurrency.ts:38-65 | at the end all that was claimed has settled; it rejects with the first failure that is not null; when it resolves, everything ran and succeeded if and only if no worker rejected with null |
| `WorkerPools.NullIsSwallowed` | src/modules/common/concurrency.ts:53-57 | an input on which it resolves although an index never ran |
| `WorkerPools.Runners.Next` | src/modules/common/concurrency.ts:22-25 | a runner takes the next index off the cursor |
| `WorkerPools.Runners.Settle` | src/modules/common/concurrency.ts:48-60 | what a runner does between two awaits |
| `WorkerPools.Runners.Drain` | src/modules/common/concurrency.ts:30-30 | settling in any order reaches an end that some schedule of the step system reaches |
| `WorkerPools.SettleAll` | src/modules/common/concurrency.ts:79-92 | whatever the order, slot i gets the outcome of task i |
| `SingleFlight.AtMostOneCall` | src/modules/common/ttl-memo.ts:16-20 | main result: unless a factory re-enters its memo, at most one call is in flight, a settling promise is always the one the memo holds, and a get that joins joins that call |
| `SingleFlight.GetExactly` | src/modules/common/ttl-memo.ts:27-53 | without re-entry a get finds the latest fulfilled value as long as the ttl has not passed since, else the call in flight, else nothing |
| `SingleFlight.SingleFlightExactly` | src/modules/common/ttl-memo.ts:27-37 | a step breaks single flight if and only if it is a get from within a factory that finds nothing |
| `SingleFlight.ReentryDoublesTheCall` | src/modules/common/ttl-memo.ts:36-37 | a run with two calls in flight |
| `SingleFlight.HitIsFresh` | src/modules/common/ttl-memo.ts:29-31 | a hit is a value some promise was fulfilled with less than the ttl ago, never a rejection |
| `SingleFlight.TtlMemo.Get` | src/modules/common/ttl-memo.ts:27-35 | what a get finds |
| `SingleFlight.TtlMemo.OnResolved` | src/modules/common/ttl-memo.ts:39-45 | the handler of a fulfilled promise |
| `SingleFlight.TtlMemo.OnRejected` | src/modules/common/ttl-memo.ts:46-49 | the handler of a rejected one |
| `Scheduler.LockIsSound` | src/modules/indexer-scheduler/indexer-scheduler.service.ts:95-122 | main result: no task runs twice at once, the counter is the number of runs and at most four, a run is let in exactly when its task is idle and there is room, the clamp never changes anything |
| `Scheduler.GateExactly` | src/modules/indexer-scheduler/indexer-scheduler.service.ts:76-83 | the gate closes exactly when more than 3000 heights lie between two known checkpoints |
| `Scheduler.GateStaysOpenAtFirst` | src/modules/indexer-scheduler/indexer-scheduler.service.ts:76-83 | an absent checkpoint, zero to the walk, is unknown to the gate, which then stays open |
| `Scheduler.SchedulerService.Enter` | src/modules/indexer-scheduler/indexer-scheduler.service.ts:95-105 | marks and counts a run that is let in, and changes nothing otherwise |
| `Scheduler.SchedulerService.Leave` | src/modules/indexer-scheduler/indexer-scheduler.service.ts:118-121 | unmarks and uncounts, however the run ends |
| `Scheduler.SchedulerService.EnterUnlessCatchingUp` | src/modules/indexer-scheduler/indexer-scheduler.service.ts:87-93 | siblings of the ingest enter only when the gate is open as well |
| `HealthClassifiers.Refines` | src/modules/health/tx-classifier.service.ts:54-75 | merging the kinds of failure gives the generic outcome, executor, reason and error, for every status |
| `HealthClassifiers.OutcomesExactly` | src/modules/health/fastauth-health.service.ts:246-278 | which receipts give which outcome: MPC failure if and only if the first failing receipt with a known executor ran on an MPC contract, and so on |
| `HealthClassifiers.BlameExactly` | src/modules/health/fastauth-health.service.ts:251-278 | whom and what a failure is put down to, from the receipts and the conversion |
| `HealthClassifiers.PendingExactly` | src/modules/health/fastauth-health.service.ts:232-244 | pending exactly when the status could not be had, with the error and nothing else |
| `HealthClassifiers.BlamedIsRight` | src/modules/health/fastauth-health.service.ts:251-258 | the status kept is that of the first failure with a known executor, or of the last failure when there is none |
| `HealthClassifiers.ExecutorlessFailureIsSuccess` | src/modules/health/fastauth-health.service.ts:261-267 | a failing receipt without an executor can still be a success |
| `HealthClassifiers.ClassifyTx` | src/modules/health/fastauth-health.service.ts:246-278 | the loop computes that classification |
| `HealthClassifiers.ClassifyTxGeneric` | src/modules/health/tx-classifier.service.ts:54-75 | the loop computes the generic one |
| `HealthRows.KeepsVerdictsExactly` | src/modules/health/fastauth-health.service.ts:182-219 | main result: over every sequence of discoveries, picks, writes and lost passes, no verdict is taken back if and only if no pending answer is written by a pick that read the row before that verdict |
| `HealthRows.UnresolvesExactly` | src/modules/health/fastauth-health.service.ts:199-214 | the same for one event |
| `HealthRows.RowTellsItsHistory` | src/modules/health/fastauth-health.service.ts:182-217 | without writes by picks that others have overtaken, the row shows its last attempt and their number, at most ten, all before the last pending |
| `HealthRows.DueExactly` | src/modules/health/fastauth-health.service.ts:183-193 | a row is due exactly when its last answer was pending, is more than five minutes old, and was not the tenth |
| `HealthRows.AttemptsAreSpaced` | src/modules/health/fastauth-health.service.ts:183-189 | and a backoff lies between two attempts, if clocks do not run back between pick and write |
| `HealthRows.OnePickAtATime` | src/modules/health/fastauth-health.service.ts:182-217 | all of this holds when no two picks of the row are in flight at once |
| `HealthRows.OverlapUnresolves` | src/modules/indexer-trigger/indexer-trigger.controller.ts:28-37 | a run of events with two picks in flight that takes a verdict back |
| `HealthRows.HealthRow.InsertOrIgnore` | src/modules/health/fastauth-health.service.ts:150-175 | discovery inserts a row unless there is one |
| `HealthRows.HealthRow.PickForRetry` | src/modules/health/fastauth-health.service.ts:183-193 | the row is picked exactly when it is due, with its count |
| `HealthRows.HealthRow.Update` | src/modules/health/fastauth-health.service.ts:202-214 | what a retry writes |
| `LinkAccounts.BuildLatestEventByKey` | src/modules/public-key-accounts/public-key-accounts.service.ts:212-226 | each key is spoken for by its last event, and no other key is there |
| `LinkAccounts.KeyOfExactly` | src/modules/public-key-accounts/public-key-accounts.service.ts:215-216 | an event's key is what is stored between blanks, or with nothing stored what was derived for it, and never empty |
| `Text.TrimExactly` | src/modules/public-key-accounts/public-key-accounts.service.ts:215-215 | trimming leaves what stands between the blanks |
| `LinkAccounts.PairsExactly` | src/modules/public-key-accounts/public-key-accounts.service.ts:247-252 | the pairs of a batch are all accounts of all its rows |
| `LinkAccounts.RowsGivePairs` | src/modules/public-key-accounts/public-key-accounts.service.ts:244-252 | no pair of a batch repeats, and the pairs of a key share its event |
| `LinkAccounts.LinkKeyInjective` | src/modules/public-key-accounts/public-key-accounts.service.ts:271-284 | different pairs have different strings, since account ids have no colon |
| `LinkAccounts.AggregatesAreRight` | src/modules/public-key-accounts/public-key-accounts.service.ts:274-302 | each account's first and last time and last event are the extremes over its pairs, its count that of its new links |
| `LinkAccounts.NewLinksAddUp` | src/modules/public-key-accounts/public-key-accounts.service.ts:279-302 | the counts of all accounts add up to the new links of the batch |
| `LinkAccounts.LinkRowsSay` | src/modules/public-key-accounts/public-key-accounts.service.ts:309-350 | what is stored of each link of a batch, new or old, field by field |
| `LinkAccounts.AccountRowsSay` | src/modules/public-key-accounts/public-key-accounts.service.ts:353-442 | what is stored of each account of a batch: last seen at its latest pair; a new one first seen at its earliest, an old one with its first kept and as many keys more as it has new links |
| `LinkAccounts.BatchKeepsKeyCounts` | src/modules/public-key-accounts/public-key-accounts.service.ts:312-442 | a batch keeps every linked account existing and its key count equal to its number of links |
| `LinkAccounts.BatchKeepsShort` | src/modules/public-key-accounts/public-key-accounts.service.ts:312-442 | a batch leaves the counts exactly as short as it found them: what was not counted stays uncounted |
| `LinkAccounts.CutAfterLinks` | src/modules/public-key-accounts/public-key-accounts.service.ts:324-369 | cut short after the links, a batch leaves the counts right if and only if it had no new link |
| `LinkAccounts.CutAfterInsert` | src/modules/public-key-accounts/public-key-accounts.service.ts:365-442 | cut short after the insert of new accounts, if and only if no account that was there has a new link |
| `LinkAccounts.UncountedLink` | src/modules/public-key-accounts/public-key-accounts.service.ts:365-442 | an input that is wrong at both cuts |
| `LinkAccounts.ShortAfterLinks` | src/modules/public-key-accounts/public-key-accounts.service.ts:324-369 | in the first case the counts are short by the new links |
| `LinkAccounts.ShortAfterInsert` | src/modules/public-key-accounts/public-key-accounts.service.ts:365-442 | in the second by the new links of accounts that were there |
| `LinkAccounts.NeverRepaired` | src/modules/public-key-accounts/public-key-accounts.service.ts:240-450 | through any batches after that, the same one run again included, the counts are never right again unless they were |
| `LinkAccounts.FindOwners` | src/modules/public-key-accounts/public-key-accounts.service.ts:375-381 | the owner is the first of the latest pairs of its key |
| `LinkAccounts.OwnerIsFirstListed` | src/modules/public-key-accounts/public-key-accounts.service.ts:375-381 | which is the first account listed for it |
| `LinkAccounts.Tables.KnownLinks` | src/modules/public-key-accounts/public-key-accounts.service.ts:258-271 | the set of strings answers which pairs are linked |
| `LinkAccounts.Tables.SumUp` | src/modules/public-key-accounts/public-key-accounts.service.ts:274-302 | the loop computes the sums |
| `LinkAccounts.Tables.WriteLinks` | src/modules/public-key-accounts/public-key-accounts.service.ts:309-350 | new rows for new pairs, refreshed rows for all of them, no other change |
| `LinkAccounts.Tables.InsertAccounts` | src/modules/public-key-accounts/public-key-accounts.service.ts:352-371 | new rows for new accounts, no other change |
| `LinkAccounts.Tables.RaiseAccounts` | src/modules/public-key-accounts/public-key-accounts.service.ts:418-442 | counts, times and events of the accounts that were there |
| `LinkAccounts.Tables.StampEvents` | src/modules/public-key-accounts/public-key-accounts.service.ts:383-417 | an event is stamped if and only if its stored key has an owner |
| `LinkAccounts.Tables.PersistLinksAndAccounts` | src/modules/public-key-accounts/public-key-accounts.service.ts:240-450 | the whole batch, with what it reports |
| `TxRows.SeedsInOrder` | src/modules/near-ingest/sign-event-derivator.ts:204-278 | one sign event for each call of sign, under strictly increasing indices, with its transaction, block, relayer, contract and what was signed |
| `TxRows.DeriveFastAuthSignEvents` | src/modules/near-ingest/sign-event-derivator.ts:179-280 | the walk computes them, and finds the inline keys of such calls, all of them and no other |
| `TxRows.SeedKeyInjective` | src/modules/near-ingest/near-ingest.service.ts:733-735 | the keys of two sign events are equal only for the same action of the same transaction |
| `TxRows.BlockRows.ClassifyTransaction` | src/modules/near-ingest/near-ingest.service.ts:681-827 | what a transaction adds, which does not depend on the keys known; those only grow |
| `TxRows.RowsAreExact` | src/modules/near-ingest/near-ingest.service.ts:627-646 | the rows of a list of transactions say of each what it calls for, and nothing more; no sign event is lost |
| `TxRows.OrderDoesNotMatter` | src/modules/near-ingest/near-ingest.service.ts:627-646 | two orders of the same transactions give the same rows |
| `TxRows.KindsAreDisjoint` | src/modules/near-ingest/near-ingest.service.ts:749-751 | no hash has both a FastAuth row and a user row |
| `TxRows.NearRowsSay` | src/modules/near-ingest/near-ingest.service.ts:704-731 | a transaction has a row exactly when it calls a configured contract, with its block, signer and receiver |
| `TxRows.UserRowsSay` | src/modules/near-ingest/near-ingest.service.ts:747-826 | who a user row is of, whom it is to, who relayed it and what it is worth, and exactly when there is one |
| `TxRows.SignEventsSay` | src/modules/near-ingest/sign-event-derivator.ts:250-276 | an action has a sign event exactly when it calls sign in a relayed call of a contract, with its relayer and contract |
| `TxRows.SignedActionType` | src/modules/near-ingest/sign-event-derivator.ts:233-233 | where the payload is an encoded delegate action, what was signed is the name of its first action |
| `TxRows.TablesAreDecided` | src/modules/near-ingest/near-ingest.service.ts:829-849 | main result: the tables depend on the transactions only, neither on the order of blocks nor on repetition |
| `IndexedChain.EveryHeightIsIndexed` | src/modules/near-ingest/near-ingest.service.ts:538-664 | main result: after any interleaving of runs, crashes and partial inserts, every height from the first start up to the scanned checkpoint was processed before, is ledgered, was missing everywhere, or has the row and every sign event of each of its transactions in the tables; no user row that was persisted is lost |
| `IndexedChain.RunKeepsAccounts` | src/modules/near-ingest/near-ingest.service.ts:538-664 | the invariant behind it |
| `IndexedChain.PersistedHasRows` | src/modules/near-ingest/near-ingest.service.ts:829-849 | a block whose inserts happened has its rows, also where some were there from an attempt that failed |
| `IndexedChain.ProcessedBySettling` | src/modules/near-ingest/near-ingest.service.ts:560-570 | a height becomes processed exactly by settling with its block persisted or missing everywhere |
| `IndexedChain.HasRowsSays` | src/modules/near-ingest/near-ingest.service.ts:704-735 | what it means to have the rows of a height, field by field |
| `ChunkSelection.EmptyRootIsZero` | src/modules/near-ingest/near-block.service.ts:13-15 | the constant is the Base58 text of 32 zero bytes |
| `ChunkSelection.ChunkHashesWithTransactions` | src/modules/near-ingest/near-block.service.ts:26-36 | the hashes of the chunks wanted, in order, each of them and no other |
| `ChunkSelection.LeftOutOnEvidence` | src/modules/near-ingest/near-block.service.ts:26-36 | a chunk is left out exactly when it has no hash, the root of no transactions, or a known other height |
| `ChunkSelection.ProducedAt` | src/modules/near-ingest/near-block.service.ts:17-25 | along a chain a repeated header goes back to the block that produced its chunk |
| `ChunkSelection.FetchedOnce` | src/modules/near-ingest/near-block.service.ts:17-36 | every chunk with transactions produced along a chain is fetched with exactly one of its blocks, so leaving out repeated headers loses none |
| `MembershipProbe.LastMentionTells` | src/modules/near-ingest/near-ingest.service.ts:466-497 | however probes overlap, the cache knows exactly the names asked for, each as the last settled query about it told, a failed query as absence |
| `MembershipProbe.AnswersExactly` | src/modules/near-ingest/near-ingest.service.ts:506-536 | on a growing table a probe answers only names that are there, and all of its candidates that are there if and only if the last settled query about each found it |
| `MembershipProbe.ProbeCache.Unknown` | src/modules/near-ingest/near-ingest.service.ts:468-472 | what is asked of the table is what has no answer yet |
| `MembershipProbe.ProbeCache.Settle` | src/modules/near-ingest/near-ingest.service.ts:480-497 | what is written and answered once the query has settled |
| `RangeProgress.CountsExactly` | src/modules/dashboard/dashboard-data.service.ts:1112-1117 | the processed count is the size of the union of the two scanned intervals within the range, for every range and cursors, if and only if the range does not end before it begins |
| `RangeProgress.PendingIsTheRest` | src/modules/dashboard/dashboard-data.service.ts:1117-1123 | what is pending is what neither cursor has passed |

## Left out

- HTTP, timeouts, JSON, base64, sha256, logging and the substring tests that choose a kind of failure: opaque results or parameters.
- SQL and TypeORM: tables are maps or sets with insert-or-ignore and upsert; a bulk statement is one step.
- The hash and chain-head checkpoints: written beside the heights, read by no modelled decision (the gate reads the head as a parameter).
- The sleep before a slot: slots are the reserved times; a timer may fire late.
- Fractional concurrency and weights, and weights below zero: weights are natural numbers, concurrency any integer.
- Payload elements that are no whole numbers: elements are integers, taken modulo 256.
- `readU32LE` as bit operations: it is modelled as the sum of its bytes, which is what they compute.
- UTF-8 of the strings in a payload: the decoder does not look at it.
- Provider and dapp detection and account types: simple members.
- Whether ledgered ranges are filled later: rows of the ledger are only added here.
- The growth of the account set during a run: it is fixed in `TxRows`; what a probe of it answers is `MembershipProbe`.
- Whitespace beyond space, tab and line ends in stored keys.
- The orphan sweep and the back-stamping of older events: outside the forward pass, and the sweep does not keep key counts.
- The relayer mart's dirty flag: an error before it is set can lose it, so there is no whole-run claim.
- `processBlockHeight`: one outcome per height and pass; the classification in it is `TxRows`, its chunk pool is `WorkerPools`.
- The caps on a health pass and the choice among rows: `HealthRows` is about one row, and rows do not influence each other.
- Recovery of endpoints, and shares while the set of open endpoints changes: the code promises neither.
- LinkAccounts.FindOwners: event ids and times are whole numbers, as big integers and dates are.
