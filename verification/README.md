# Verified models of the INTMAX2 function services

The services are scheduled jobs over an append-only chain log. Each job resumes
from a cursor in the document store, reads a window of events, performs effects
(transactions, document writes) and writes the cursor; it may die between any two
effects. This project models the jobs' logic in Dafny and proves what holds over
all runs.

How the models are laid out:

- A job's code is written in the form the service has: loops and updates are
  methods on classes that hold the stored state (`Event`, `TokenMapStore`,
  `BridgeTransactions`, `MintEventStore`, `Indexers`, `MemoryCacheStore`,
  `RetryOptions`, and the contracts as `LiquidityContract` and `Minter`), each
  proved equal to a specification function.
- A `...Safety` module runs those functions as a state machine: new events, sealed
  blocks, runs, crashes and foreign actions in any order. Its theorems quantify
  over every step sequence. A step that is not enabled changes nothing.
  `RunIsHistory`, `WatcherRunIsHistory` and `MonitorRunIsHistory` connect a method's
  run to the machine.
- The outside world answers through parameters: which queries fail, what an API
  returns, what a random draw or a clock reads. Batch sizes, retry counts,
  intervals and page sizes are parameters too.

`dafny verify dfyconfig.toml` verifies the whole project.

| file | what it models |
|---|---|
| Scanner | block ranges, batched queries, restart with half the range |
| EventStore, PagedQuery | the cursor document, the paged collection read |
| Liquidity | the contract's deposits and relays as a ledger |
| DepositAnalyzer, AnalyzerJob, AnalyzerSafety, AnalyzerProgress | the deposit relay job |
| TokenMapRegister, TokenMapSafety | the token-map register |
| BridgeMonitor, BridgeSafety, RetryTimer | bridge watcher, bridge monitor, its one-day timer |
| GasFees | fee escalation in the transaction retry loop |
| MintExecutor, MintSafety | the mint executor |
| Shuffle, BuilderSelection, SelectionReach | Fisher-Yates, the builder selection modes, and which results they can reach |
| DepositExtraction | rejected-id extraction and calldata batching |
| Heartbeats | the indexer event watcher |
| Pagination, CacheStore | token list pages, the expiring cache |

## Assumptions stated in the models

- Deposit ids are consecutive from 1 and do not decrease in block; nothing lies
  before the deployment block (`Liquidity.Valid`).
- `relayDeposits(upTo)` succeeds only if `firstUnrelayed <= upTo <= lastDeposit`
  and then relays everything up to `upTo`; a refused call changes nothing.
- `getBlockNumber` returns a sealed block, possibly an old one. New events land in
  later blocks. Reads at or below that block do not change while a job runs.
- One instance of a job runs at a time; watcher and monitor are two jobs and do
  interleave.
- A bridge request's guid is never reused, and the bridge is not deployed in block 0; for
  a crash after a later batch (`CrashAfterRelayStallsIff`) neither is the Liquidity contract.

## What turned out false, and when it holds

- *A crash never loses a deposit.* The cursor written after a batch is the block of its
  last deposit. If the next deposit is in the same block and the job dies there, that
  deposit is behind the cursor (`AnalyzerProgress.SplitBlockIsUnsafe`). From a safe
  cursor every crash point of a run is safe if and only if no batch ends inside a block
  or the first relay is refused (`CrashPointsSafeIffUnsplit`); a later submitting run
  that completes repairs an unsafe cursor (`CompletedRunCatchesUp`).
- *A restarted run makes progress.* If a run dies between a relay and the cursor write
  after it, it stalls the job exactly if that batch was full and the cursor stood right
  before it (`CrashAfterRelayStallsIff`). Then every later run asks for the same,
  already relayed id first and is refused, for ever (`StallIsPermanent`,
  `CrashStrandsDeposit`). With a safe cursor and unrelayed deposits a run at the head
  relays everything if and only if fewer than a full batch of its window is already
  relayed (`HeadRunSucceedsIff`).
- *Final bridge statuses are final.* They are unless the watcher dies between its save
  and its cursor write; then exactly the records of the window it reads again go back to
  QUEUED (`BridgeSafety.ResaveKeepsIff`, `CrashRequeuesDelivered`).
- *A message is cleared once.* There are two ways to a second clear. A poll that clears
  the message and then fails to send its alert or to write its document (`LosesClear`,
  exactly these by `BridgeSafety.PollLosesIff`; a job that dies there looks the same)
  leaves the record active and the next run clears again (`LostClearIsRepeated`), unless
  that error mentions "404" and the record becomes NOT_FOUND. And a FAILED record that a
  watcher crash puts back to QUEUED is cleared again with nothing lost
  (`RequeuedIsClearedAgain`). In every history the clears of a guid are its lost ones,
  plus its requeued FAILED records, plus one if its record is FAILED
  (`ClearsAreAccounted`); without a watcher crash nothing is requeued
  (`AtMostOneClear`).
- *Retry fees never fall.* They do when the carried priority (or max) fee is zero and
  the new estimate is lower (`GasFees.FeesKeptIff`, `ZeroPriorityLowersMaxFee`).
- *An action mined by a crashed run is not repeated.* It is recorded and not repeated if
  it comes first in the next run's window (`MintSafety.UnrecordedActionIsRecovered`).
  Behind an action that is already recorded it stays hidden: the run sends a third mint
  on the day of the second (`FreshReachesWeekAfterFirst`, `CrashHidesSecond`,
  `HiddenActionIsRepeated`). With an interval of at least a week a run executes an
  action if and only if it was due and the first event of the window is not new
  (`RunExecutesIff`).
- *The token-map register gets on.* A run throws if and only if it finds new
  ids and no attempt of its backward search reaches the first of their deposits, or a
  token of theirs is not answered (`TokenMapSafety.RunThrowsIff`). In the first case, as
  long as runs observe that block or a later one, every one of them throws
  (`StuckForGood`, `LateRelayIsStuck`). A run that
  finds no new ids, because it observes a scanned block or one before the relay, moves
  the cursor and frees the job exactly under the condition of `IdleRunFreesIff`
  (`EarlierBlockFrees`).
- *Selections have `min(count, n)` builders.* If and only if the guaranteed share fits
  into `count`; otherwise `slice` gets a negative end and the selection is too long
  (`BuilderSelection.GuaranteedSelection`, `OversizedSelection`).
- *Following cursors lists everything once.* On any list it ends and does so if and only
  if every page end that still has a successor has a non-empty address that no earlier
  token has (`Pagination.WalkListsEverythingIff`). With a repeated address it can circle
  (`RepeatedAddressLoops`); a filtered list has distinct addresses if and only if no
  known address is requested twice (`FilteredDistinctIff`).
- *Heartbeat documents never go back.* They do when a run dies before its cursor write
  and the next one observes a lower block (`Heartbeats.LaggingRunGoesBack`). With block
  times that grow, a step keeps the documents in step if and only if it takes none back,
  in the sense of `GoesBack` (`StepKeepsSyncIff`); without crashes no run does
  (`CrashFreeIsOneShot`).
- *The cache returns what its history says.* It does if and only if the deciding set, if
  it is unexpired, has not been met after its expiry by a get or a cleanup
  (`CacheStore.CacheRefinesHistoryIff`). That takes a clock that steps back
  (`CacheRefinesHistory`, `ClockStepBackLosesEntry`).

Code and documentation differ in three places, and the model follows the code:
the note above `calculateGasMultiplier` lists steps of 0.2 while the configured
rate is 0.3 by default; the system design says the indexer event watcher marks
silent builders inactive, which its code never does; the deposit analyzer is said to
ensure reliable delivery, which the stall above contradicts.

## Model

| member | source | states |
|---|---|---|
| Scanner.LogsInIsSlice | packages/shared/src/blockchain/events.ts:38-54 | on a chain-ordered log one query returns one contiguous slice, in order |
| Scanner.CreateBlockRanges | packages/shared/src/blockchain/utils.ts:59-82 | the loop builds exactly the ranges of `BlockRanges` |
| Scanner.BlockRangesTile | packages/shared/src/blockchain/utils.ts:64-81 | the ranges tile the window without gap or overlap, none longer than size + 1 blocks |
| Scanner.BlockRangesCount | packages/shared/src/blockchain/utils.ts:70-79 | there are ceil(length / (size + 1)) ranges |
| Scanner.TilingScansWindow | packages/shared/src/blockchain/utils.ts:99-120 | querying any tiling equals one query over the window |
| Scanner.ScanRound | packages/shared/src/blockchain/utils.ts:98-120 | a round fails exactly if one of its queries fails, and otherwise returns all results in order |
| Scanner.FetchEvents | packages/shared/src/blockchain/utils.ts:84-139 | for every failure pattern: a result is exactly the window's log; a result comes exactly if some round meets no failure; at most maxRetries + 1 rounds, stopping at the first good one |
| Scanner.HalvedIs | packages/shared/src/blockchain/utils.ts:127-131 | after n restarts the range is the first one divided by 2 to the n, rounded down |
| Scanner.WideRangeRejectionsRecover | packages/shared/src/blockchain/utils.ts:121-132 | a provider that rejects only ranges of more than cap blocks is recovered from if the first range is below cap times 2 to the number of retries |
| EventStore.LatestWritesShow | packages/shared/src/db/event.ts:14-21 | after any history of merging writes the document shows the block of the last write and the id of the last write that had one |
| EventStore.NextScanIsAdjacent | packages/shared/src/lib/block.ts:3-12 | the next scan starts right after the last written block, or at the deployment block if that was block 0 |
| PagedQuery.ListAll | packages/shared/src/db/bridgeTransaction.ts:98-140 | the pages together are the whole collection, in order, in PageCount queries |
| PagedQuery.PageCountIs | packages/shared/src/db/tokenMap.ts:79-96 | the number of queries is the number of full pages plus one |
| Liquidity.EachIdRelayedOnce | packages/shared/src/abi/Liquidity.json:157-176 | every relayed id was relayed by exactly one accepted call, in a block no earlier than its deposit |
| Liquidity.RelayedAtBounds | packages/deposit-analyzer/src/service/event.service.ts:29-36 | the historic relayed id never exceeds today's, nor the deposits made by that block |
| DepositAnalyzer.SplitDepositSummary | packages/deposit-analyzer/src/service/summarize.service.ts:11-71 | the batching loop computes `DepositSummary`, and each batch counts between one and batchSize deposits |
| DepositAnalyzer.SplitPartitionsIds | packages/deposit-analyzer/src/service/summarize.service.ts:34-70 | on any event list the split succeeds exactly if each boundary id is listed, and then counts each id of the range once, in batches that are full but the last, have a gas limit of 320000 plus 20000 per deposit, and end at the maximum and the current block |
| DepositAnalyzer.MaxIsGreatest | packages/deposit-analyzer/src/service/event.service.ts:80-88 | the result reaches a bound exactly if the bound is 0 or some listed id does |
| AnalyzerSafety.WindowIsSlice | packages/deposit-analyzer/src/service/event.service.ts:15-45 | a run works on exactly the deposits of its window, on a first run without those already relayed |
| AnalyzerSafety.PlanShape | packages/deposit-analyzer/src/service/job.service.ts:27-82 | the boundary lookup never throws; the whole plan: nothing in an empty range or exactly if a relay in the window reached its last deposit, the cursor only without deposits, else the whole window batch by batch |
| AnalyzerSafety.BoundaryCovered | packages/deposit-analyzer/src/service/summarize.service.ts:53-60 | the cursor block of a batch is safe exactly if the batch does not end inside a block |
| AnalyzerSafety.SkippedAreRelayed | packages/deposit-analyzer/src/service/event.service.ts:29-42 | under a safe cursor every id a run leaves out has been relayed |
| AnalyzerSafety.NextKeepsInv | packages/deposit-analyzer/src/service/job.service.ts:69-82 | each step, a crash included, keeps the cursor safe |
| AnalyzerSafety.CrashSafeRelay | packages/deposit-analyzer/src/service/job.service.ts:27-82 | in every history in which no batch ends inside a block, every deposit at or below the stored cursor has been relayed |
| AnalyzerProgress.RunAcceptedIff | packages/deposit-analyzer/src/service/summarize.service.ts:38-65 | every relay of a run is in the contract's range exactly if its first batch still holds an unrelayed id |
| AnalyzerProgress.RunExactlyCostedIff | packages/deposit-analyzer/src/service/summarize.service.ts:44-52 | every relay is accepted and priced for exactly the ids it newly relays exactly if no id of the window was relayed before |
| AnalyzerProgress.CrashPointsSafeIffUnsplit | packages/deposit-analyzer/src/service/job.service.ts:69-74 | from a safe cursor, the cursor is safe at every crash point of a run exactly if no batch ends inside a block or the relays are refused from the first on |
| AnalyzerProgress.CompletedRunCatchesUp | packages/deposit-analyzer/src/service/job.service.ts:69-74 | a submitting run that completes leaves every deposit up to its observed block relayed, whatever happened before and in between |
| AnalyzerProgress.HeadRunSucceedsIff | packages/deposit-analyzer/src/service/job.service.ts:58-74 | with a safe cursor and unrelayed deposits a run at the head is accepted exactly if fewer than a full batch of its window is already relayed |
| AnalyzerProgress.StallIsPermanent | packages/deposit-analyzer/src/service/job.service.ts:63-74 | once a full batch after the cursor is relayed, no history moves the cursor past it or lets the job relay again |
| AnalyzerProgress.CrashAfterRelayStallsIff | packages/deposit-analyzer/src/service/job.service.ts:70-73 | dying between any relay of a run and its cursor write stalls the job exactly if that batch was full and the cursor stood right before it |
| AnalyzerProgress.SplitBlockIsUnsafe | packages/deposit-analyzer/src/service/job.service.ts:70-73 | a concrete run whose crash strands a deposit behind the cursor |
| AnalyzerProgress.CrashStrandsDeposit | packages/deposit-analyzer/src/service/job.service.ts:70-73 | a concrete crash after which the job never relays deposit 2 |
| AnalyzerJob.ProcessAnalyzer | packages/deposit-analyzer/src/service/job.service.ts:27-82 | a run that dies after any number of effects leaves the ledger and the cursor as that prefix of its plan does |
| AnalyzerJob.RunIsHistory | packages/deposit-analyzer/src/service/job.service.ts:69-75 | such a run is a history of the machine |
| TokenMapRegister.CalculateDepositStartNumber | packages/token-map-register/src/service/event.service.ts:132-174 | the loop performs the backward search `Search` |
| TokenMapRegister.SearchFindsDeposit | packages/token-map-register/src/service/event.service.ts:145-173 | the search can only return the deposit's own block, and returns it exactly if some attempt's window reaches it |
| TokenMapRegister.MapDepositsToTokenInfo | packages/token-map-register/src/service/event.service.ts:196-226 | one entry per distinct token index; any failed answer throws |
| TokenMapRegister.FilterERC20Tokens | packages/token-map-register/src/service/map.service.ts:34-44 | keeps exactly the ERC-20 tokens |
| TokenMapRegister.SaveTokenIndexMaps | packages/token-map-register/src/service/map.service.ts:12-32 | saves exactly the missing ERC-20 tokens, or nothing if any metadata is missing |
| TokenMapRegister.TokenMapStore.SaveTokenMapsBatch | packages/shared/src/db/tokenMap.ts:25-63 | writes each input under its token index and nothing else |
| TokenMapRegister.PerformJob | packages/token-map-register/src/service/job.service.ts:12-56 | a completed run saves its entries and its merged cursor; one that throws changes neither |
| TokenMapSafety.RunGenerates | packages/token-map-register/src/service/event.service.ts:58-130 | a run generates exactly the ids relayed since the highest block scanned, even with a regressed cursor |
| TokenMapSafety.RunExtendsTiling | packages/token-map-register/src/service/event.service.ts:116-130 | a completed run's ids continue the earlier ones without gap or repeat, up to the highest id relayed by the highest block scanned |
| TokenMapSafety.RunRegistersItsTokens | packages/token-map-register/src/service/event.service.ts:132-194 | the log query after the search reaches every wanted deposit, so each of their ERC-20 tokens gets an entry |
| TokenMapSafety.IdsTileAndMapIsComplete | packages/token-map-register/src/service/job.service.ts:24-56 | over every history the generated lists concatenate to 1..n, n is the stored id and the highest id relayed by the highest block scanned, and the map is complete up to n |
| TokenMapSafety.EntriesAreNeverOverwritten | packages/token-map-register/src/service/map.service.ts:46-56 | no history changes or removes an entry |
| TokenMapSafety.EntriesAreFaithful | packages/token-map-register/src/service/map.service.ts:77-105 | every entry is an ERC-20 token with its own id and lower-cased address |
| TokenMapSafety.RunThrowsIff | packages/token-map-register/src/service/event.service.ts:22-226 | a run throws exactly if it finds new ids and no search attempt reaches the first of their deposits, or a token info or the metadata of a wanted token is not answered |
| TokenMapSafety.RunAddsExactly | packages/token-map-register/src/service/map.service.ts:12-105 | a run adds exactly the ERC-20 tokens of its new ids that have no entry, each with its own id, lower-cased address, decimals and symbol |
| TokenMapSafety.StuckForGood | packages/token-map-register/src/service/job.service.ts:12-56 | from then on no history of runs that observe that block or later writes anything |
| TokenMapSafety.IdleRunFreesIff | packages/token-map-register/src/service/job.service.ts:24-56 | a run without new ids moves the cursor to its block and frees a stuck job exactly if a search from the block after it reaches the deposit |
| TokenMapSafety.LateRelayIsStuck | packages/token-map-register/src/service/event.service.ts:145-173 | a concrete late relay that leaves the job stuck until the observed block lags |
| TokenMapSafety.EarlierBlockFrees | packages/token-map-register/src/service/event.service.ts:145-173 | a concrete stuck job that a run at a new block before the relay frees |
| BridgeMonitor.SortByNonceSorts | packages/bridge-monitor/src/service/job.service.ts:28-32 | records are processed in nonce order, each listed one once |
| BridgeMonitor.SortByNonceIsStable | packages/bridge-monitor/src/service/job.service.ts:28 | records of the same nonce keep their listed order |
| BridgeMonitor.RecordFollowsAnswer | packages/bridge-monitor/src/service/job.service.ts:37-102 | a record takes the answered status exactly if handler and write go through; a 404 makes it NOT_FOUND if that is written, another error leaves it; which fields may change with it |
| BridgeMonitor.SubmitsIff | packages/bridge-monitor/src/service/process.service.ts:12-132 | a clear is sent exactly for a FAILED answer, a manual retry exactly for an overdue VERIFIED answer or a stored payload, each if its transaction is accepted |
| BridgeMonitor.CompletesIff | packages/bridge-monitor/src/service/process.service.ts:12-132 | exactly which outside calls must return for a record to be processed to its end |
| BridgeMonitor.RecordAfterPoll | packages/bridge-monitor/src/service/job.service.ts:37-102 | every field of the record after a poll: status, verification, alert, retry and clear stamps |
| BridgeMonitor.BridgeTransactions.SaveBridgeTransactionsBatch | packages/shared/src/db/bridgeTransaction.ts:31-71 | overwriting QUEUED saves, in order |
| BridgeMonitor.BridgeTransactions.PerformJob | packages/bridge-monitor/src/service/job.service.ts:16-35 | the loop performs `RunQueue` over the records sorted by nonce and stops at the first rethrown error |
| BridgeMonitor.ProcessBridgeMonitor | packages/bridge-event-watcher/src/service/job.service.ts:34-79 | saves exactly the window's requests and then writes the cursor, for a run that dies before, between or after the two; an empty range does nothing |
| BridgeSafety.ProcessFacts | packages/bridge-monitor/src/service/process.service.ts:12-38 | a record becomes FAILED only through an accepted clearMessage |
| BridgeSafety.WatcherWindow | packages/bridge-event-watcher/src/service/job.service.ts:40-56 | the watcher's window is exactly the requests not yet saved |
| BridgeSafety.SaveKeepsRecords | packages/bridge-event-watcher/src/service/job.service.ts:58-71 | without a crash the watcher leaves every existing record alone and adds only QUEUED ones |
| BridgeSafety.SaveAllAt | packages/shared/src/db/bridgeTransaction.ts:40-53 | each saved record is a blank QUEUED one with its request's nonce, all others stay |
| BridgeSafety.StartQueuesOpen | packages/bridge-monitor/src/service/job.service.ts:16-28 | a monitor run looks at exactly the records that are QUEUED, INFLIGHT, CONFIRMING, VERIFIED or BLOCKED |
| BridgeSafety.PollHeadIs | packages/bridge-monitor/src/service/job.service.ts:30-102 | what one poll adds to the submissions, which records it leaves alone, and exactly when it ends the run |
| BridgeSafety.TerminalsAreAbsorbing | packages/bridge-monitor/src/service/job.service.ts:16-102 | in every interleaving without a watcher crash a record of any other status never changes again |
| BridgeSafety.SavedExactlyOnce | packages/bridge-event-watcher/src/service/job.service.ts:50-78 | every request up to the cursor is saved as QUEUED exactly once, no other is |
| BridgeSafety.ClearsAreAccounted | packages/bridge-monitor/src/service/process.service.ts:12-38 | in every history, with crashes of both jobs: the accepted clears of a guid beyond its lost ones and its FAILED record grow by exactly the saves that requeue its FAILED record |
| BridgeSafety.AtMostOneClear | packages/bridge-monitor/src/service/process.service.ts:12-38 | without a watcher crash the clears of a guid are its lost ones plus one if its record is FAILED; without a lost one at most one |
| BridgeSafety.PollLosesIff | packages/bridge-monitor/src/service/job.service.ts:37-102 | a poll loses a clear exactly if the clear is accepted and its alert or document write fails; the record stays active, or becomes NOT_FOUND after a "404" that is written |
| BridgeSafety.LostClearIsRepeated | packages/bridge-monitor/src/service/process.service.ts:12-38 | two monitor runs that clear the same message twice |
| BridgeSafety.RequeuedIsClearedAgain | packages/bridge-event-watcher/src/service/job.service.ts:69-71 | a concrete watcher crash after which a FAILED message is cleared again with no clear lost |
| BridgeSafety.MonitorRunIsHistory | packages/bridge-monitor/src/service/job.service.ts:30-35 | the monitor's loop is a history of polls |
| BridgeSafety.WatcherRunIsHistory | packages/bridge-event-watcher/src/service/job.service.ts:58-79 | the watcher's run is the history of its save and its cursor write or crash |
| BridgeSafety.ResaveKeepsIff | packages/shared/src/db/bridgeTransaction.ts:40-53 | after a watcher crash the next save keeps a record exactly if its request is outside the window read again |
| BridgeSafety.CrashRequeuesDelivered | packages/bridge-event-watcher/src/service/job.service.ts:69-71 | a concrete crash that puts a delivered message back to QUEUED |
| RetryTimer.TimerState | packages/bridge-monitor/src/service/process.service.ts:62-95 | the stored verification time is the last written VERIFIED poll's until a late one, and overdue from then on |
| RetryTimer.RetryFiresIff | packages/bridge-monitor/src/service/process.service.ts:62-95 | whatever writes fail, a poll answered VERIFIED sends a manual retry exactly if its transaction is accepted and it or an earlier written VERIFIED poll came more than a day after the written VERIFIED poll before that |
| RetryTimer.RetriesAreASuffix | packages/bridge-monitor/src/service/process.service.ts:65-90 | once one poll finds the retry due, every later VERIFIED poll retries if its transaction is accepted |
| RetryTimer.RecordIsItsPolls | packages/shared/src/db/bridgeTransaction.ts:73-96 | in every history without a watcher crash a stored record is what the polls of its guid made of it |
| RetryTimer.HistoryRetriesIff | packages/bridge-monitor/src/service/process.service.ts:62-95 | in any such history the next VERIFIED poll of a guid adds exactly that manual retry to the submissions, under exactly that condition |
| GasFees.RetryOptions.Escalate | packages/deposit-analyzer/src/service/submit.service.ts:104-127 | the carried fees become the fees of the attempt |
| GasFees.SubmitWithRetries | packages/deposit-analyzer/src/service/submit.service.ts:32-86 | the loop goes on exactly while errors are retryable and attempts are left, which of its four ends it takes, and the fees it ends with |
| GasFees.EscalationInvariant | packages/shared/src/blockchain/calculate.ts:40-58 | over all attempts the priority fee is the running maximum of the scaled estimates, and the max fee exceeds its running maximum by at most one per earlier attempt |
| GasFees.AttemptRaises | packages/shared/src/blockchain/calculate.ts:40-58 | after any attempts a lower estimate raises the max fee by exactly one, which stays only if the scaled estimate equals it |
| GasFees.ScaleRoundsDown | packages/shared/src/blockchain/calculate.ts:10-22 | a scaled fee is the product rounded down to a whole wei |
| GasFees.MultiplierStep | packages/shared/src/blockchain/calculate.ts:24-28 | the multiplier is one at first and grows by the rate with each attempt |
| GasFees.FeesNeverFall | packages/deposit-analyzer/src/service/submit.service.ts:110-127 | for positive estimates neither fee falls between two attempts |
| GasFees.FeesStayValid | packages/shared/src/blockchain/calculate.ts:10-58 | max fee >= priority fee carries over from the estimates, as the Specification section of EIP-1559 demands |
| GasFees.FeesKeptIff | packages/deposit-analyzer/src/service/submit.service.ts:110-119 | an attempt lowers no fee exactly if both carried fees are non-zero or the new ones are no lower |
| GasFees.ZeroPriorityLowersMaxFee | packages/deposit-analyzer/src/service/submit.service.ts:110-119 | concrete estimates for which the max fee falls |
| GasFees.ScaleBump | packages/shared/src/blockchain/calculate.ts:10-28 | when a higher multiplier survives floor division as a ten per cent rise |
| GasFees.ScaleBumpIff | packages/shared/src/blockchain/calculate.ts:10-28 | on multiples of ten wei it does exactly if the multiplier is at most ten times the rate |
| GasFees.RetryBumpsIff | packages/shared/src/blockchain/calculate.ts:40-58 | for estimates that do not fall a retry bumps both fees exactly if scaling alone does: the carry-over never interferes |
| GasFees.EveryRetryBumps | packages/shared/src/blockchain/calculate.ts:10-58 | for estimates that do not fall and are large enough for the multiplier every retry raises both fees by ten per cent |
| GasFees.FiveAttemptsBump | packages/shared/src/blockchain/calculate.ts:10-28 | with tenths 10, 13, 16, 19, 22 four wei are enough |
| GasFees.ConstantEstimateBumpsIff | packages/shared/src/blockchain/calculate.ts:10-28 | and fewer are not: a constant positive estimate bumps on all four retries exactly if it is at least four wei |
| MintExecutor.ShouldExecuteCountsDays | packages/mint-executor/src/service/interval.service.ts:10-32 | the decision compares whole local days with seven times the weeks; without a record it waits for the opening date |
| MintExecutor.DayIndexIs | packages/mint-executor/src/service/interval.service.ts:24-27 | a local day is the 24 hours from its local midnight on |
| MintExecutor.MintEventStore.GetLatestEventByType | packages/shared/src/db/mintEvent.ts:40-58 | the record of the type with the highest creation time |
| MintExecutor.PerformAction | packages/mint-executor/src/service/process.service.ts:85-158 | one action of a run, executed on chain, store and cursor, is the machine's step |
| MintExecutor.ProcessMinter | packages/mint-executor/src/service/job.service.ts:26-51 | a run that dies after any number of actions leaves chain, store and cursor as that prefix of its plan does |
| MintSafety.LatestIsLast | packages/shared/src/db/mintEvent.ts:22-58 | on records appended in time order the query by type yields the latest created record of the type, and none exactly if there is none |
| MintSafety.DueIsFar | packages/mint-executor/src/service/process.service.ts:109-128 | a due action is an interval away from every record of its kind |
| MintSafety.AutomaticActionsAreSpaced | packages/mint-executor/src/service/process.service.ts:105-158 | in every history an automatic action is recorded at least the interval after every earlier record of its kind |
| MintSafety.ActionsSpan | packages/mint-executor/src/service/process.service.ts:105-158 | n automatic actions span at least n - 1 intervals |
| MintSafety.DecisionAfterRecovery | packages/mint-executor/src/service/process.service.ts:64-128 | after the recovery save the action is executed exactly if it was due and the window's first event was the latest recorded one |
| MintSafety.RunExecutesIff | packages/mint-executor/src/service/process.service.ts:22-141 | exactly when a whole run, its saves in either order, takes an action of a kind: by the opening date without a record, by the local days since the latest record with one, and after something new only if the interval is zero |
| MintSafety.RunFinishes | packages/mint-executor/src/service/job.service.ts:26-51 | where a run that is not cut off ends: saves, each due action mined and recorded with its hash, the mint first, and the cursor at the observed block |
| MintSafety.UnrecordedActionIsRecovered | packages/mint-executor/src/service/process.service.ts:64-128 | the run whose window begins with a mined but unrecorded action records it and does not repeat it |
| MintSafety.FreshReachesWeekAfterFirst | packages/mint-executor/src/service/job.service.ts:26-51 | a fresh job records a foreign action, dies, and reaches the state of the next two rows |
| MintSafety.CrashHidesSecond | packages/mint-executor/src/service/job.service.ts:26-51 | a concrete run that mines a second action and dies before recording it |
| MintSafety.HiddenActionIsRepeated | packages/mint-executor/src/service/process.service.ts:64-103 | the next run, whose window begins with the first, recorded one, is about to send a third |
| MintSafety.RunIsHistory | packages/mint-executor/src/service/job.service.ts:26-51 | the job's run is a history of the machine |
| Shuffle.ShuffleArray | packages/indexer/src/lib/array.ts:3-10 | the in-place loop on a copy is the recursive shuffle `Shuffled` |
| Shuffle.ShuffledPermutes | packages/indexer/src/lib/array.ts:3-10 | for any draws the result has the same elements with the same multiplicities |
| Shuffle.DrawsReach | packages/indexer/src/lib/array.ts:5-8 | every permutation is reached |
| Shuffle.DrawsAreUnique | packages/indexer/src/lib/array.ts:5-8 | on distinct elements different draws give different orders |
| Shuffle.ShuffleIsBijective | packages/indexer/src/lib/array.ts:3-10 | each permutation of distinct elements comes from exactly one draw sequence |
| BuilderSelection.GetRandomBuildersWithGuaranteedAllowlist | packages/indexer/src/lib/builder.ts:74-97 | the code with its four shuffles computes `WithGuaranteedAllowlist` |
| BuilderSelection.GetBuildersByMode | packages/indexer/src/lib/builder.ts:13-31 | each mode is dispatched to its selection, any other to the guaranteed one |
| BuilderSelection.GuaranteedSelection | packages/indexer/src/lib/builder.ts:74-97 | for all draws a sub-multiset with at least min(minimum, available) allowlisted builders, of size min(count, n) exactly if that share fits into count, and how long it is otherwise |
| BuilderSelection.OversizedSelection | packages/indexer/src/lib/builder.ts:74-97 | a configuration that wants one builder and gets three for any draws |
| BuilderSelection.ListModes | packages/indexer/src/lib/builder.ts:33-52 | the allowlist-only and random modes return as many of their builders as count allows |
| BuilderSelection.PriorityMode | packages/indexer/src/lib/builder.ts:54-72 | throws exactly on an empty list, and picks an allowlisted builder exactly if the draw favours them or nobody else is left |
| SelectionReach.GuaranteedReachesIff | packages/indexer/src/lib/builder.ts:74-97 | guaranteed and default mode: if the share fits into count, some draws lead to a list exactly if it is a part of the input of min(count, n) builders with at least the share allowlisted, in any order |
| SelectionReach.AllowlistOnlyReachesIff | packages/indexer/src/lib/builder.ts:33-52 | allowlist-only mode reaches exactly the lists of as many allowlisted builders as count allows |
| SelectionReach.RandomReachesIff | packages/indexer/src/lib/builder.ts:99-116 | random mode reaches exactly the lists of as many builders as count allows |
| SelectionReach.PriorityReachesIff | packages/indexer/src/lib/builder.ts:54-72 | which single builders priority mode can pick |
| DepositExtraction.GenerateDepositIds | packages/mock-l1-to-l2-relayer/src/service/decode.service.ts:130-145 | the ids after start up to end, an error if start is beyond end |
| DepositExtraction.ExtractValidDeposits | packages/mock-l1-to-l2-relayer/src/service/decode.service.ts:98-128 | the kept ids paired in order with the hashes, an error if there are more ids than hashes |
| DepositExtraction.ExtractionSucceedsIff | packages/mock-l1-to-l2-relayer/src/service/decode.service.ts:98-128 | it succeeds exactly if the rejections are distinct and all among the covered ids, and then uses every hash |
| DepositExtraction.KeptIdsAreTheRest | packages/mock-l1-to-l2-relayer/src/service/decode.service.ts:114-125 | the kept ids are the increasing complement of the rejections |
| DepositExtraction.GenerateBatchedCalldata | packages/mock-l1-to-l2-relayer/src/service/decode.service.ts:43-70 | the loop computes `BatchesFrom` |
| DepositExtraction.BatchesCoverDeposits | packages/mock-l1-to-l2-relayer/src/service/decode.service.ts:43-70 | the batches carry every hash once and in order |
| DepositExtraction.BatchesAreFull | packages/mock-l1-to-l2-relayer/src/service/decode.service.ts:50-67 | no batch is empty, all are full but the last, and each names the id of its own last hash |
| Heartbeats.FoldKeepsFirstInHighestBlock | packages/indexer-event-watcher/src/service/indexer.service.ts:13-19 | the fold keeps, per builder, exactly the first heartbeat of its highest block, in any event order |
| Heartbeats.Indexers.ProcessIndexer | packages/indexer-event-watcher/src/service/indexer.service.ts:9-49 | all documents are merged at once, or none if a block cannot be read |
| Heartbeats.IncrementalIsOneShot | packages/indexer-event-watcher/src/service/job.service.ts:14-61 | over every history with crashes and overlapping windows in which no run takes a document back, the documents show what one pass over all scanned blocks would write |
| Heartbeats.CrashFreeIsOneShot | packages/indexer-event-watcher/src/service/job.service.ts:14-38 | without crashes no run goes back, even when the observed block does |
| Heartbeats.StepKeepsSyncIff | packages/indexer-event-watcher/src/service/job.service.ts:18-38 | a step keeps all documents in step with one pass exactly if it takes none back |
| Heartbeats.ActiveUntouched | packages/shared/src/db/baseIndexer.ts:25-50 | no run changes a builder's active flag |
| Heartbeats.LaggingRunKeepsIff | packages/indexer-event-watcher/src/service/job.service.ts:18-38 | exactly when a run that observes a lower block than was scanned keeps a document in step |
| Heartbeats.LaggingRunGoesBack | packages/indexer-event-watcher/src/service/job.service.ts:18-38 | a concrete crash and a lower observed block that take a document back |
| Pagination.NextCursorIffHasMore | packages/token/src/services/tokenPrices.service.ts:13-38 | on any list and options there is a next cursor exactly if there is more |
| Pagination.AnswerIs | packages/token/src/services/tokenPrices.service.ts:6-39 | which items, total and hasMore the endpoint answers for a known, unknown, empty or missing cursor and page size |
| Pagination.CursorAdvancesIff | packages/token/src/lib/utils.ts:1-28 | on any list the next cursor leads to the very next item exactly if the page's last token has a non-empty address that no earlier one has, and never further |
| Pagination.WalkListsEverythingIff | packages/token/src/lib/utils.ts:1-28 | on any list and from any cursor, following the cursors ends with everything listed once and in order exactly if every page end with a successor is found again by its address |
| Pagination.WalkListsEverything | packages/token/src/lib/utils.ts:1-28 | with distinct addresses it does, in max(1, ceil(n / perPage)) pages |
| Pagination.RepeatedAddressLoops | packages/token/src/lib/utils.ts:8-11 | a list with a repeated address on which a client that starts without a cursor never gets a last page |
| Pagination.GetFilteredTokens | packages/token/src/services/tokenPrices.service.ts:41-57 | the known requested tokens in request order, or the whole list |
| Pagination.FilteredInOrder | packages/token/src/services/tokenPrices.service.ts:46-56 | the filter goes through the request in order, each known address yields its token and each unknown one nothing |
| Pagination.FilteredDistinctIff | packages/token/src/services/tokenPrices.service.ts:46-56 | the filtered list has distinct addresses exactly if no known address is requested twice |
| CacheStore.MemoryCacheStore.GetResponse | packages/shared/src/lib/cacheStore.ts:28-45 | returns the unexpired entry and evicts an expired one |
| CacheStore.MemoryCacheStore.CleanupExpired | packages/shared/src/lib/cacheStore.ts:76-90 | removes exactly the expired entries and counts them |
| CacheStore.HoldsLastSet | packages/shared/src/lib/cacheStore.ts:47-58 | the cache holds exactly the slot of a deciding set that nothing has evicted since |
| CacheStore.CacheRefinesHistoryIff | packages/shared/src/lib/cacheStore.ts:28-90 | under any clock a get returns what the history says exactly if the deciding set, if unexpired, was not met past its expiry |
| CacheStore.CacheRefinesHistory | packages/shared/src/lib/cacheStore.ts:28-90 | under a clock that does not step back a get returns a response exactly if the latest set, delete or clear of the key is an unexpired set |
| CacheStore.CleanupIsInvisibleIff | packages/shared/src/lib/cacheStore.ts:76-90 | under any clock an added cleanup or get leaves a later get alone exactly if it does not evict the entry that one returns |
| CacheStore.CleanupIsInvisible | packages/shared/src/lib/cacheStore.ts:76-90 | under a clock that does not step back a cleanup, or a get, at any point changes no later get |
| CacheStore.ClockStepBackLosesEntry | packages/shared/src/lib/cacheStore.ts:34-37 | with a clock that steps back the history and the cache disagree |

## Left out

- RPC, HTTP, Discord, Redis and cloud calls: they are parameters that answer or fail; the text of errors is reduced to "mentions 404 or not" and "retryable or not".
- ABI encoding and decoding, contract bytecode and generated types: calldata is its argument tuple, and of the contract only the relay rule is assumed.
- Two instances of the same job running at once, and a monitor run overlapping another monitor run.
- `Math.round(multiplier * 10)` on floats, and numbers above 2^53: exact tenths and unbounded integers.
- Daylight-saving changes of local midnight in `setHours`: one fixed offset.
- Firestore's limits of 500 writes per batch and 30 values per `in` query, partially committed batches of the bridge watcher, and the time stamps `updatedAt` and `createdAt` of documents where no decision reads them.
- Records that share a creation millisecond in the mint store: the later one counts as the latest.
- The recipient, amount and transaction hash of a bridge request, and the contract parameters built from them.
- Spelling variants of addresses and hashes: heartbeat addresses and mint hashes are taken as already canonical.
- The single legacy gas price of ethersCalculate and its Scroll variant: the same scaling and the same increase rule as the max fee of GasFees.
- messenger-relayer, mock-l2-to-l1-relayer, token-metadata-sync, indexer health checks, tx-map, token price timers, HTTP servers, configuration and logging: they would only add easy members.
