# Prismix: protocols, ledger and algorithms

A Dafny model of the parts of Prismix, an AI gateway with a billing ledger, whose correctness depends on
interleavings, on arithmetic, or on a whole history rather than on one call.

`dafny verify dfyconfig.toml` checks everything.

## What is modelled

**Refresh rotation** (`RefreshTokens`, `ApiClient`, `TokenRotation`). Any number of browser tabs share local
storage and a cross-tab lock; the server consumes a single-use refresh token with one delete statement and
stores its successor with another. Every stretch of code that runs without interruption is one step; a run is
any sequence of steps of tabs, logins, clears, sweeps, logouts and lost messages.

**Deposits and the ledger** (`Decimals`, `Ledger`, `Deposits`, `DepositLoss`, `SyncJobs`, `TopupTables`). Scan jobs
look logs up, win their order with a compare-and-set, read the agent, write one row per log from a running balance, and
credit the sum; sync jobs insert rows of their own; expiry, rejection, debits and credits go on in between. Each SQL statement is
one step. Amounts are integers of base units of any precision; `unit` of them make the 8th decimal, where
`removeTailingZero` cuts. `TopupTables.Store` is the imperative form; a scan that nothing interleaves with is
proved to be a run of the concurrent system.

**Block scanning** (`ChunkedLogs`, `ScanCursor`, `DepositScan`). Reading a block range in chunks from the newest
block down, the cursor that a scan carries from poll to poll, and the whole iteration of a queued scan.

**Batched writes** (`WriteQueue`, `BatchBuffer`). One buffer per job name, flushed by size, by a timer, or at
shutdown, while earlier batches are still with their handler.

**Rate limiting** (`RateLimit`, `RateLimiter`). The Lua script over a keyspace with expiry, and the rule loop.

**Endpoint health** (`Health`). The failure counter, automatic disabling and enabling, and the notices sent.

**Cache invalidation** (`CacheInvalidation`, `CacheStore`). Local maps of many processes, one channel, and
messages that are delivered to each process in order but at any time.

**Locale pruning** (`Glob`, `Splitting`, `LocalePruning`, `LocaleTree`). Greedy wildcard matching, flattening,
and pruning.

**Weighted shuffle** (`WeightedShuffle`), **revenue share** (`RevenueShare`), **key cache and sealed text**
(`KeyCache`, `SealedText`), **wallet sign-in** (`SiweMessage`, `SignIn`; the message form is that of ERC-4361,
section "ABNF Message Format").

`Prelude` holds what several of these share.

## Where the code and its description differ

The model follows the code.

- The overlap of two scans never duplicates a ledger key: the unique index on the transaction key
  (src/server/db/schemas/pg.ts:117) makes the second insert throw instead. By then the order is confirmed, so
  what that job had recorded is never credited. `CreditedExactlyIfKeysAreFree` says for every reachable state
  when an order can still be credited, and `ScansLoseAnOrderExactlyIfTheyOverlap` for which logs two scans can
  lose one (`OverlapAbortsAJob`, `AbortedDepositIsLost` say what is left behind). Without overlap everything
  recorded is credited (`DisjointScansCreditEverything`).
- A refresh that spends an expired token, or whose answer is lost, releases the lock over a token the server no
  longer knows; a refresh that sent a live token does so in no other case (`RefreshLeavesLiveToken`). A stored
  token whose row was swept or logged out before it is sent ends the same way. A browser without cross-tab locks sends one
  token twice (`WithoutLocksATokenIsSentTwice`).
- The rate limiter calls itself a sliding window. It is a fixed window: up to twice the limit passes within one
  window length (`SlidingBound`), and that much does pass (`SlidingBoundIsTight`). The limit itself is kept in
  every stretch of one window length exactly if it is 0 or the window is one millisecond (`SlidesOnlyIfTrivial`).
- Two rate-limiting rules share a counter for some callers if one name continues the other after a colon
  (`NamesShareACounter`).
- The ledger rows of revenue shares are stored in the order of their inserts, so as stored they need not lead from
  balance to balance (`StoredOrderMayNotChain`); without withdrawals they do exactly if every handler inserted its
  row in the order of the credits (`StoredRowsChainExactlyInOrder`).
- A prefix or suffix deletion is announced to other processes only if it deleted something locally
  (`BulkDeletionNeedsALocalMatch`), and the deletion of a key that looks like another message is read as that
  message (`MessagesRoundTrip`).
- A scan cursor of 0 counts as none (`CursorZeroIsForgotten`); a failed head call on the first poll drops the
  order's start block (`StartBlockIsForgotten`); and blocks below ten or more transfers, known or not, are
  skipped and never looked at again (`LimitLeavesBlocksBehind`, `LeftBehindForGood`). Each of these says exactly
  which blocks are lost.
- Pruning renumbers the items behind a removed array item. The shipped documents hold no arrays;
  `PruneKeepsUsedLeaves` says exactly which documents keep their paths, and `PruneIsTidyAndStable` for which ones a
  second pruning changes nothing more. A document with nothing left is written
  back as the text `undefined`.
- Closing the write queue flushes one buffer after the other and awaits each handler; what is enqueued meanwhile
  under a name that was already flushed stays behind (`ShutdownLeavesLateEntries`).
- An empty text can be encrypted but not decrypted (`EncryptedTextsRoundTrip`).
- An address a line of which starts like a message field is taken for that field (`PrintedMessagesPass` says
  exactly when a printed message still passes).
- The header comment of the scan job speaks of 24 hours and 30 seconds; the code stops after one hour and polls
  after 20 seconds, one minute or five minutes.

## Model

| member | source | states |
|---|---|---|
| RefreshTokens.ConsumedOnce | src/server/repos/refresh-token-repo.ts:31-49 | Once a token is consumed, every later presentation finds no row, in any role and at any time, whatever other requests and sweeps do to the table, unless the random token is drawn again |
| RefreshTokens.OthersStay | src/server/repos/refresh-token-repo.ts:35-49 | Consuming one token leaves every other row as it is |
| RefreshTokens.WrongRoleLeavesTheToken | src/server/repos/refresh-token-repo.ts:35-49 | A token presented in the wrong role is refused and stays usable in its own |
| RefreshTokens.NewTokensLiveSevenDays | src/server/lib/jwt.ts:86-124 | A new token is accepted in its own role only, for exactly seven days |
| RefreshTokens.Table.DeleteByHash | src/server/repos/refresh-token-repo.ts:55-57 | Deletes exactly the row of the token |
| RefreshTokens.Table.ConsumeByHashAndRole | src/server/repos/refresh-token-repo.ts:35-49 | Deletes and returns the row exactly when it is there and its role is the one asked for; otherwise the table is untouched |
| RefreshTokens.Table.ValidateRefreshToken | src/server/lib/jwt.ts:108-124 | Accepts exactly an unexpired matching row, and deletes an expired one too |
| RefreshTokens.Table.RotateRefreshToken | src/server/lib/auth-flows.ts:113-127 | Succeeds exactly when validation accepts; then the old row is gone and its successor carries the same owner; a failed rotation stores nothing |
| RefreshTokens.Table.CleanExpired | src/server/repos/refresh-token-repo.ts:67-70 | Keeps exactly the rows that have not expired |
| ApiClient.Client.BeginAttempt | src/web/api/create-api-client.ts:96-105 | Decided by what is stored now, whatever the tab had cached: a stored access token other than the refused one is reused, never the refused one; otherwise the stored refresh token is posted, or there is none |
| ApiClient.Client.EndAttempt | src/web/api/create-api-client.ts:107-119 | Stores the new access token, and the new refresh token if there is one; a refusal stores nothing; no other stored item changes |
| ApiClient.Client.DoRefresh | src/web/api/create-api-client.ts:132-139 | A refresh starts only when none is under way in the tab; otherwise the caller joins it |
| ApiClient.Client.SingleFlight | src/web/api/create-api-client.ts:132-139 | Any number of callers start one refresh between them; after it has settled the next caller starts another |
| ApiClient.Client.ClearTokens | src/web/api/create-api-client.ts:73-76 | Removes both stored tokens and nothing else |
| ApiClient.SecondTabReuses | src/web/api/create-api-client.ts:96-117 | After one tab stored its answer, a second tab with stale caches reuses that access token and posts nothing |
| TokenRotation.RotationIsSafe | src/web/api/create-api-client.ts:94-139 | In every run without lost answers, spent expired tokens or deletion of a token in use: when the lock is free the stored refresh token is absent or live, and no tab ever sends a token the server does not know |
| TokenRotation.EachTokenIsExchangedOnce | src/server/lib/jwt.ts:108-124 | In any run at all, each refresh token is exchanged at most once and each exchange yields its own successor |
| TokenRotation.OneExchangePerRefusedToken | src/web/api/create-api-client.ts:96-101 | In every run that is safe in the sense of `RotationIsSafe`, never mints the same access token twice and clears no access token: however many tabs saw one access token refused, at most one of them spends a refresh token for it, even if other steps fall between the two storage writes of a tab |
| TokenRotation.OneExchangeDespiteClears | src/web/api/create-api-client.ts:73-119 | The same with any number of clears, when a tab writes or removes both tokens in one go, as its synchronous code does |
| TokenRotation.RefusedTokenIsNotReused | src/web/api/create-api-client.ts:94-105 | A tab that enters its refresh never comes back with the token it saw refused; if nothing replaced that token it posts the stored refresh token |
| TokenRotation.RefusedSessionIsRenewed | src/web/api/create-api-client.ts:94-130 | From any reachable state with the lock free, a tab with a refused access token and an unexpired refresh token comes back with a new access token, and the new pair is stored and live in place of the old |
| TokenRotation.DroppedRequestCostsNothing | src/web/api/create-api-client.ts:107-129 | A refresh request that does not reach the server leaves the lock free and the same stored token live |
| TokenRotation.SignInStoresALivePair | src/server/lib/auth-flows.ts:99-111 | A login stores its own pair, whose refresh token the server knows |
| TokenRotation.LogoutRevokes | src/server/lib/jwt.ts:126-129 | Once a token is logged out, no later step of any tab exchanges it |
| TokenRotation.SweepRevokesExpired | src/server/repos/refresh-token-repo.ts:67-70 | Once a sweep ran after its expiry, no later step exchanges a token |
| TokenRotation.RefreshLeavesLiveToken | src/web/api/create-api-client.ts:107-129 | A refresh leaves a live stored token exactly when the spent token had not expired and the answer arrived |
| TokenRotation.WithoutLocksATokenIsSentTwice | src/web/api/create-api-client.ts:124-127 | Without cross-tab locks some run has the server refuse a second use |
| Decimals.TruncateBounds | src/shared/number.ts:24-37 | Cutting decimals loses less than one kept place, rounds toward zero, and is exact on kept places only |
| Ledger.NewLogsAreNew | src/server/jobs/scan-topup-deposit.ts:130-137 | The dedup filter keeps exactly the logs recorded neither by composite key nor by bare hash |
| Ledger.NewLogsAppend | src/server/jobs/scan-topup-deposit.ts:130-137 | The filter takes the logs one by one and keeps their order |
| Ledger.KeysNameLogs | src/server/jobs/scan-topup-deposit.ts:120-135 | A composite key names exactly one log of one transaction, and never a bare hash |
| Ledger.AmountIsWorth | src/server/jobs/scan-topup-deposit.ts:124 | The amount recorded for a log is as many USDC as its raw value of 6 decimals |
| Ledger.TotalIsWorth | src/server/jobs/scan-topup-deposit.ts:157-177 | The total of a batch is as many USDC as arrived with its logs together |
| Ledger.DepositRowsChain | src/server/jobs/scan-topup-deposit.ts:157-173 | The rows of a batch chain from the balance that was read, in log order; each is a top-up of the agent under its log's key, worth the raw value of the log |
| Ledger.DepositRowAddsUp | src/server/jobs/scan-topup-deposit.ts:161-170 | A row adds up exactly if and only if it starts from at most 8 decimals |
| Ledger.DepositRowsAddUp | src/server/jobs/scan-topup-deposit.ts:157-177 | All rows add up, and the last balance is the first plus the credited total, if and only if the balance read has at most 8 decimals |
| Deposits.SettledOrderStays | src/server/repos/topup-order-repo.ts:104-121 | An order that left pending keeps its status through any continuation |
| Deposits.EachStatusHasItsCause | src/server/repos/topup-order-repo.ts:104-222 | In every run an order is rejected only by a rejection, expires only by a sweep whose cutoff it lies before and only as a crypto order, and is confirmed only by hand or by a job; it is still pending only if none of these but a job reached it |
| Deposits.OrdersAreCreditedOnce | src/server/jobs/scan-topup-deposit.ts:139-177 | Under every interleaving an order is credited at most once, and only if it ended confirmed |
| Deposits.KeysStayUnique | src/server/db/schemas/pg.ts:117 | No run ever holds two ledger rows with one transaction key |
| Deposits.MoneyIsConserved | src/server/repos/pay-agent-repo.ts:111-170 | At every moment the balance is non-negative and equals its start plus credits plus other movements; deposits recorded equal deposits credited plus what jobs have recorded and not credited |
| Deposits.RowsOfAJobChain | src/server/jobs/scan-topup-deposit.ts:157-175 | In every run from the start, whatever interleaves, each row of a job starts where its previous row ended |
| Deposits.DisjointScansCreditEverything | src/server/jobs/scan-topup-deposit.ts:127-177 | If no two jobs hold one key between lookup and insert, no job aborts, and recorded and credited deposits agree once no batch is half written |
| DepositLoss.CreditedExactlyIfKeysAreFree | src/server/jobs/scan-topup-deposit.ts:139-177 | In every reachable state an order that a job has won can still be credited exactly if none of the keys the job has yet to record is in the ledger and its agent exists; otherwise no continuation credits it |
| DepositLoss.ScansLoseAnOrderExactlyIfTheyOverlap | src/server/jobs/scan-topup-deposit.ts:127-177 | Two scans from the start, with any logs: settling their orders can lose one, confirmed and never credited, exactly if some log was new to both |
| DepositLoss.OverlapAbortsAJob | src/server/jobs/scan-topup-deposit.ts:160-173 | A job whose batch meets a recorded key at any position records exactly the logs before it, as chained rows, and stops with their sum uncredited |
| DepositLoss.WritingFinishes | src/server/jobs/scan-topup-deposit.ts:157-177 | A job none of whose keys is recorded can finish: it adds the chained rows of the rest and credits the exact sum |
| Deposits.AbortedDepositIsLost | src/server/jobs/scan-topup-deposit.ts:127-137 | After that, no continuation credits the order, and no later scan takes the recorded log for new |
| Deposits.CreditElsewhereCredits | src/server/repos/pay-agent-repo.ts:159-170 | A credit that is not a deposit raises the balance of that agent and no other |
| Deposits.WinAndRead | src/server/jobs/scan-topup-deposit.ts:139-157 | A job whose order is still pending wins it and starts from the agent's current balance |
| SyncJobs.SyncedItemsAreRecorded | src/server/jobs/sync-agent-balances.ts:99-160 | Whatever interleaves, when a sync job is done every transfer it was given is recorded |
| SyncJobs.SyncRowsRecordWhatWasGiven | src/server/jobs/sync-agent-balances.ts:99-150 | In every run each row of a sync job records a transfer that a sync job of that agent was given, with its kind, its worth and its key, and no change of balance |
| TopupTables.Store.ConfirmOrder | src/server/repos/topup-order-repo.ts:104-121 | Confirms exactly a pending order and says whether it did |
| TopupTables.Store.RejectOrder | src/server/repos/topup-order-repo.ts:189-200 | Rejects exactly a pending order and says whether it did |
| TopupTables.Store.ExpirePendingOrders | src/server/repos/topup-order-repo.ts:203-222 | Expires exactly the pending crypto orders older than the cutoff and returns exactly those |
| TopupTables.Store.DebitBalance | src/server/repos/pay-agent-repo.ts:111-127 | Debits exactly when the funds suffice |
| TopupTables.Store.DebitAllBalance | src/server/repos/pay-agent-repo.ts:134-151 | Empties a positive balance and returns what it held |
| TopupTables.Store.CreditBalance | src/server/repos/pay-agent-repo.ts:159-170 | Adds to the balance of an existing agent |
| TopupTables.Store.InsertRow | src/server/repos/pay-agent-transaction-repo.ts:25-27 | Appends a row unless its key is already recorded |
| TopupTables.Store.FilterNew | src/server/jobs/scan-topup-deposit.ts:130-137 | The loop computes the dedup filter, in log order |
| TopupTables.Store.RecordBatch | src/server/jobs/scan-topup-deposit.ts:157-175 | The loop appends exactly the chained rows and returns their exact sum, which is worth what arrived with the logs |
| TopupTables.Store.ProcessScan | src/server/jobs/scan-topup-deposit.ts:127-203 | From the logs on: which branch is taken when, the rows it makes, a credit worth what the new logs brought, and that it is a run of the concurrent system |
| TopupTables.ScanAlone | src/server/jobs/scan-topup-deposit.ts:139-177 | The steps of a scan that nothing interleaves with add exactly the batch's rows and credit exactly its total |
| DepositScan.ScanOnce | src/server/jobs/scan-topup-deposit.ts:43-203 | A whole queued iteration, from the order's checks through the block cursor to the tables: when it stops, when it is queued again with which cursor, and when it settles the order with which rows and a credit worth what the new logs brought |
| DepositScan.CompletePollFindsDeposits | src/server/jobs/scan-topup-deposit.ts:99-137 | A log in the range of a complete poll that is recorded in neither form is among the new logs |
| DepositScan.WalkIsPart | src/blockchain/config.ts:226-242 | With any failures and any limit, no log is returned more often than the chain holds it |
| ChunkedLogs.ChunksTile | src/blockchain/config.ts:221-225 | Chunks touch end to start, none is empty or too long, all but the last are full, and they run from the last block to the first |
| ChunkedLogs.ChunksPartition | src/blockchain/config.ts:221-242 | Each block of the range lies in exactly one chunk, and no other block in any |
| ChunkedLogs.ChunkCount | src/blockchain/config.ts:223-242 | There are as many chunks as the block count divided by the chunk size, rounded up |
| ChunkedLogs.ChunkedGetLogs | src/blockchain/config.ts:219-246 | The loop terminates and returns what walking the chunk list returns |
| ChunkedLogs.WalkGathers | src/blockchain/config.ts:226-242 | The result is what the calls made brought, in call order |
| ChunkedLogs.WalkLeavesOut | src/blockchain/config.ts:234-235 | The calls made are the first ones of the range; some are left out only when the last call succeeded and reached the limit |
| ChunkedLogs.WalkStopsAtTheLimit | src/blockchain/config.ts:234-235 | After every call but the last, the call had failed or the results were below the limit |
| ChunkedLogs.AskedExactlyBelowTheLimit | src/blockchain/config.ts:223-242 | A chunk is asked for exactly if the chunks before it bring fewer logs than the limit |
| ChunkedLogs.LogsAboveAChunk | src/blockchain/config.ts:223-242 | If none of them fails, the chunks before one bring as many logs as the chain holds above it |
| ChunkedLogs.ChunksFilterARange | src/blockchain/config.ts:223-242 | Without failures the calls bring each log of the blocks they reach exactly as often as the chain holds it |
| ChunkedLogs.WalkFiltersTheRange | src/blockchain/config.ts:213-246 | Without failures the result is the logs of a final part of the range; of the whole range unless the limit was reached |
| ScanCursor.ScanJob.ReadNew | src/server/jobs/scan-topup-deposit.ts:78-114 | One poll reads from after the cursor, or from the start block, or from the lookback, up to the head, and carries the head; a failed head call keeps the cursor |
| ScanCursor.BlockIsScanned | src/server/jobs/scan-topup-deposit.ts:99-110 | A block of the range is scanned exactly if the call for its chunk succeeds and the chunks above bring fewer logs than the limit |
| ScanCursor.ScansAllExactlyIfLogsFit | src/server/jobs/scan-topup-deposit.ts:99-110 | A poll scans its whole range exactly if no call fails and fewer logs than the limit lie above the oldest chunk |
| ScanCursor.CompleteExactlyIfLogsFit | src/server/jobs/scan-topup-deposit.ts:99-110 | Every call is made and answered exactly under that condition |
| ScanCursor.ScansAllIffComplete | src/server/jobs/scan-topup-deposit.ts:99-110 | So scanning the whole range and getting an answer to every call are the same |
| ScanCursor.ScansItsRange | src/server/jobs/scan-topup-deposit.ts:87-110 | A poll looks at no block outside its range |
| ScanCursor.CursorLeavesNoGap | src/server/jobs/scan-topup-deposit.ts:87-97 | From a cursor on, complete polls scan every block up to the cursor carried in the end, although heads may stall or move back |
| ScanCursor.ScanLeavesNoGap | src/server/jobs/scan-topup-deposit.ts:78-114 | The same from the first block of the first poll that got a head |
| ScanCursor.LeftBehindForGood | src/server/jobs/scan-topup-deposit.ts:87-97 | A block at or below the cursor is never looked at again unless a head is reported below it |
| ScanCursor.LimitLeavesBlocksBehind | src/server/jobs/scan-topup-deposit.ts:87-110 | When no call fails, a block of a poll's range is ever scanned, now or by any later polls with heads not below it, exactly if fewer logs than the limit lie above its chunk |
| ScanCursor.StartBlockIsForgotten | src/server/jobs/scan-topup-deposit.ts:80-89 | With any number of failed head calls before the first complete poll, and any polls after it with heads not below the start block, the start block is ever scanned exactly if no head call had failed or the lookback reaches it |
| ScanCursor.CursorZeroIsForgotten | src/server/jobs/scan-topup-deposit.ts:87-89 | After a head of 0 and any failed head calls, a block up to the next complete poll's head is ever scanned exactly if the lookback of that poll reaches it |
| WriteQueue.NothingIsLostOrReordered | src/server/lib/write-queue.ts:71-104 | In every run the batches in hand-over order followed by the buffer are the payloads enqueued, in order; batches are non-empty and within the size limit |
| WriteQueue.PromisesSettleOnce | src/server/lib/write-queue.ts:71-89 | Whatever order handlers finish in, no promise settles twice, and it resolves (rejects) exactly when the batch that carried its entry succeeded (failed) |
| WriteQueue.FlushesHandEverythingOver | src/server/lib/write-queue.ts:71-90 | In every run a flush, a shutdown, or a tick before any shutdown leaves the buffer empty and everything enqueued before it in a batch, whatever comes after; a tick after a shutdown changes nothing |
| WriteQueue.ShutdownDrains | src/server/lib/write-queue.ts:274-311 | After shutdown the buffer is empty and everything was handed over; once handlers are done every waiting promise is settled |
| BatchBuffer.Batch.FlushBatch | src/server/lib/write-queue.ts:71-75 | Takes the whole buffer out for one handler call; an empty buffer makes none |
| BatchBuffer.Batch.EnqueueEntry | src/server/lib/write-queue.ts:91-104 | Appends the entry and flushes when the size limit is reached |
| BatchBuffer.Batch.TimerTick | src/server/lib/write-queue.ts:185-190 | While the timer runs a tick hands the whole buffer over in one call; otherwise it changes nothing |
| BatchBuffer.Batch.CompleteFlush | src/server/lib/write-queue.ts:75-88 | Settles exactly the waiting entries of the completed batch and counts them if it succeeded |
| BatchBuffer.CloseAll | src/server/lib/write-queue.ts:274-311 | Timers are stopped first, then each buffer is flushed in turn, with any enqueues and completions while a handler is awaited; the end state of every buffer |
| BatchBuffer.ShutdownLeavesLateEntries | src/server/lib/write-queue.ts:274-311 | What stays in a buffer is exactly the remainder, by the size limit, of the entries enqueued from its own flush on |
| Glob.MatchesPattern | scripts/prune-unused-i18n.ts:118-140 | The greedy loop says yes exactly when some wildcard texts spell the key |
| Glob.LeftmostIsEnough | scripts/prune-unused-i18n.ts:134-136 | Taking the leftmost occurrence of a part loses no match |
| Glob.MatchesIsGapMatch | scripts/prune-unused-i18n.ts:118-140 | Spelling the key and finding the parts one after the other are the same |
| Glob.IndexOf | scripts/prune-unused-i18n.ts:134 | Finds the leftmost occurrence from a position on, or there is none |
| Splitting.SplitJoin | scripts/prune-unused-i18n.ts:142-148 | Splitting a key and joining the segments gives the key back |
| Splitting.JoinSplit | src/server/middleware/auth.ts:56-67 | Joining lines and splitting again gives the lines back |
| Splitting.SplitAtSeparator | src/server/lib/auth-flows.ts:18 | Around a separator the parts are those of the text before it and those of the text behind it |
| LocalePruning.PruneKeepsValues | scripts/prune-unused-i18n.ts:150-175 | In every document the values at used paths are what is left, in order; a document disappears exactly when it has none |
| LocalePruning.PruneKeepsUsedLeaves | scripts/prune-unused-i18n.ts:150-175 | The leaves of the pruned document, paths and values in order, are exactly the used ones if and only if in no array an item with a used leaf stands behind an item without one |
| LocalePruning.ObjectsHaveNothingToMove | scripts/prune-unused-i18n.ts:164-171 | Documents without arrays, as the shipped ones are, always meet that condition |
| LocalePruning.PruneIsTidyAndStable | scripts/prune-unused-i18n.ts:150-175 | No object or array is left empty; pruning again changes nothing exactly if each used leaf of the document, renumbered by the dropped items in front of it, comes to stand at a used path, and so whenever no item moves |
| LocalePruning.ArraysShift | scripts/prune-unused-i18n.ts:155-162 | An array whose second item moves to the first place, so that pruning again drops it too |
| LocalePruning.LeavesAreWhatOneIsLedTo | scripts/prune-unused-i18n.ts:36-55 | The leaves are exactly the scalars that names and item numbers lead to, each at the dotted path of the way there |
| LocaleTree.PathsAreJoined | scripts/prune-unused-i18n.ts:36-55 | A path is its segments joined by dots, as long as none is empty |
| LocaleTree.KeySet.AddLeafKeys | scripts/prune-unused-i18n.ts:36-55 | Adds exactly the leaf paths |
| LocaleTree.KeySet.MarkAncestors | scripts/prune-unused-i18n.ts:142-148 | Adds exactly the proper dotted ancestors |
| LocaleTree.AncestorsOfJoin | scripts/prune-unused-i18n.ts:143-147 | Dropping the last segment drops exactly one ancestor |
| LocaleTree.MatchesAny | scripts/prune-unused-i18n.ts:237-243 | Some pattern matches |
| LocaleTree.AddMatched | scripts/prune-unused-i18n.ts:236-243 | Adds exactly the leaves that some pattern matches |
| LocaleTree.MarkAllAncestors | scripts/prune-unused-i18n.ts:245 | Adds exactly the ancestors of the keys there were |
| LocaleTree.UsedPaths | scripts/prune-unused-i18n.ts:230-262 | A leaf path is used exactly when the code names it, a pattern matches it, or it is an ancestor of such a key |
| LocaleTree.PruneUnused | scripts/prune-unused-i18n.ts:224-262 | Of every document exactly the values at referenced paths survive, in order; they keep their paths exactly if no array item moves; nothing empty is left |
| RateLimit.CounterSurvivesItsWindow | src/server/rate-limit/redis-rate-limit-store.ts:26-56 | A counter never expires inside its own window, and counts the requests of that window |
| RateLimit.WindowBound | src/server/rate-limit/redis-rate-limit-store.ts:41-56 | Per aligned window exactly the first `maxRequests` requests are admitted |
| RateLimit.SlidingBound | src/server/rate-limit/redis-rate-limit-store.ts:41-56 | At most twice the limit is admitted in any interval of one window length |
| RateLimit.SlidingBoundIsTight | src/server/rate-limit/redis-rate-limit-store.ts:41-56 | For every limit and window some run admits exactly twice the limit |
| RateLimit.SlidesOnlyIfTrivial | src/server/rate-limit/redis-rate-limit-store.ts:1-56 | All prompt runs keep the limit in every stretch of one window length exactly if the limit is 0 or the window is one millisecond |
| RateLimit.RetryAfterReachesNextWindow | src/server/middleware/rate-limiter.ts:91 | Waiting Retry-After reaches a later window, and overshoots by less than a second |
| RateLimit.ResetIsTheNextWindow | src/server/rate-limit/redis-rate-limit-store.ts:41-56 | The reset time leads exactly to the first millisecond of the next window |
| RateLimit.RedisKeyTextInjective | src/server/rate-limit/redis-rate-limit-store.ts:45 | Different keys or windows never share a Redis key |
| RateLimiter.SubtreePattern | src/server/middleware/rate-limiter.ts:37-44 | A `/*` pattern covers exactly the prefix itself and everything below it |
| RateLimiter.OtherPatterns | src/server/middleware/rate-limiter.ts:37-44 | The pattern `*` covers every path, any other one just its own |
| RateLimiter.MatchingExactly | src/server/middleware/rate-limiter.ts:65-76 | Exactly the enabled rules that cover the path are charged, each once and in order |
| RateLimiter.OneKeyPerClient | src/server/middleware/rate-limiter.ts:48-61 | For one rule two callers share a counter exactly if their addresses agree, their tokens agree (no token reads as the text anonymous), or the rule is global |
| RateLimiter.CountIsTheClientsOwn | src/server/middleware/rate-limiter.ts:48-80 | Whatever else is charged, the count a charge gets is one more than the charges of that rule for that client in that window |
| RateLimiter.OtherClientsDoNotCount | src/server/middleware/rate-limiter.ts:48-80 | A charge of another client or rule, inserted anywhere, changes no count |
| RateLimiter.HandledChargeCountsOwn | src/server/middleware/rate-limiter.ts:65-99 | The same for each rule charged while a request is handled |
| RateLimiter.RejectionIsCounted | src/server/middleware/rate-limiter.ts:80-89 | A rejecting charge counts as a hit and as one rejection of that rule only |
| RateLimiter.CountersAreSeparate | src/server/middleware/rate-limiter.ts:48-61 | Rules whose names hold no colon share a counter exactly for equal names and equal identifiers |
| RateLimiter.NamesShareACounter | src/server/middleware/rate-limiter.ts:48-61 | Two rule names share a counter for some identifiers exactly if they are equal or one continues the other after a colon |
| RateLimiter.Limiter.Increment | src/server/rate-limit/redis-rate-limit-store.ts:41-56 | One increment: the count of this window, and the time to its end |
| RateLimiter.Limiter.ChargeRules | src/server/middleware/rate-limiter.ts:76-99 | Rules are charged in order up to the first exceeded one; the caller passes exactly when none was; tallies count the charges |
| RateLimiter.Limiter.Handle | src/server/middleware/rate-limiter.ts:65-103 | Exactly the enabled rules that cover the path are charged, in order up to the first exceeded one; the verdict, the Retry-After value and the tallies say so |
| RateLimiter.TalliesCountCharges | src/server/middleware/rate-limiter.ts:80-89 | Tallies grow by the number of charges under each name |
| Health.LongestTailIsLongest | src/server/jobs/check-endpoint-health.ts:224-228 | The reference notion: the longest tail of failures whose gaps stay within the window |
| Health.CounterRefinesHistory | src/server/jobs/check-endpoint-health.ts:236-301 | While an entity is enabled, its counter is the length of that tail of its history |
| Health.StatusTellsTheLastEvent | src/server/jobs/check-endpoint-health.ts:193-334 | In every history: healthy exactly after a successful check, down exactly after a failed check of a row that is disabled by then, degraded after any other event, unknown before the first; a failure that may not disable never does |
| Health.DisabledExactlyIfTripped | src/server/jobs/check-endpoint-health.ts:236-334 | In every history a row is disabled exactly if some failure completed enough failures in a row, close enough together, and no check has succeeded since |
| Health.DisablesExactlyOnEnoughFailures | src/server/jobs/check-endpoint-health.ts:276-301 | A failure of an enabled row disables it exactly when it is of a kind that may and completes `threshold` failures in a row without a gap beyond the window |
| Health.DisablingSpan | src/server/jobs/check-endpoint-health.ts:276-301 | The failures behind a disabling waited for one another at most (threshold - 1) windows in all |
| Health.StatusIsConsistent | src/server/jobs/check-endpoint-health.ts:193-334 | Down implies disabled; healthy implies enabled with no failures |
| Health.NoticesTellTransitions | src/server/jobs/check-endpoint-health.ts:240-333 | A notice is sent exactly when the disabled flag changes, and names the change |
| Health.NoticesAlternate | src/server/jobs/check-endpoint-health.ts:240-333 | Notices, sent where the code sends them, strictly alternate, starting with disabled |
| Health.Entity.ApplyHealthResult | src/server/jobs/check-endpoint-health.ts:236-334 | Applying a result statement by statement is one step with its notices; a success leaves the row healthy and enabled, a failure down if it is disabled and degraded if not |
| Health.Entity.RecordFailure | src/server/repos/ai-endpoint-repo.ts:299-325 | One more failure; a disabled row shows as down, an enabled one as degraded |
| Health.Entity.RecordSuccess | src/server/repos/ai-upstream-repo.ts:68-139 | Healthy with no failures; the disabled flag is untouched |
| Health.Entity.MarkAutoReenabled | src/server/repos/ai-endpoint-repo.ts:339-354 | Enabled, healthy, no failures |
| Health.Entity.MarkConfigError | src/server/jobs/check-endpoint-health.ts:193-200 | Degraded, whatever else the row says |
| CacheInvalidation.MessagesRoundTrip | src/server/cache/write-through-cache-store.ts:100-110 | A message is understood as meant exactly when it is not the deletion of a reserved key |
| CacheInvalidation.KillsExactly | src/server/cache/write-through-cache-store.ts:56-77 | A prefix deletion covers exactly the keys that are the prefix and some rest, a suffix deletion those that are some front and the suffix |
| CacheInvalidation.NothingOldSurvives | src/server/cache/write-through-cache-store.ts:95-169 | A process with an empty inbox holds no entry that it set before an invalidation was sent whose text, as receivers read it, covers the key; this includes deletions of reserved keys |
| CacheInvalidation.MapsAreReplays | src/server/cache/write-through-cache-store.ts:95-169 | Each map is part of the replay of its own operations and delivered messages |
| CacheInvalidation.PutsAreServed | src/server/cache/write-through-cache-store.ts:117-124 | What a process has put it holds, through every run that spares the key |
| CacheInvalidation.DeletionsReachOthersExactly | src/server/cache/write-through-cache-store.ts:95-169 | For every kind of deletion: another process that has drained its messages has lost an older entry exactly if the deletion was announced and its text, as it is read, covers the key |
| CacheInvalidation.BulkDeletionNeedsALocalMatch | src/server/cache/write-through-cache-store.ts:151-169 | After a prefix or suffix deletion and any run that spares the key, a process that has drained its messages still holds an older matching entry exactly if the process that asked held no match |
| CacheInvalidation.CoherentRun | src/server/cache/write-through-cache-store.ts:95-169 | In every run, every invalidation published after an entry was set is still on its way to it |
| CacheStore.LocalCache.Set | src/server/cache/write-through-cache-store.ts:36-38 | The entry is there afterwards; a full cache loses at most one other |
| CacheStore.LocalCache.DelByPrefix | src/server/cache/write-through-cache-store.ts:56-65 | Deletes exactly the keys with the prefix and counts them; no key that continues the prefix is left |
| CacheStore.LocalCache.DelBySuffix | src/server/cache/write-through-cache-store.ts:67-77 | Deletes exactly the keys with the suffix and counts them; no key that ends with the suffix is left |
| CacheStore.WriteThroughStore.Invalidate | src/server/cache/write-through-cache-store.ts:126-169 | What is deleted locally and which message is published |
| CacheStore.WriteThroughStore.OnMessage | src/server/cache/write-through-cache-store.ts:100-110 | A delivered message deletes what its text says |
| WeightedShuffle.WeightedShuffle | src/server/lib/weighted-shuffle.ts:7-33 | The items unchanged if no weight is positive; else the k-th item returned is the one of the remaining pool in whose piece of the line the k-th draw, times the remaining total, falls |
| WeightedShuffle.DrawsDecideTheOrder | src/server/lib/weighted-shuffle.ts:14-30 | That condition leaves one order only |
| WeightedShuffle.PoolKeepsOrder | src/server/lib/weighted-shuffle.ts:8 | The pool is the items of positive weight, in their order |
| WeightedShuffle.ShuffleKeeps | src/server/lib/weighted-shuffle.ts:8-30 | The result holds each item of positive weight as often as the input, and no other |
| WeightedShuffle.ShuffledIsPermutation | src/server/lib/weighted-shuffle.ts:14-30 | The pool comes out permuted |
| WeightedShuffle.PickIsProportional | src/server/lib/weighted-shuffle.ts:15-26 | An item is picked exactly when the random point falls into its own piece of the line, which is as long as its weight |
| WeightedShuffle.DrawIsOnTheLine | src/server/lib/weighted-shuffle.ts:16-18 | The random point lies below the total, so the fallback index is never needed |
| WeightedShuffle.SelectedByItsWeight | src/server/lib/weighted-shuffle.ts:15-26 | With integer weights exactly as many of the whole draws select an item as it weighs |
| WeightedShuffle.WholePartDecides | src/server/lib/weighted-shuffle.ts:16-26 | With integer weights only the whole part of the point matters |
| WeightedShuffle.FirstPlaceGoesByWeight | src/server/lib/weighted-shuffle.ts:14-30 | With integer weights an item comes first for exactly as many of the whole draws as it weighs, per occurrence in the pool |
| WeightedShuffle.WholePartPutsFirst | src/server/lib/weighted-shuffle.ts:14-30 | The whole part of the first point decides which item comes first |
| RevenueShare.ShareIsFair | src/server/ai/init.ts:184-190 | The share is below the exact one by less than one millionth, has six decimals, never eats into the upstream cost, and is left out exactly when the exact one is below a millionth |
| RevenueShare.NothingIsCreated | src/server/repos/key-provider-repo.ts:47-76 | In every interleaving the balance stays non-negative and is the start plus recorded and missing shares less withdrawals |
| RevenueShare.RowsFollowTheCredits | src/server/ai/init.ts:190-201 | The table holds exactly the rows of finished handlers; in credit order rows meet without a gap exactly if nothing was withdrawn in between |
| RevenueShare.CreditsChain | src/server/ai/init.ts:190-201 | With share credits only, the rows in credit order lead from the opening to the final balance without a gap, strictly upward, and add up to the change |
| RevenueShare.StoredRowsChainExactlyInOrder | src/server/ai/init.ts:190-201 | In every run with share credits only, the rows as stored lead from the opening to the final balance without a gap exactly if every credited handler inserted its row and the inserts came in the order of the credits |
| RevenueShare.StoredOrderMayNotChain | src/server/ai/init.ts:191-192 | An input for which they do not: two handlers that store their rows in the other order |
| RevenueShare.FailedInsertStaysMissing | src/server/ai/init.ts:190-201 | A handler whose insert failed keeps its credit and never gets a row |
| RevenueShare.Provider.RecordShare | src/server/ai/init.ts:181-201 | One handler credits exactly the owed share and stores its row, or does nothing |
| RevenueShare.Provider.DebitBalance | src/server/repos/key-provider-repo.ts:63-76 | Debits exactly when the funds suffice |
| KeyCache.Cache.DeriveKey | src/server/lib/crypto.ts:37-62 | Returns the bytes derivation would give for the lower-cased tag; live buffers stay distinct and within the cap; only an evicted buffer is overwritten, with zeros, never a live one or the one returned |
| KeyCache.Cache.Insert | src/server/lib/crypto.ts:50-60 | A new tag in a full cache pushes out the oldest and zeroes its buffer; other entries are untouched |
| KeyCache.Env.TagsDeriveApart | src/server/lib/crypto.ts:46-48 | Two tags never share a password or a salt |
| KeyCache.Env.EncryptionKeyComesFirst | src/server/lib/crypto.ts:42 | The session secret counts only where no encryption key is set, and then it alone does |
| KeyCache.FirstInFirstOut | src/server/lib/crypto.ts:50-60 | After any requests the cache starts with the old tags less exactly as many of the oldest as there were requests for a new tag in a full cache |
| KeyCache.NothingLeavesIfAllFit | src/server/lib/crypto.ts:50-60 | Nothing is evicted exactly if the old tags and those asked for fit together |
| KeyCache.OrdersAreBounded | src/server/lib/crypto.ts:52-60 | The cache never exceeds its cap and lists no tag twice |
| SealedText.HexRoundTrip | src/server/lib/crypto.ts:70-84 | Hexadecimal text reads back as the bytes written |
| SealedText.EncryptParts | src/server/lib/crypto.ts:65-72 | An encrypted text splits at the colons into vector, tag and data, in this order |
| SealedText.EncryptedTextsRoundTrip | src/server/lib/crypto.ts:65-87 | Decrypting what was encrypted gives the plaintext, if and only if it is not empty |
| SealedText.EncryptText | src/server/lib/crypto.ts:65-72 | Encrypts under the key that belongs to the tag, whatever the cache holds |
| SealedText.DecryptText | src/server/lib/crypto.ts:75-87 | Checks the form before deriving a key, and decrypts under the key that belongs to the tag |
| SealedText.RoundTripThroughTheCache | src/server/lib/crypto.ts:37-87 | The round trip holds although the cache evicts, expires and derives keys in between, and for any spelling of the tag |
| SiweMessage.ExtractSiweField | src/server/lib/auth-flows.ts:17-25 | Finds the first line that starts with the field |
| SiweMessage.TrimTakesSpace | src/server/lib/auth-flows.ts:19 | Trimming takes white space off both ends, all of it and nothing else |
| SiweMessage.RefusalNamesTheFirstFailure | src/server/lib/auth-flows.ts:34-86 | Any message at all passes exactly if it meets every condition, and a refusal names the first it does not meet |
| SiweMessage.PrintedFieldIsRead | src/server/lib/auth-flows.ts:17-25 | Each printed field is read back with its value |
| SiweMessage.LinesSplit | src/server/middleware/auth.ts:48-68 | A printed message splits into the lines it was made of, an address of several lines into its own |
| SiweMessage.FieldOfMessage | src/server/lib/auth-flows.ts:39-79 | A field is read from its own line unless a line of the address starts like the field |
| SiweMessage.PrintedMessagesPass | src/server/lib/auth-flows.ts:38-86 | For any address at all, the exact condition under which a printed message passes the checks of its own request |
| SiweMessage.PrintedMessagesFitOneRequest | src/server/lib/auth-flows.ts:38-86 | A message printed for an ordinary address is verified for exactly one request: that address up to case, that nonce, that origin, and until it expires |
| SignIn.KeysAreSeparate | src/server/middleware/auth.ts:32 | Keys agree exactly when scope and lower-cased address do |
| SignIn.NonceStore.CreateNonce | src/server/middleware/auth.ts:27-35 | A new nonce replaces the one its scope and address had |
| SignIn.NonceStore.ConsumeNonce | src/server/lib/ephemeral-state.ts:59-66 | Returns an unexpired nonce and deletes it in the same step |
| SignIn.NonceStore.VerifySiweSignature | src/server/lib/auth-flows.ts:27-97 | The nonce is consumed first, whatever the checks say; then the checks in order, then the signature |
| SignIn.NonceStore.SignInOnce | src/server/auth/strategies/siwe.ts:12-45 | A message handed back signed signs in exactly while its nonce lives; handing it back again does not |
| SignIn.EachNonceIsUsedOnce | src/server/lib/ephemeral-state.ts:9-15 | Over any run each nonce backs at most one verification, for the scope and address it was made for |
| SignIn.OnlyTheLatestNonceVerifies | src/server/lib/auth-flows.ts:34-40 | A verification succeeds only with the last nonce made for its scope and address, not used before |

## Left out

- Network, chain RPC, Redis, BullMQ and Postgres drivers: each statement or script is one step, each call answers as a parameter says.
- Cryptography: SHA-256 is taken to be injective, PBKDF2 is an open function, the cipher opens what it sealed, a signature is valid or not.
- Time stamps are integers and amounts are integers of base units; their text forms are not modelled, nor the stripping of trailing zeros.
- TokenRotation.RotationIsSafe: logout of a token in use, lost answers, spent expired tokens and browsers without locks are steps of the model that this theorem excludes as hypotheses; `RefreshLeavesLiveToken` and `WithoutLocksATokenIsSentTwice` show why.
- The request wrapper around a refresh (retry after a 401, redirect to the login page): in the protocol it shows as a refresh that starts with the refused token, and as clearing the stored pair.
- TokenRotation.OneExchangePerRefusedToken: like `OneExchangeDespiteClears` it assumes that no two access tokens are equal; tokens are stamped in whole seconds, so two for one user within one second can be. A clear that falls between the two storage writes of another tab is covered by neither.
- A request that the server still handles after its tab gave up; the content of access tokens.
- RateLimit.SlidingBound: like the bound per window it assumes that a script runs at most one window after its clock was read (`Prompt`), on one clock.
- A stored refresh token the server omitted from its answer: the protocol always returns one; `EndAttempt` covers the other case.
- Deposits: manual wallet verification, admin settlement, absolute balance overwrites and agent deletion are not steps; `Row.origin` is bookkeeping that no code reads. Crediting an agent also sets its status to active; the status is not modelled.
- Sync jobs: their own block cursor and their reading of outgoing transfers' counterparties.
- Poll intervals of the scan job, and its notification.
- ScanCursor.ScanLeavesNoGap: assumes heads of at least 1 and polls that no failed chunk or limit cut short; `CursorZeroIsForgotten` and `LimitLeavesBlocksBehind` say exactly what these exclude.
- TopupTables.Store.ProcessScan: takes the logs as a parameter; reading the chain and queueing again are part of `DepositScan.ScanOnce`.
- Write queue: routing between the batch buffer and the job queue, and registering one name twice.
- Health: concurrent checks of one upstream shared by several endpoints; latency, messages and time stamps that no decision reads.
- CacheStore.LocalCache.Set: which entry a full cache drops is left open, where the code drops the least recently used one; entries do not expire.
- Cache: the values written to Redis.
- RateLimiter: header values other than Retry-After; how the client address is taken from the request.
- Walking the source tree for key names, and the report the script prints.
- WeightedShuffle.PickIsProportional: weights and points are reals, so floating-point rounding of the sums is not modelled.
- RevenueShare: the percentage is an integer; a provider other than the active owner earns nothing and is not a step.
- SignIn.EachNonceIsUsedOnce: random nonces are taken not to repeat (`FreshNonces`).
- Sign-in: resolving the configured origin (URL parsing and environment), user lookup after verification, and the JSON coding of stored values.
- Zero-filled usage series, webhooks, balancer, billing and stream proxy, pages and routing: not part of this model.
