# Verified model of the coin-flip game backend

This project models, in Dafny, the parts of the backend whose correctness is
spread over several components, and proves what they keep over whole runs.

**Ingestion.** The HTTP poller reads one account's transaction chain in pages
of 100, walks `prev_trans_lt` links back over gaps, de-duplicates, sorts and
hands transactions over oldest first. Each one becomes a fresh game event; its
handler writes `games`, `game_events` and `users`; the checkpoint is stored by
a monotone conditional update and read back at a restart.

- `Chain.dfy`: the chain, the paged view of it, and the de-duplicating sort.
- `Poller.dfy`: one poll cycle as a function, all runs of it, and the poller,
  client and handler as objects whose methods are proved to compute that function.
- `Interval.dfy`: the adaptive interval in 64-bit arithmetic.
- `Tables.dfy`: the three tables and the SQL statements as functions on them.
- `Handlers.dfy`: the seven handlers and the retry loop for every point at which
  the database may fail, including the in-memory `event.ID` that tells a
  fresh insert from a duplicate.
- `Persistence.dfy`: repositories, handlers, transaction and retry loop as
  objects changed statement by statement, proved equal to `Handlers`.
- `Delivery.dfy`: retries, crashes and redeliveries of events.
- `Results.dfy`: wins and losses as folds over recorded results.
- `Recovery.dfy`: exactly which faults a redelivery can make good.
- `Ledger.dfy`: histories in the order the contract emits them, and the
  invariant that ties counters, rows and recorded events together.
- `Story.dfy`: every column of a game told from the events alone.
- `Provenance.dfy`: which recorded event backs each column of a game.
- `Sync.dfy`, `WebSocket.dfy`: the stored checkpoint and the live one.
- `Pipeline.dfy`: all of it together, with growth, faults, unsaved checkpoints
  and restarts at any moment.

**Lock tables.** Join, cancel and reveal reservations and expired claims share
one design: entries by game plus an inexact list of games by wallet.

- `Locks.dfy`: elementary changes, all runs of them, cap, coverage, exclusivity.
- `LockTable.dfy`: the calls as methods on two maps, with a clock that may move
  between any two looks; every call is shown to be a legal run of `Locks`.
- `JoinCancel.dfy`: mutual exclusion of join and cancel across two locks.

**Broadcast hub** (`Hub.dfy`) and **activity queues** (`Activity.dfy`).

## Assumptions

- On one account logical times are distinct, positive and below 2^64, and each
  transaction links to the one before it.
- A page query returns the newest transactions at or before the given time, at
  most 100, in any order and possibly repeated. The two early exits of the
  backfill loop (internal/infrastructure/toncenter/poller.go:278-281 and 294-297)
  are then never taken; `FetchOlder` asserts why.
- Backfill starts from a non-zero checkpoint; `ZeroCheckpointIff` says what
  happens from zero.
- There is one ingester, and a failed database call or commit changes nothing.
- The two repository queries behind the activity queues see one snapshot of the
  games; the code issues them one after the other.
- Caps are at least one, as the constructors of the lock tables make them, where
  a theorem says so.
- The contract emits notifications in the order `Ledger.Advance` describes, each
  in a transaction of its own. Only theorems that name `ContractOrdered` use it.

## Where the code does less than one might expect

- A Started, Draw, Cancelled or SecretOpened handler that stops after its second
  call, the insert of its event row, and never completes is lost for good.
  `RecoveryIff` gives the exact condition on the faults, `UnrecoverableIsFinal`
  and `LostForTheRun` what is lost. The crash equivalence speaks of runs that meet this condition
  (`SafeDelivery`); a crash between transactions, or anywhere inside
  GameInitialized, GameFinished or InsufficientBalance, always does.
- A retried draw can count player one more than once: `DrawCountedOnceIff`.
- Stored games played and the statistics query differ by the number of draws:
  `PlayedAgreesIffNoDraws`.
- README.md:368-370 of the repository promises that both sources retry a failed
  transaction. The WebSocket source does not once a later one commits:
  `FailureIsSkipped` and `SkippedForGood`, with the exact condition in `RedeliveredIff`.
- The interval leaves its bounds when three times the maximum overflows
  (`BoundsKeptIff`), and an interval of 1 ns never grows (`OneNanosecondIsStuck`).
- The comment on `handleError` lists backoffs from 1 s; after a successful
  request the field is 1 s already, so the next error waits 2 s. `Poller.Poll`
  states what the code does.
- The wallet index of a lock table may name somebody else's entry:
  `IndexIsNotExact`; it is exact along tidy runs and no others: `ExactIffTidy`.
- Join and cancel exclude each other if and only if calls do not overlap:
  `ExclusionIffSerial`, with a clash in `RaceReachesClash`.
- Reusing a client id breaks the hub's counter, `CounterCountsOverwritesTwice`, and
  the precision of stale failure lists, `StaleEntryIff`.
- Activity queues partition the games only if the repository and the use case
  agree on whose game it is: `PartitionIff`.

## Model

| member | source | states |
|---|---|---|
| `Pipeline.CrashEquivalence` | internal/infrastructure/toncenter/poller.go:326-351 | for every chain and every run with growth, failed requests, unsaved checkpoints, restarts and faults that satisfy the condition of RecoveryIff, once either checkpoint has reached the head the three tables equal those of the run in which nothing failed, and the ledger invariant holds |
| `Pipeline.SafeDeliveryIff` | internal/usecase/game_persistence.go:368-387 | that condition is exact: in the run without failures, cut at any transaction by any faults, a redelivery restores the run if and only if the condition holds |
| `Pipeline.OneCleanPollCatchesUp` | internal/infrastructure/toncenter/poller.go:215-360 | after any such run a single fault-free poll brings the tables to those of the run without failures |
| `Pipeline.RunKeeps` | internal/controller/blockchain/ton_event_handler.go:132-133 | in every state of such a run the tables are those of a prefix of the ideal run plus at most a repairable part of one event, and neither checkpoint is beyond that prefix |
| `Pipeline.StepKeeps` | internal/repository/postgres/blockchain_sync_state_repository.go:226-243 | growth, poll and restart each keep that invariant and never move the prefix back |
| `Pipeline.ProcessKeeps` | internal/infrastructure/toncenter/poller.go:326-345 | handling a stretch that starts at or before the prefix extends it past every accepted transaction |
| `Pipeline.HandleNext` | internal/usecase/game_persistence.go:301-329 | delivering the event at the frontier, retried or cut safely, moves the frontier by one or leaves it repairable |
| `Pipeline.HandlePassed` | internal/usecase/blockchain_subscriber.go:193-255 | redelivering anything before the frontier changes nothing even while the next event is half done |
| `Pipeline.PollEffect` | internal/infrastructure/toncenter/poller.go:338-351 | after a poll the checkpoint is the last accepted transaction or unchanged, and the stored one is the larger of the old value and it exactly when the callback ran |
| `Pipeline.RestartResumes` | internal/controller/blockchain/ton_event_handler.go:132-133 | a restart puts the poller back to the stored checkpoint and touches nothing else |
| `Pipeline.ReplayChangesNothing` | internal/usecase/game_persistence.go:368-376 | after a processed history, redelivering any of its events in any order, number and fault pattern changes no table |
| `Pipeline.DuplicatesLeaveNoTrace` | internal/usecase/game_persistence.go:594-602 | duplicates mixed into a history at any point leave the tables of the history without them |
| `Pipeline.LifecycleWithDuplicates` | internal/usecase/game_persistence.go:340-399 | with duplicates anywhere, games only move forward between any two moments and the ledger invariant holds |
| `Pipeline.AllAbsorbed` | internal/usecase/game_persistence.go:662-670 | every event of a processed history is recognised as a duplicate from then on |
| `Handlers.TryInitialized` | internal/usecase/game_persistence.go:210-329 | for every point of failure: no row is removed, no recorded event changes, at most this event's row is added; success leaves game, user and event on record |
| `Handlers.TryStarted` | internal/usecase/game_persistence.go:340-399 | the same for a join: event row first, then user and game |
| `Handlers.TryFinished` | internal/usecase/game_persistence.go:404-513 | the same for the transactional handler, whose tag survives a rollback |
| `Handlers.TryDraw` | internal/usecase/game_persistence.go:573-638 | the same for a draw with its separate increments |
| `Handlers.TryCancelled` | internal/usecase/game_persistence.go:641-686 | the same for a cancellation |
| `Handlers.TrySecretOpened` | internal/usecase/game_persistence.go:689-743 | the same for a reveal, whose player and side are only checked after the row is in |
| `Handlers.TryInsufficientBalance` | internal/usecase/game_persistence.go:747-777 | the same for the notification that only records itself |
| `Handlers.Try` | internal/usecase/blockchain_subscriber.go:486-521 | routing keeps the same promises |
| `Handlers.Route` | internal/usecase/blockchain_subscriber.go:438-481 | so does the retry loop that reuses the event object, for every number of attempts |
| `Persistence.Store.Upsert` | internal/repository/postgres/game_event_repository.go:69-106 | insert or ignore; the id is written back only by a fresh insert, so a stale id of an earlier attempt stays |
| `Persistence.Store.CreateGameOrIgnore` | internal/repository/postgres/game_repository.go:111-187 | an invalid row is refused without a call, an existing game is left alone |
| `Persistence.Store.Join` | internal/repository/postgres/game_repository.go:484-505 | the new tables after the unguarded join update, or no change on failure |
| `Persistence.Store.Reveal` | internal/repository/postgres/game_repository.go:508-538 | reads the game, refuses a stranger, writes the column of the player who revealed |
| `Persistence.Store.Complete` | internal/repository/postgres/game_repository.go:546-576 | the new tables after completion, empty winner and non-positive payout becoming NULL |
| `Persistence.Store.Cancel` | internal/repository/postgres/game_repository.go:579-599 | the new tables after cancellation |
| `Persistence.Store.EnsureUserByWallet` | internal/repository/postgres/user_repository.go:126-157 | the user exists afterwards and an existing one keeps its counters |
| `Persistence.Store.IncrementGamesPlayed` | internal/repository/postgres/user_repository.go:322-338 | one counter of one known wallet grows by one |
| `Persistence.Store.IncrementWins` | internal/repository/postgres/user_repository.go:346-362 | one counter of one known wallet grows by one |
| `Persistence.Store.IncrementLosses` | internal/repository/postgres/user_repository.go:370-386 | one counter of one known wallet grows by one |
| `Persistence.GamePersistence.FinishInTx` | pkg/postgres/tx.go:46-72 | the closure run inside the transaction succeeds exactly when enough calls get through, and then a duplicate has changed nothing and a fresh event is settled |
| `Persistence.GamePersistence.HandleGameInitialized` | internal/usecase/game_persistence.go:210-329 | the imperative handler equals its specification for every fault and id |
| `Persistence.GamePersistence.HandleGameStarted` | internal/usecase/game_persistence.go:340-399 | likewise |
| `Persistence.GamePersistence.HandleGameFinished` | internal/usecase/game_persistence.go:404-513 | likewise, with begin, commit and rollback |
| `Persistence.GamePersistence.HandleDraw` | internal/usecase/game_persistence.go:573-638 | likewise |
| `Persistence.GamePersistence.HandleGameCancelled` | internal/usecase/game_persistence.go:641-686 | likewise |
| `Persistence.GamePersistence.HandleSecretOpened` | internal/usecase/game_persistence.go:689-743 | likewise |
| `Persistence.GamePersistence.HandleInsufficientBalance` | internal/usecase/game_persistence.go:747-777 | likewise |
| `Persistence.GamePersistence.RouteEvent` | internal/usecase/blockchain_subscriber.go:486-521 | likewise for the dispatcher |
| `Persistence.GamePersistence.HandleTransaction` | internal/usecase/blockchain_subscriber.go:438-481 | the retry loop over one freshly parsed event equals the specified delivery |
| `Delivery.RedeliveryChangesNothing` | internal/usecase/game_persistence.go:368-376 | redelivering a recorded event changes nothing under any faults and is acknowledged once one attempt gets four calls through |
| `Delivery.PartialStep` | internal/usecase/game_persistence.go:340-399 | from any state an interrupted handler can leave, another attempt finishes exactly the fault-free effect or stays in such a state |
| `Delivery.RetriesRepair` | internal/usecase/blockchain_subscriber.go:438-481 | a retry loop that ends in success had exactly the effect of one fault-free delivery |
| `Recovery.RecoveryIff` | internal/usecase/game_persistence.go:368-396 | a redelivery brings the tables to those of an undisturbed delivery if and only if the handler writes its row last, or no attempt made a second call, or one attempt made all the calls of the handler and no draw was split before it |
| `Recovery.RecoverableDelivery` | internal/usecase/game_persistence.go:301-329 | under that condition a delivery from any repairable state has the whole effect or leaves a repairable state |
| `Recovery.RouteFinishesIff` | internal/usecase/blockchain_subscriber.go:438-481 | a retry loop succeeds if and only if some attempt makes all the calls of its handler |
| `Recovery.UnrecoverableIsFinal` | internal/usecase/game_persistence.go:594-626 | otherwise no redelivery of the event changes anything, the tables differ from the undisturbed ones, a join, reveal or cancellation has not reached the game, a player of a draw is miscounted |
| `Recovery.LostForTheRun` | internal/usecase/game_persistence.go:641-686 | a join or cancellation so lost is lost for the rest of the run: through any deliveries of any kind with any faults, as long as no other event writes that stamp of the game, the row never shows it and the tables never agree with those of the undisturbed run |
| `Recovery.LostJoin` | internal/usecase/game_persistence.go:368-396 | for every waiting game a cut after the second call loses the join in this way |
| `Recovery.LaterRevealHidesLoss` | internal/usecase/game_persistence.go:710-735 | why this does not lift to reveals: a lost one leaves no trace once the same player reveals again |
| `Recovery.SplitDrawsCancelOut` | internal/usecase/game_persistence.go:594-626 | nor to draws: two miscounted ones with the players swapped can add up to the undisturbed tables |
| `Delivery.DrawCounts` | internal/usecase/game_persistence.go:594-626 | how often a retried draw counts each player, for every fault pattern |
| `Delivery.DrawCountedOnceIff` | internal/usecase/game_persistence.go:609-626 | both players are counted once if and only if some attempt completes and none was cut between the two increments before it |
| `Delivery.DrawCountedTwice` | internal/usecase/game_persistence.go:594-626 | one such retry counts player one twice |
| `Delivery.FinishedAllOrNothing` | internal/usecase/game_persistence.go:462-513 | a GameFinished delivery either changes nothing or settles, and settles only what is not on record |
| `Results.ResultsAreAFold` | internal/usecase/game_persistence.go:462-513 | for every wallet, after any deliveries of all seven kinds with rollbacks, retries with stale ids, crashes and redeliveries: losses have grown by one for each newly recorded result whose row names it as the loser, wins by one for each it won while it had a row, and by nothing else |
| `Results.ResultsFromTheBeginning` | internal/usecase/game_persistence.go:480-498 | from empty tables the counters of every wallet are those folds themselves |
| `Results.KnownWinsAreAllWins` | internal/repository/postgres/user_repository.go:346-362 | from the moment a wallet has a row every newly recorded result it won is counted |
| `Results.DeliveriesKeepPlayers` | internal/usecase/game_persistence.go:378-396 | whatever is delivered, in whatever order and with whatever faults, every player on a game row is a user |
| `Results.OneLoserPerResult` | internal/usecase/game_persistence.go:438-446 | the loser is read once for each new row of a result |
| `Results.DeliveryResults` | internal/usecase/game_persistence.go:480-498 | a delivery of any kind changes the results of a wallet exactly when it newly records a result of that wallet |
| `Results.FinishedExactlyOnce` | internal/usecase/game_persistence.go:462-513 | when only results are delivered the whole tables are those of settling each newly recorded event once, in order |
| `Delivery.RecordedAreTheNewRows` | internal/repository/postgres/game_event_repository.go:69-106 | for deliveries of all kinds the newly recorded events are exactly the new rows of game_events, each once |
| `Ledger.LedgerHolds` | internal/repository/postgres/user_repository.go:176-193 | after every prefix of every contract-ordered history stored wins and losses equal the filtered counts over games, games played are wins plus losses plus draws, total wins equal recorded results and total losses those with a known loser |
| `Ledger.InvStep` | internal/usecase/game_persistence.go:438-498 | every notification the contract can emit is accepted, keeps that invariant and moves games forward |
| `Ledger.FinishedKeepsInv` | internal/usecase/game_persistence.go:480-498 | settling keeps it: winner and loser are counted in the same sets the query filters |
| `Ledger.FinishedTotals` | internal/usecase/game_persistence.go:480-498 | settling raises total wins by one, and total losses by one exactly when the loser is known |
| `Ledger.FinishedConserves` | internal/usecase/game_persistence.go:438-446 | so total wins stay the number of recorded results and total losses the number of those with a known loser |
| `Ledger.DrawKeepsInv` | internal/usecase/game_persistence.go:609-626 | a draw keeps it: both players are counted, nobody wins or loses |
| `Ledger.QuietKeepsCounters` | internal/repository/postgres/user_repository.go:126-157 | steps that settle nothing keep all counters in balance, a new user's zeros included |
| `Ledger.NextIsAccepted` | internal/usecase/game_persistence.go:340-399 | no event of such a history is refused, and none is a duplicate |
| `Ledger.Lifecycle` | internal/repository/postgres/game_repository.go:484-599 | between any two moments status never falls, a paid row is final, players and terms are kept and a revealed choice stays revealed, although the updates carry no guard |
| `Ledger.OriginIsKept` | internal/usecase/game_persistence.go:243-299 | creator, stake, terms and creating transaction on a row stay those its GameInitialized event announced, for the rest of the history |
| `Story.RowsTellTheStory` | internal/repository/postgres/game_repository.go:484-599 | after every prefix of every contract-ordered history every column of every row is a field of the last event that concerns it: creator, stake, terms and announced choice, second player with both sides closed, each side from that player's last reveal since the join, winner, payout and status from the ending, and the three stamps |
| `Story.RevealIsShown` | internal/repository/postgres/game_repository.go:508-538 | a side a player opens is in that player's column from the reveal until the same player reveals again |
| `Story.RevealTouchesOneSide` | internal/usecase/game_persistence.go:689-743 | a reveal leaves the other player's column and everything else of the row but the stamp as it was |
| `Story.PayoutIsKept` | internal/usecase/game_persistence.go:431-436 | winner and payout of a result stay on the row: the total gainings when announced, else the older field, and NULL when neither is positive |
| `Ledger.PlayedAgreesIffNoDraws` | internal/repository/postgres/user_repository.go:178-181 | games played exceed the query's count by exactly the draws, so the two agree if and only if there are none |
| `Ledger.EmptyTablesAreConsistent` | internal/usecase/game_persistence.go:31-45 | empty tables satisfy the invariant, so it holds from the first event on |
| `Provenance.DeliveriesKeepBacking` | internal/repository/postgres/game_repository.go:484-576 | after any deliveries whatever, in any order and with any faults, every second player, winner, payout, opened side and reveal stamp on a row is named by a recorded event of that game and player |
| `Provenance.DeliveriesKeepRowsSound` | internal/entity/game.go:58-93 | under any deliveries no row has a bad id, creator address, stake or creating transaction |
| `Provenance.AcceptedIffSound` | internal/usecase/game_persistence.go:210-329 | an announcement is accepted if and only if its fields are present and pass validation, whatever the tables hold |
| `Provenance.WellFormedIffMatched` | internal/entity/user.go:26-26 | the address pattern is EQ and 46 characters of the URL-safe alphabet |
| `Provenance.AttemptKeepsBacking` | internal/usecase/blockchain_subscriber.go:486-521 | every attempt at every handler keeps that |
| `Provenance.AttemptEarnsTag` | internal/repository/postgres/game_event_repository.go:69-106 | a non-zero id always means that this very event was inserted or its insert rolled back |
| `Poller.PrefixSafety` | internal/infrastructure/toncenter/poller.go:215-360 | over every run the checkpoint never falls and what was handled is exactly the chain between first and current checkpoint, once and in order |
| `Poller.RefusedComesFirst` | internal/infrastructure/toncenter/poller.go:326-337 | the first batch fetched after a refusal begins with the refused transaction, however the chain has grown |
| `Poller.StepExtendsPrefix` | internal/infrastructure/toncenter/poller.go:326-345 | one tick keeps that prefix, whatever fails in it |
| `Poller.MoodTells` | internal/infrastructure/toncenter/poller.go:353-359 | polling speeds up exactly after a tick that handled its whole non-empty batch, and slows down after a refusal, an empty batch or a failed request |
| `Poller.BatchIsTheGap` | internal/infrastructure/toncenter/poller.go:230-324 | from a non-zero checkpoint the batch is exactly the chain beyond it |
| `Poller.Bridge` | internal/infrastructure/toncenter/poller.go:268-323 | the backward walk ends at the first missing transaction, with one request for each page of the gap: it succeeds if and only if that many are answered |
| `Poller.BatchStart` | internal/infrastructure/toncenter/poller.go:215-324 | where a batch starts; at the checkpoint whenever that is not zero |
| `Poller.BatchArrives` | internal/infrastructure/toncenter/poller.go:268-323 | enough answers always produce a batch: the walk terminates |
| `Poller.ZeroCheckpointIff` | internal/infrastructure/toncenter/poller.go:268-268 | from checkpoint zero the batch is the whole chain if and only if the chain has at most one page |
| `Poller.Client.GetTransactions` | internal/infrastructure/toncenter/client.go:87-150 | an answer holds exactly the transactions of the page, whatever order and repetition the server chose |
| `Poller.Poller.FetchNewest` | internal/infrastructure/toncenter/poller.go:219-262 | filter, de-duplicate and sort give the end of the chain beyond the checkpoint |
| `Poller.Poller.FetchOlder` | internal/infrastructure/toncenter/poller.go:282-318 | one backfill turn extends the batch by exactly one page or to the checkpoint |
| `Poller.Poller.BridgeGap` | internal/infrastructure/toncenter/poller.go:268-323 | the loop computes the specified walk, with the position of the oldest transaction decreasing |
| `Poller.Poller.CollectBatch` | internal/infrastructure/toncenter/poller.go:215-324 | fetching computes the specified batch and resets the backoff after the first answer |
| `Poller.Poller.HandleBatch` | internal/infrastructure/toncenter/poller.go:326-345 | handles oldest first, stops at the first refusal, advances only past successes |
| `Poller.Poller.Poll` | internal/infrastructure/toncenter/poller.go:215-360 | one tick equals the specified cycle: checkpoint, handled list, callback value, interval and backoff |
| `Poller.Poller.HandleError` | internal/infrastructure/toncenter/poller.go:364-385 | the error count and the doubled, capped backoff |
| `Poller.BackoffDoubles` | internal/infrastructure/toncenter/poller.go:364-375 | after n failures in a row the backoff is 2^(n-1) seconds, at most 16, and one doubling ahead of that after a success |
| `Poller.Poller.AdjustInterval` | internal/infrastructure/toncenter/poller.go:388-410 | the interval after an active or idle poll |
| `Chain.NormalizeTransactions` | internal/infrastructure/toncenter/poller.go:188-212 | the result is ordered and holds the first transaction of each key; the number of duplicates is what is missing |
| `Chain.NormalizedUnique` | internal/infrastructure/toncenter/poller.go:204-207 | the result does not depend on the order in which the map is walked |
| `Chain.NormalizedSegment` | internal/infrastructure/toncenter/poller.go:300-318 | any batch with the transactions of a stretch of the chain normalises to that stretch |
| `Chain.BeforeIsStrictOrder` | internal/infrastructure/toncenter/poller.go:175-186 | the comparison by time and hash is irreflexive, asymmetric, and total up to equal keys |
| `Chain.BeforeTransitive` | internal/infrastructure/toncenter/poller.go:175-186 | and transitive |
| `Chain.HashLessIsByteOrder` | internal/infrastructure/toncenter/poller.go:175-180 | ties are broken by the byte order of hashes |
| `Chain.OrderedByTime` | internal/infrastructure/toncenter/poller.go:181-185 | an ordered batch runs forward or backward in time as asked |
| `Chain.PagesAreStable` | internal/infrastructure/toncenter/client.go:87-150 | growth of the chain does not change a page asked for by a known time |
| `Interval.BoundsKeptIff` | internal/infrastructure/toncenter/poller.go:388-410 | every poll keeps every interval within the bounds if and only if three times the maximum fits into 64 bits |
| `Interval.StaysInBounds` | internal/infrastructure/toncenter/poller.go:388-410 | then it stays there over every run |
| `Interval.IdleReachesMax` | internal/infrastructure/toncenter/poller.go:400-407 | from 2 ns up, 3n idle polls reach the maximum or 2^n times the start despite rounding |
| `Interval.ActiveReachesMin` | internal/infrastructure/toncenter/poller.go:393-398 | polls with activity never raise the interval, and 2n of them reach the minimum or cut the start by 2^n |
| `Interval.OneNanosecondIsStuck` | internal/infrastructure/toncenter/poller.go:400-407 | from 1 ns no number of idle polls has an effect |
| `Interval.Normalize` | internal/infrastructure/toncenter/poller.go:55-67 | positive ordered bounds always come out, and valid ones are kept |
| `Interval.WrapIsCongruent` | internal/infrastructure/toncenter/poller.go:393-401 | products wrap round modulo 2^64, as durations of 64 bits do |
| `Interval.QuotientTruncates` | internal/infrastructure/toncenter/poller.go:393-401 | quotients are rounded towards zero on both sides of it |
| `Sync.StoredIsMax` | internal/repository/postgres/blockchain_sync_state_repository.go:209-251 | for a fixed contract the stored time is the largest ever written |
| `Sync.OrderIrrelevant` | internal/repository/postgres/blockchain_sync_state_repository.go:226-243 | whatever order the callbacks run in |
| `Sync.StoredIsMaxOfStretch` | internal/repository/postgres/blockchain_sync_state_repository.go:226-243 | for writes of any contracts the row carries the contract written last and the largest time of the final stretch of writes for it; what another contract had reached counts for nothing |
| `Sync.ResumeAfterWrites` | internal/controller/blockchain/ton_event_handler.go:324-330 | a restart resumes there for that contract, and at zero for any other or when resuming is off |
| `Sync.ResumeAfterPersist` | internal/controller/blockchain/ton_event_handler.go:324-330 | a restart resumes at that time under the same contract and at zero under another |
| `Sync.SyncStore.PersistCheckpoint` | internal/repository/postgres/blockchain_sync_state_repository.go:209-251 | the row after the conditional update |
| `WebSocket.LiveCheckpoint` | internal/infrastructure/toncenter/websocket_subscriber.go:69-120 | under every interleaving the live checkpoint never falls and is the larger of the resume value and the largest committed time, every committed transaction was handled successfully, and the stored checkpoint follows the live one |
| `WebSocket.HashBelongsToLive` | internal/infrastructure/toncenter/websocket_subscriber.go:106-113 | time and hash of the live checkpoint are those of one committed transaction |
| `WebSocket.CallbackCatchesUp` | internal/infrastructure/toncenter/websocket_subscriber.go:115-117 | a callback brings the stored checkpoint up to the live one, whatever callbacks came late or never |
| `WebSocket.RedeliveredIff` | internal/infrastructure/toncenter/websocket_subscriber.go:69-90 | a transaction is forwarded if and only if nothing at or after its time was committed |
| `WebSocket.SkippedForGood` | internal/infrastructure/toncenter/websocket_subscriber.go:69-90 | once any time at or after that of a transaction is committed, no continuation of any run forwards it |
| `WebSocket.FailureIsSkipped` | internal/infrastructure/toncenter/websocket_client.go:289-293 | so a failed transaction is never forwarded again after a later one has gone through, however the run goes on |
| `WebSocket.Subscriber.CheckUnderReadLock` | internal/infrastructure/toncenter/websocket_subscriber.go:69-96 | the first critical section is the Check step, and forwards exactly what passed it |
| `WebSocket.Subscriber.CommitUnderWriteLock` | internal/infrastructure/toncenter/websocket_subscriber.go:105-120 | the second is the Commit step, and calls back only on progress |
| `WebSocket.Subscriber.HandleTransaction` | internal/infrastructure/toncenter/websocket_subscriber.go:69-120 | an undisturbed delivery is Check, handler, Commit; skipped ones are acknowledged |
| `Locks.CapHolds` | internal/usecase/reservation.go:149-176 | in every state reachable by reserving, cancelling, releasing, cleaning up and waiting no wallet holds more active entries than the cap, and its list covers every entry it holds |
| `Locks.HeldIsCounted` | internal/usecase/reservation.go:149-157 | counting along a list with stale and repeated ids never misses an entry of the wallet |
| `Locks.PutKeeps` | internal/usecase/reveal_reservation.go:133-167 | reserving a batch under the count check keeps cap and coverage |
| `Locks.ReleaseKeeps` | internal/usecase/reservation.go:424-437 | removing one occurrence from one list uncovers no other entry |
| `Locks.UnindexTakesOne` | internal/usecase/reservation.go:424-437 | a release takes exactly one occurrence out of one list and leaves no empty list behind |
| `Locks.PutAllReserves` | internal/usecase/reveal_reservation.go:150-167 | a batch, repeated ids included, makes every requested game the caller's and touches no other entry |
| `Locks.ReservedExactlyUntil` | internal/entity/reservation.go:42-49 | a reservation is active for the configured time, the last instant included, and no longer |
| `Locks.ExclusiveUntilRelease` | internal/usecase/reservation.go:105-216 | from a reservation until expiry, holder cancel or authoritative release, through all other calls and cleanups, the entry stays the same and nobody else can reserve the game |
| `Locks.IndexIsNotExact` | internal/usecase/reservation.go:144-176 | a reachable state in which a wallet's list names an active entry of another wallet and counts it |
| `Locks.ExactIffTidy` | internal/usecase/reservation.go:370-437 | over every run the lists are exact in all states if and only if nothing is reserved over or purged while still marked active and no id is requested twice in a batch |
| `Locks.StepExactIff` | internal/usecase/reservation.go:144-176 | one step keeps exact lists exact if and only if it is tidy in that sense |
| `Locks.FirstUntidyStepBreaks` | internal/usecase/reveal_reservation.go:150-167 | from the empty table on, the first step that is not tidy breaks them |
| `Locks.ExactListsAreHoldings` | internal/usecase/reservation.go:219-231 | with exact lists listing and count are precisely what the wallet holds |
| `Locks.NoLeftovers` | internal/usecase/cancel_reservation.go:208-266 | a table that deletes on release only ever holds entries marked active |
| `LockTable.LockTable.IsActive` | internal/entity/reservation.go:42-49 | active means marked active and not past the expiry, at the time of the look |
| `LockTable.LockTable.ActiveCount` | internal/usecase/reservation.go:149-155 | the count lies between the numbers of active entries at the start and at the end of the walk |
| `LockTable.LockTable.RemoveFromIndex` | internal/usecase/reservation.go:424-437 | one occurrence goes and an emptied list is dropped |
| `LockTable.LockTable.Reserve` | internal/usecase/reservation.go:141-176 | success is a legal reservation at the time of insertion; already reserved is answered if and only if the game is active at the look, too many only when the count has reached the cap; an error changes nothing |
| `LockTable.LockTable.ReserveBatch` | internal/usecase/reveal_reservation.go:102-187 | all or nothing: an error changes neither map and has its own reason; success makes every requested game the caller's and displaces no active entry |
| `LockTable.LockTable.Claim` | internal/usecase/expired_claim.go:81-146 | the holder of an active claim gets exactly it back and anybody else is refused; too many is answered only for a free game and a full wallet |
| `LockTable.LockTable.Cancel` | internal/usecase/reservation.go:255-275 | not found if and only if the entry is not active, not holder if and only if it is active and another's; otherwise it is released |
| `LockTable.LockTable.ReleaseOnProgress` | internal/usecase/reservation.go:298-312 | afterwards the game is not reserved; an inactive entry is left alone |
| `LockTable.LockTable.ReleaseStale` | internal/usecase/reservation.go:455-467 | afterwards there is no entry, whatever its status was |
| `LockTable.LockTable.Cleanup` | internal/usecase/reveal_reservation.go:319-334 | what was inactive at the start is gone, what had expired by then is taken out of its holder's list, what is active at the end is untouched, and nothing is freed early |
| `LockTable.LockTable.CleanupInTwoPasses` | internal/usecase/reservation.go:370-400 | the same for the join table, which marks first and deletes afterwards |
| `LockTable.LockTable.CleanupByDeleting` | internal/usecase/cancel_reservation.go:307-317 | the same for the cancel table, which deletes at once |
| `LockTable.LockTable.Get` | internal/usecase/cancel_reservation.go:163-171 | the entry if and only if it is active |
| `LockTable.LockTable.ListByWallet` | internal/usecase/reveal_reservation.go:201-213 | lists exactly the active ids of the wallet's list, repeated ones repeatedly, up to what expires meanwhile, and so misses nothing the wallet holds |
| `JoinCancel.AtomicCallsExclude` | internal/usecase/reservation.go:127-176 | with atomic calls no run reaches a game with both reservations active |
| `JoinCancel.SerialWindowsExclude` | internal/usecase/cancel_reservation.go:103-144 | it is enough that opposite calls on one game do not overlap between their look and their insertion |
| `JoinCancel.ExclusionIffSerial` | internal/usecase/cancel_reservation.go:103-144 | the exact condition over every run: no state of it can still end in both reservations active if and only if opposite calls on one game never overlap |
| `JoinCancel.ClashIffOverlap` | internal/usecase/reservation.go:127-176 | a call that begins makes such an end possible if and only if it overlaps one on the other side of its game, however full the tables are |
| `JoinCancel.RaceReachesClash` | internal/usecase/reservation.go:127-176 | a run of the code's own steps from empty tables to both reservations active |
| `JoinCancel.ReserveJoin` | internal/usecase/reservation.go:105-176 | atomically called it keeps the tables apart; each refusal has its exact reason, and a grant was possible at the moment of insertion |
| `JoinCancel.ReserveCancel` | internal/usecase/cancel_reservation.go:86-144 | atomically called it keeps the tables apart; only the creator of a waiting game gets past the first checks, and each refusal has its exact reason |
| `Hub.CounterCountsOverwritesTwice` | internal/usecase/game_broadcast.go:163-218 | over every run the counter exceeds the number of subscriptions by exactly the subscriptions that replaced one since the last shutdown |
| `Hub.FreshIdsKeepCounter` | internal/controller/websocket/game_ws_handler.go:143-157 | with fresh client ids the two are equal in every reachable state, stale cleanups included |
| `Hub.SubscribedIff` | internal/usecase/game_broadcast.go:163-218 | over every run a client is subscribed if and only if some step subscribed it and no later one unsubscribed it, listed it as failed or closed everything; its connection is that of the last such step |
| `Hub.StaleEntryIff` | internal/usecase/game_broadcast.go:563-590 | what a snapshot says of a subscription that is there now still holds if and only if it was not subscribed anew since, so a stale list removes the wrong connection in no other case |
| `Hub.StaleListsArePrecise` | internal/controller/websocket/game_ws_handler.go:143-157 | with fresh ids, as the handler makes them, a stale failure list only ever removes the connection that failed |
| `Hub.ReusedIdBreaksBoth` | internal/usecase/game_broadcast.go:163-180 | a reused id leaves the counter too high and lets a stale list remove the new connection |
| `Hub.GameBroadcast.SubscribeTo` | internal/usecase/game_broadcast.go:163-180 | nested maps and counter after a subscription |
| `Hub.GameBroadcast.UnsubscribeFrom` | internal/usecase/game_broadcast.go:195-211 | afterwards the client is not subscribed, everybody else is as before, and the counter fell by one exactly if it was |
| `Hub.GameBroadcast.Snapshot` | internal/usecase/game_broadcast.go:489-511 | exactly the subscribers of the game and of all games, the latter winning a shared id |
| `Hub.GameBroadcast.Send` | internal/usecase/game_broadcast.go:513-561 | exactly the clients whose write fails are listed, each once, on the list that matches where it was found |
| `Hub.GameBroadcast.CleanupFailed` | internal/usecase/game_broadcast.go:563-590 | removes exactly those still subscribed, whatever happened since the snapshot |
| `Hub.GameBroadcast.CloseAllConnections` | internal/usecase/game_broadcast.go:305-334 | nothing subscribed, counter zero |
| `Hub.GameBroadcast.Broadcast` | internal/usecase/game_broadcast.go:229-283 | undisturbed it drops exactly the dead subscriptions, except that of a game when the client follows all games too, and keeps the counter in step |
| `Activity.PartitionIff` | internal/usecase/game_activity.go:184-247 | every live game of the wallet and every other waiting game is in exactly one queue, and nothing else is in any, if and only if repository and use case agree on whose game it is |
| `Activity.CountsAddUp` | internal/usecase/game_activity.go:413-425 | then the five counts add up to the number of those games |
| `Activity.AnnouncedGameQueues` | internal/usecase/game_activity.go:184-208 | a new game is joinable for everybody but its creator, who has it among the active ones |
| `Activity.JoinedGameQueues` | internal/usecase/game_activity.go:516-530 | once joined it requires a reveal of both players |
| `Activity.RevealedGameQueues` | internal/usecase/game_activity.go:284-327 | a player who has revealed has it among the active ones again |
| `Activity.EndedIsPaid` | internal/repository/postgres/game_repository.go:546-599 | a result, a draw or a cancellation leaves the game paid |
| `Activity.PaidGameQueues` | internal/usecase/game_activity.go:317-321 | and then it is history for whoever finds it and nothing else for anybody |
| `Activity.NothingExpires` | internal/usecase/game_activity.go:314-316 | no contract-ordered history puts a game up for expired attention, because no event sets that status |
| `Activity.PopulateJoinable` | internal/usecase/game_activity.go:184-208 | the loop appends exactly the waiting games of others, in order |
| `Activity.PopulatePlayer` | internal/usecase/game_activity.go:210-247 | the loop appends each found game to the queue of its status, in order |
| `Activity.SortItems` | internal/usecase/game_activity.go:532-536 | newest first, games of the same moment in their old order |
| `Activity.LatestComesFirst` | internal/usecase/game_activity.go:532-536 | the first item of a queue is one with the latest activity |
| `Activity.ListingKeepsOrder` | internal/usecase/game_activity.go:197-207 | before the sort a queue keeps the order in which the repository returned its games |
| `Activity.StableSortUnique` | internal/usecase/game_activity.go:532-536 | only one list is such a sort |
| `Activity.StableSortPermutes` | internal/usecase/game_activity.go:532-536 | the sort loses and invents nothing |
| `Activity.BuildQueues` | internal/usecase/game_activity.go:151-172 | every queue is the stable sort of its listing |
| `Activity.Summarize` | internal/usecase/game_activity.go:413-425 | each of the five counts is that of its queue, and together they count the relevant games |
| `Activity.PagesCoverQueue` | internal/usecase/game_activity.go:538-549 | the pages at offsets 0, L, 2L, ... together are the queue |
| `Activity.NormalizeLimit` | internal/usecase/game_activity.go:403-411 | a page limit is at least one, at most the maximum, and kept when it is in range |
| `Activity.GetQueue` | internal/usecase/game_activity.go:67-98 | the requested page of the one stable sort, its total and the summary; a negative offset is refused |

## Left out

- Message parsing: a transaction carries its event or none; non-game and undecodable traffic is acknowledged without effect, as the subscriber does. The dead-letter queue that records it is not modelled.
- Wallet text: trimming, address parsing and case folding are a function `norm`; in the lock tables nothing is assumed of it. Which error a blank wallet gets from the claim table's release is not told apart.
- Row ids, `created_at` and `updated_at`: equality of tables is equality up to them. The event's own time and hash are kept.
- Event data as JSON: a field is present or absent, and the protocol terms are one optional group with their defaults already applied.
- GameFinished without a transaction manager: the application always sets one, so only the transactional path is modelled.
- Referrers: no handler writes one on a game built from events, so the referral branch of GameFinished is unreachable.
- Calls that handlers make after their tables are written: broadcasts, lock releases, metrics and logs. The releases appear as steps of the lock tables.
- Database checks before reveal reservations and claims, and the availability check inside ListByWallet: they only refuse more or release a stale entry, which is a step of its own. The final sort of listings by creation time is not modelled.
- Connection handling: WebSocket reconnects, the fallback from WebSocket to polling, circuit breaker, goroutines and sleeping.
- HTTP handlers, authentication, rate limiting, configuration, search over activity items and next-action labels.
- Pipeline.CrashEquivalence: speaks of runs whose faults meet the condition of RecoveryIff, because the code cannot recover from others. Over a whole run that condition is sufficient and not necessary (see LaterRevealHidesLoss and SplitDrawsCancelOut).
- Interval.IdleReachesMax: requires that three times the maximum fits into 64 bits, because otherwise the interval leaves its bounds (see BoundsKeptIff).
- JoinCancel.ReserveJoin: one atomic call; the code's two lock acquisitions are the steps of RaceReachesClash.
- JoinCancel.ReserveCancel: one atomic call, as ReserveJoin.
