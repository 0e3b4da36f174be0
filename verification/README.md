# Horoscope job pipelines in Dafny

Horoscope indexes a Cosmos chain: services crawl the chain through Bull queues into Mongo collections and serve
them over an API. This project models the pipelines that keep state between runs, and proves what they keep.

| module(s) | what is modelled | main results |
|---|---|---|
| `FeegrantLedger`, `FeegrantServices`, `FeegrantSelection`, `FeegrantRuns`, `FeegrantLifecycle` | fee-grant intake, linking cron, ledger job | conservation over every interleaving; exactly which records are forwarded, each at most once; exactly when batches may be split or reordered; ended grants stay ended when jobs run in turn, and a run that reopens one when they do not |
| `DelayJobRuns`, `DelayJobs`, `AccountCrawl`, `LcdPages`, `DelayJobRefinement` | delay-job protocol of the unbonding and redelegation crawlers | no stored response is ever forgotten, over every interleaving of crawls and handlers; no timer starves; the services' jobs are runs of the protocol |
| `BlockCrawler`, `BlockProgress` | block cursor with lost writes, crashes and lagging nodes | no height skipped, cursor monotone and bounded, exactly once in calm runs, progress while reports rise or lag; what each job asks for, height by height; exactly when a batch is complete, and that what it misses stays missed |
| `TransferStats`, `RawTransfers`, `TransferMeaning`, `DayChain`, `DayMeaning`, `SlidingWindows`, `StatsPipeline`, `Percentages` | account statistics and daily transactions | the job chain is one pass, the fold counts what the messages of the chain say, the windows summarise the whole history, the percentages total 100; all composed from messages to windows |
| `ModuleWatch` | hot-reload traversal of a cyclic module graph | termination; watch items list exactly the reachable files and exactly the files on the way |
| `KeysetPaging` | three cursors | following the key lists every match once, in order, in ceil(n/limit) requests; exactly when an offset breaks that |
| `ClaimedRewards`, `ClaimedRewardsJob` | reward accumulation through shared account objects | final amounts per account and validator; all-or-nothing |
| `ProposalSync` | proposal reconciliation | over all runs: one document per id, marked exactly when unlisted, proposer fields never lost |
| `SearchQuery`, `QueryMerge` | search-string parser, search rewrite | round trip exactly when no value holds a split character; the rewrite means query and search |

Classes stand for the services; their fields are the collections, Redis keys and queues the service reads and
writes. Loops of the services are loops here, and each method is proved against a function of its inputs and old
state; the lemmas state what is true of that function. Whole runs are state machines: an event per asynchronous
step, a run is any list of enabled events.

## Assumptions

- Amounts are exact integers. One grant exists per transaction hash (`FreshHashes`).
- `feegrant.db` jobs run one at a time, in any order; `services/feegrant/feegrant-db.service.ts:34` asks for that, though
  line 39 does not wait for the job. The fee-grant services do not die between two steps.
- Figures are stored as text (`model/feegrant.model.ts:22-25`), so a remaining amount of zero is still a figure.
- Database calls and timer inserts do not fail, and unbonding and redelegation crawls do not throw (`DelayJobRuns` only).
- The records of one intake are inserted one after the other, in list order; the unique index of the history
  (`model/feegrant.model.ts:41`) refuses some and does not stop the rest.
- Redis applies one client's writes in order.
- A job handed to Bull is in its queue at once (`BlockCrawler`, where the hand-over is not awaited).
- Addresses in a crawl job are those that pass the address filter. Each chain response has an entry.
- Vote heights, proposal ids and `_id`s are positive; sort keys are unique; a collection does not change while its keys
  are followed, and pages behind an `_id` come in `_id` order.
- Proposal ids in one answer of the chain are distinct; no other service writes the proposals during a run.
- `isEmpty(amount)`, the spend limit and the fee are read as `NoCoin`, `BlankCoin` (a coin without a figure) or `Coin`.

Where a comment and the code differ the code is followed: the cron job's comment says "less than or equal", its
filter takes strictly earlier grants only (`services/feegrant/cronjob-update-origin-grant.service.ts:85-91`).

Some promises are false as they stand and are proved with their exact condition: splitting a ledger job (`SplitBatch`)
or reordering it (`PermuteBatch`), an ended grant staying ended (`ReopensIff`), every reported record entering the
history (`IntakeKeepsCounts`), the filtered log index (`FilterSafeIff`), every chain proposal being stored
(`ListedAreStored`), listing all votes (`FollowVotes`), undoing the printer (`RoundTrip`) and the completeness of a
block batch (`BatchCompleteIff`).

## Model

| member | source | states |
|---|---|---|
| FeegrantRuns.EveryRunConserves | services/feegrant/feegrant-db.service.ts:78-185 | from empty collections, in every interleaving of the steps of intake, cron and ledger jobs: limit = remaining + fees of the applied linked USE records; grants without a limit never get an amount; no history record is forwarded twice; a transaction has at most one record of an action and status |
| FeegrantRuns.CronForwards | services/feegrant/cronjob-update-origin-grant.service.ts:34-128 | whatever the cron job's contract allows, even from an older reading of the history, is a batch of unlinked, distinct records, at most 2000, each linked to its origin |
| FeegrantRuns.MarkedAt | services/feegrant/cronjob-update-origin-grant.service.ts:98-127 | the bulk write gives every record of the batch its origin and changes nothing else |
| FeegrantRuns.SpendAddBatch | services/feegrant/feegrant-db.service.ts:94-139 | applying a batch adds to the history's linked spending exactly what the batch's fold adds up |
| FeegrantRuns.ForwardKeepsBooks | services/feegrant/cronjob-update-origin-grant.service.ts:36-125 | sending a batch linked from what may be a stale reading keeps the books: it holds no record forwarded before, and the history it will be marked in agrees with every job sent |
| FeegrantLifecycle.EndedForGood | services/feegrant/feegrant-db.service.ts:84-139 | when every batch has run before the cron job links the next one, a grant that is revoked or used up is never changed again |
| FeegrantLifecycle.ReopensIff | services/feegrant/feegrant-db.service.ts:84-139 | a job makes an ended grant available exactly when it does not throw, touches the grant and holds no revoke of it |
| FeegrantLifecycle.OutOfTurnReopens | services/feegrant/cronjob-update-origin-grant.service.ts:112-127 | a run with two waiting batches, the second with an earlier use whose record came late, that makes a revoked grant available |
| FeegrantLifecycle.LinksStayTrue | services/feegrant/cronjob-update-origin-grant.service.ts:86-97 | every forwarded record is for ever linked to a successful, strictly earlier grant of its own pair |
| FeegrantLedger.SplitBatch | services/feegrant/feegrant-db.service.ts:84-185 | running the jobs A and B leaves the ledger of the job A+B if and only if: when both are free of blank fees, no stored grant ended in A is used in B without being ended again; otherwise, each half that would run alone has no effect |
| FeegrantLedger.BlankFeeSplits | services/feegrant/feegrant-db.service.ts:94-111 | an input that fails: a fee of 3 and a blank fee |
| FeegrantLedger.LateUseSplits | services/feegrant/feegrant-db.service.ts:84-139 | an input that fails: a revoke, then a use of the revoked grant |
| FeegrantLedger.NoEffectIff | services/feegrant/feegrant-db.service.ts:154-200 | a batch changes nothing exactly when every stored grant it touches spends 0, keeps its status and keeps its revoking transaction |
| FeegrantLedger.PermuteBatch | services/feegrant/feegrant-db.service.ts:84-200 | every reordering of a job has the same effect if and only if it throws anyway or the revokes of each stored grant agree |
| FeegrantLedger.TwoEndingsReorder | services/feegrant/feegrant-db.service.ts:112-138 | an input that fails: a plain revoke and a use-up of one grant |
| FeegrantLedger.EndsIff | services/feegrant/feegrant-db.service.ts:112-138 | a batch leaves a touched grant ended exactly when it holds a revoke of it |
| FeegrantLedger.SpentOnPermutation | services/feegrant/feegrant-db.service.ts:94-111 | the spent sum does not depend on the order |
| FeegrantServices.FeegrantDb.HandleJob | services/feegrant/feegrant-db.service.ts:78-202 | the job throws exactly when a use record has no figure, leaving the ledger; else every touched grant loses the sum of its fees, takes the status of its last revoke and the hash of its last plain revoke, and no other grant changes |
| FeegrantLedger.ExpireMarksDue | services/feegrant/feegrant-db.service.ts:61-76 | a check marks exactly the available grants past their expiration and changes nothing else; one at an earlier or the same time has nothing left to mark |
| FeegrantLedger.ExpireOrJobFirst | services/feegrant/feegrant-db.service.ts:61-139 | a check and a ledger job may change places exactly when the job throws or it touches no unmarked grant past its expiration that is available only before or only after it |
| FeegrantRuns.TickMarks | services/feegrant/feegrant-db.service.ts:61-76 | in a run a check marks the available grants past their expiration and leaves records, batches and jobs alone |
| FeegrantServices.FeegrantDb.FoldUpdates | services/feegrant/feegrant-db.service.ts:94-139 | the update map holds, per touched grant, fee sum and final status |
| FeegrantLedger.JobSettles | services/feegrant/feegrant-db.service.ts:84-200 | a job settles a grant its records touch: the status is that of the grant's last revoke, or available, the hash that of the last plain revoke, or the old one, and nothing but the fees leaves its amount |
| FeegrantServices.IntakeKeepsCounts | services/feegrant/feegrant-history-db.service.ts:48-187 | on every pair, fees, payments, endings of each kind and creations enter the history as often as they are reported if and only if no two records share transaction, action and status, which the unique index allows once |
| FeegrantServices.TwoMessagesOneFee | model/feegrant.model.ts:41 | an input that fails: a transaction of two messages reports its fee twice and is recorded once |
| FeegrantServices.AcceptedAre | model/feegrant.model.ts:41 | what the index lets in is new, unique, and covers every draft's key |
| FeegrantServices.NewGrantsJoin | services/feegrant/feegrant-history-db.service.ts:50-64 | new grants enter under their own hash with their limit as amount; nothing stored changes |
| FeegrantServices.DraftsAsReported | services/feegrant/feegrant-history-db.service.ts:48-187 | what each record of a reported action holds, field by field |
| FeegrantServices.LetInAt | model/feegrant.model.ts:41 | the index lets in exactly the first draft of each new key, in order |
| FeegrantServices.FeegrantHistoryDb.HandleJob | services/feegrant/feegrant-history-db.service.ts:44-189 | history and ledger after intake, without the records the unique index refuses |
| FeegrantServices.CronjobUpdateOriginGrant.HandleJob | services/feegrant/cronjob-update-origin-grant.service.ts:34-129 | of the first 2000 unprocessed records exactly those with an eligible grant are forwarded, each linked to a youngest strictly earlier available grant of its pair, and marked |
| FeegrantSelection.ForwardedIff | services/feegrant/cronjob-update-origin-grant.service.ts:36-118 | a record is in the batch, linked, if and only if it has no origin, its result holds, fewer than 2000 such records precede it, and its pair has an available successful grant made strictly before it; its origin is a youngest one, and the batch keeps the order of the history |
| FeegrantSelection.SentIff | services/feegrant/cronjob-update-origin-grant.service.ts:36-60 | something is selected exactly when some record without an origin succeeded |
| FeegrantServices.Youngest | services/feegrant/cronjob-update-origin-grant.service.ts:93-95 | the reduce returns a youngest candidate |
| DelayJobRuns.NeverForgotten | services/crawl-account-info/crawl-account-unbonds.service.ts:80-148 | in every interleaving each stored response has a pending timer at its first completion time, or a queued crawl of its address, or one in flight that will store it anew or register that timer |
| DelayJobRuns.QuietMeansTimers | services/crawl-account-info/crawl-account-redelegates.service.ts:77-149 | with an empty queue and no crawl in flight every stored response has its pending timer |
| DelayJobRuns.CrawlStays | services/crawl-account-info/crawl-account-unbonds.service.ts:103-148 | no step of any crawl drops what it owes before a timer holds it |
| DelayJobRuns.AllTimersAre | services/crawl-account-info/crawl-account-unbonds.service.ts:103-115 | a crawl registers a timer for exactly the first completion times it fetched |
| DelayJobs.NoStarvation | services/crawl-account-info/handle-delay-job.service.ts:40-158 | enough handler runs leave no expired timer and take no other one |
| DelayJobs.EarliestGoFirst | services/crawl-account-info/handle-delay-job.service.ts:53-157 | a run takes only expired timers, the earliest, and leaves an expired one only after taking 1000 |
| DelayJobs.HandlerFeedsCrawler | services/crawl-account-info/handle-delay-job.service.ts:56-149 | a timer asks for an unbonding or redelegation crawl exactly when it is of that type, for its own address |
| DelayJobs.TimerAsksFor | services/crawl-account-info/handle-delay-job.service.ts:56-149 | an expired unbonding asks once each for the balances, the spendable balances and the unbondings of its address, a redelegation for the redelegations, a vesting for the spendable balances |
| DelayJobs.RunAsksFor | services/crawl-account-info/handle-delay-job.service.ts:53-149 | handling timers asks for a crawl as often as there are timers of its address whose type calls for it |
| DelayJobs.TakenIff | services/crawl-account-info/handle-delay-job.service.ts:40-157 | a run takes exactly those of the first 1000 timers that expired more than seven seconds ago |
| DelayJobRefinement.CrawlIsARun | services/crawl-account-info/crawl-account-unbonds.service.ts:43-148 | what a crawl job stores and registers is a run of the protocol, from any state with that crawl queued |
| DelayJobRefinement.HandlingIsAnEvent | services/crawl-account-info/handle-delay-job.service.ts:53-157 | what the handler does with an expired timer is enabled in the protocol and asks for the crawls its type feeds |
| DelayJobs.DelayJobService.FindPendingJobs | services/crawl-account-info/delay-job.service.ts:46-72 | terminates with the first min(n, 1000) timers by expiry |
| DelayJobs.DelayJobService.AddNewJob | services/crawl-account-info/delay-job.service.ts:75-90 | inserts one timer, in order, under a new id |
| DelayJobs.HandleDelayJobService.HandleJob | services/crawl-account-info/handle-delay-job.service.ts:40-158 | removes exactly the expired ones of the first 1000 timers and enqueues exactly their crawls |
| AccountCrawl.CrawlAccountService.HandleJob | services/crawl-account-info/crawl-account-unbonds.service.ts:43-148 | throws before any write on an unknown account or null answer; else stores all pages of every address and adds one timer per response |
| AccountCrawl.JobInsertsWhatIsOwed | services/crawl-account-info/crawl-account-unbonds.service.ts:103-146 | the timers a crawl owes in the protocol are, as often, those the job of that crawl inserts |
| AccountCrawl.EachHasItsTimer | services/crawl-account-info/crawl-account-unbonds.service.ts:103-115 | every fetched response is among the registered timers |
| AccountCrawl.EveryPageCounts | services/crawl-account-info/crawl-account-unbonds.service.ts:77-115 | item j of page i of any crawled address is stored at its place behind the earlier pages and has its timer |
| AccountCrawl.NoOtherTimer | services/crawl-account-info/crawl-account-unbonds.service.ts:103-115 | a crawl registers no more timers than its addresses' pages hold items |
| LcdPages.FetchAll | services/crawl-account-info/crawl-account-unbonds.service.ts:77-98 | the page loop fails on a null answer, and else holds the items of every page, each in its place, and nothing else |
| LcdPages.PageAt | services/crawl-account-info/crawl-account-unbonds.service.ts:77-98 | item j of page i stands behind all items of the earlier pages and the j before it, and the pages' lengths add up to the whole |
| BlockCrawler.EveryRun | services/crawl-block/crawl-block.service.ts:51-149 | the next three rows for every run of a fresh crawler |
| BlockCrawler.NoHeightSkipped | services/crawl-block/crawl-block.service.ts:51-149 | over all runs with crashes, lost cursor writes and null answers, every height after the start up to the cursor has been enqueued, if non-null answers carry the blocks asked for |
| BlockCrawler.CursorMonotone | services/crawl-block/crawl-block.service.ts:71-125 | the cursor never decreases and never passes the largest reported height or the start |
| BlockCrawler.ExactlyOnce | services/crawl-block/crawl-block.service.ts:92-149 | without crashes and with each write landed before the next job, the queue received each height once, in order |
| BlockProgress.RisingProgress | services/crawl-block/crawl-block.service.ts:92-120 | however the reports rise or lag, the jobs of a calm run go as far as possible: a batch each, never past the largest report so far, and one of these bounds is met |
| BlockProgress.Progress | services/crawl-block/crawl-block.service.ts:92-120 | while no node reports a new height, k answered jobs of a calm run bring the cursor to min(latest, start + k N) |
| BlockProgress.JobIsExact | services/crawl-block/crawl-block.service.ts:71-149 | for every report an answered job enqueues exactly the heights from the cursor + 1 to min(cursor + N, largest height reported so far, this report included) and sends the last of them as the new cursor |
| BlockProgress.NullIsExact | services/crawl-block/crawl-block.service.ts:106-118 | when any of those heights gets a null answer nothing is enqueued and no cursor is sent |
| BlockProgress.UpToExactly | services/crawl-block/crawl-block.service.ts:123-149 | without null answers the blocks that come are enqueued up to the first answer without a result |
| BlockProgress.CrashRepeats | services/crawl-block/crawl-block.service.ts:106-125 | an input outside calm runs: a crash between the hand-over and the cursor write enqueues a height twice |
| BlockCrawler.BatchCompleteIff | services/crawl-block/crawl-block.service.ts:106-149 | a job without null answers enqueues exactly its batch if and only if every answer carries the block asked for |
| BlockCrawler.NothingBehindTheCursor | services/crawl-block/crawl-block.service.ts:92-119 | when blocks that come are those asked for, no height at or below the cursor is ever enqueued again |
| BlockCrawler.CrawlBlockService.CrawlBlock | services/crawl-block/crawl-block.service.ts:39-149 | one job on the stored keys and the queue; a null report or null answer enqueues and moves nothing |
| TransferStats.FoldCounts | services/crawl-statistics/crawl-account-stats.service.ts:77-176 | addresses stay distinct and each figure of each address is its old value plus what the messages say, a repeated output address counting one received transaction |
| TransferStats.MessageMeans | services/crawl-statistics/crawl-account-stats.service.ts:79-176 | the updates of one message amount to its meaning for each address, self-sends included |
| TransferStats.SentMinusReceived | services/crawl-statistics/crawl-account-stats.service.ts:79-176 | total sent minus total received is the imbalance of the multi-sends, zero when each is balanced |
| TransferStats.HandleMessage | services/crawl-statistics/crawl-account-stats.service.ts:79-176 | the switch with its finds and pushes makes exactly those updates |
| DayChain.CrawlAccountStatsChain.RunDay | services/crawl-statistics/crawl-account-stats.service.ts:41-197 | the self-rescheduled jobs end, take each transaction of the day once in order, a hundred each, and hand on the day folded page by page, each page up to a message that throws |
| DayChain.OnePass | services/crawl-statistics/crawl-account-stats.service.ts:75-197 | on a day of readable messages that is one fold over the whole day |
| DayChain.DayCounts | services/crawl-statistics/crawl-account-stats.service.ts:75-183 | on any day the amounts are exactly those of the messages read, and a transaction count exceeds theirs by at most one per broken page |
| RawTransfers.PageCounts | services/crawl-statistics/crawl-account-stats.service.ts:77-182 | the same for one page and what it reads before a message throws |
| TransferMeaning.PageMeans | services/crawl-statistics/crawl-account-stats.service.ts:77-182 | for one page, exactly what each figure of each address grows by, read directly off the chain's messages: sender, receiver, first input and coin, and each output before an unreadable one, up to the message that throws, with the one transaction that message still counts |
| TransferMeaning.SendMeans | services/crawl-statistics/crawl-account-stats.service.ts:80-125 | a send counts one transaction and the amount as sent for the sender and as received for the receiver |
| TransferMeaning.MultiSendMeans | services/crawl-statistics/crawl-account-stats.service.ts:126-176 | a multi-send counts its first input and coin as sent and each output as received |
| DayMeaning.DayMeans | services/crawl-statistics/crawl-account-stats.service.ts:41-197 | the same for a day, page after page, on any input |
| DayMeaning.WholeDayMeans | services/crawl-statistics/crawl-account-stats.service.ts:41-197 | on a day of readable messages a figure is the sum of what its messages say |
| DayChain.CrawlDailyTxChain.RunDay | services/crawl-statistics/crawl-daily-tx.service.ts:39-147 | the chain ends with the number of transactions and of distinct addresses of the day |
| DayChain.PageIsNext | services/crawl-statistics/crawl-account-stats.service.ts:50-73 | the page behind a cursor is the next hundred |
| Sequences.UniqueInTwoGoes | services/crawl-statistics/crawl-daily-tx.service.ts:107 | removing duplicates page by page equals removing them once |
| Sequences.UniqueCounts | services/crawl-statistics/crawl-daily-tx.service.ts:145-147 | the filtered length is the number of distinct values |
| SlidingWindows.AccountStatsService.FinishDay | services/crawl-statistics/crawl-account-stats.service.ts:199-608 | reads all accounts page by page, advances every account, new, active or idle, by exactly one day, and writes back windows that summarise its whole history, with their percentages |
| SlidingWindows.Advance | services/crawl-statistics/crawl-account-stats.service.ts:223-325 | the shifted and re-summed windows summarise the history extended by the day |
| SlidingWindows.WindowsInFigures | services/crawl-statistics/crawl-account-stats.service.ts:223-325 | figure by figure, the day, the sums of the last three and of the last seven days, and the list of those seven |
| SlidingWindows.RunDays | services/crawl-statistics/crawl-account-stats.service.ts:199-608 | after any days each stored account's windows are the last 7 and sums of the last 1, 3 and 7 of its daily series with zeros on idle days, and each percentage totals 100 over the accounts |
| StatsPipeline.RunPipeline | services/crawl-statistics/crawl-account-stats.service.ts:41-608 | job chain, fold and windows together, over any days, readable or not: the accounts are the addresses the chain's messages concern and each window summarises what those messages say, day by day |
| StatsPipeline.SeriesAreHistories | services/crawl-statistics/crawl-account-stats.service.ts:77-510 | the series the windows summarise holds, for each day, what each address is credited by that day's messages, read directly off them |
| SlidingWindows.AfterDaysIs | services/crawl-statistics/crawl-account-stats.service.ts:219-510 | the known accounts are those listed so far, each with its own series |
| SlidingWindows.PercentsAreComplete | services/crawl-statistics/crawl-account-stats.service.ts:512-592 | the stored percentages of a figure in a window add up to 100 over all accounts unless its total is zero |
| SlidingWindows.RowReads | services/crawl-statistics/crawl-account-stats.service.ts:512-592 | each percentage times the sum of its figure and window over all accounts is a hundred times the account's own, or NaN for no sum |
| Percentages.VotingPowerTotal | services/crawl-staking/crawl-validator.service.ts:166-174 | the floored voting powers of n validators total at most 10^8 and more than 10^8 - n |
| Percentages.UptimeOfMissed | services/crawl-slashing/crawl-signing-info.service.ts:97-111 | uptime never rises with missed blocks, lies between 0 and 10^8 within the window, and is 10^8 only for none missed |
| Percentages.TurnoutOfParts | services/crawl-proposal/crawl-tally-proposal.service.ts:82-93 | turnout lies between the sum of its four floored parts and that sum plus 3 |
| Percentages.VotingPowerIs | services/crawl-staking/crawl-validator.service.ts:166-174 | voting power is the one number p with bonded p <= tokens 10^8 < bonded (p + 1) |
| Percentages.UptimeIs | services/crawl-slashing/crawl-signing-info.service.ts:97-111 | uptime is the one number between its bounds, rounded toward zero on either side of a whole window missed |
| Percentages.TurnoutIs | services/crawl-proposal/crawl-tally-proposal.service.ts:82-93 | turnout is the one number between its bounds |
| ModuleWatch.HotReload.WatchService | middlewares/HotReloadCHokidar.ts:203-307 | terminates on any graph; the service is added to exactly the watch items of project files reachable from its file, and others to exactly the files on a way there |
| ModuleWatch.HotReload.ProcessModule | middlewares/HotReloadCHokidar.ts:232-307 | the same from any parent path, for walks that avoid it |
| ModuleWatch.VisitsAllReachable | middlewares/HotReloadCHokidar.ts:242-247 | refusing files on the parent path loses no reachable file |
| ModuleWatch.VisitsViaUnfold | middlewares/HotReloadCHokidar.ts:263-306 | which ancestors a file's visits record, one recursion step at a time |
| ModuleWatch.ReachableIsLeast | middlewares/HotReloadCHokidar.ts:232-307 | a set that holds the file and all project children of its members holds every reachable file |
| ModuleWatch.ReachableSteps | middlewares/HotReloadCHokidar.ts:232-307 | a project file is reachable from itself, and project children of reachable files are reachable |
| ModuleWatch.PathOfVia | middlewares/HotReloadCHokidar.ts:263-306 | a file recorded on the way stands before the end of a path through project files that repeats none |
| ModuleWatch.PathMakesVia | middlewares/HotReloadCHokidar.ts:263-306 | every file of such a path but its last is recorded |
| KeysetPaging.FollowVotes | services/api-service/vote.service.ts:99-165 | following nextKey gives the pages of the matching votes, from the highest (height, _id) down or with reverse from the lowest up, each request skipping its offset; every vote once, in order, if and only if there is no offset or no vote |
| KeysetPaging.FollowProposals | services/api-service/proposal.service.ts:79-160 | following nextKey gives the pages of all proposals behind the first request's offset, once, from the largest id down or with reverse from the smallest up |
| KeysetPaging.FollowContracts | services/api-service/smart-contracts.service.ts:82-122 | following the inclusive key gives the pages of all matching contracts, once, from the largest _id down |
| KeysetPaging.GetVotes | services/api-service/vote.service.ts:79-165 | a key without height or id is rejected; else the page and the key of its last vote if there is more |
| KeysetPaging.VotesFall | services/api-service/vote.service.ts:106-134 | by default every vote found for a key has (height, _id) strictly below it, and they fall strictly |
| KeysetPaging.VotesRise | services/api-service/vote.service.ts:106-134 | with reverse they are strictly above it and rise strictly |
| KeysetPaging.VotesBelowKey | services/api-service/vote.service.ts:106-141 | by default a page is cut out of exactly the votes below the key, the highest first |
| KeysetPaging.VotesAboveKey | services/api-service/vote.service.ts:106-141 | with reverse it is cut out of exactly the votes above the key, the lowest first |
| KeysetPaging.ProposalsFall | services/api-service/proposal.service.ts:96-134 | by default the proposals found for a key have smaller ids, which fall |
| KeysetPaging.ProposalsRise | services/api-service/proposal.service.ts:96-134 | with reverse they have larger ids, which rise |
| KeysetPaging.ContractsFall | services/api-service/smart-contracts.service.ts:82-122 | the contracts found for a key are at most it and fall |
| KeysetPaging.PageAt | services/api-service/vote.service.ts:141-157 | request i lists what stands behind i strides and its own offset |
| KeysetPaging.PastIsRest | services/api-service/vote.service.ts:112-134 | the compound exclusive condition leaves exactly what follows the key's document |
| KeysetPaging.PageCount | services/api-service/proposal.service.ts:126-134 | there are ceil(n/limit) pages, one for n = 0 |
| KeysetPaging.PagesIff | services/api-service/vote.service.ts:141-157 | the pages hold everything exactly when nothing is skipped or there is nothing |
| ClaimedRewardsJob.ClaimedRewardsService.HandleJob | services/crawl-account-info/crawl-account-claimed-rewards.service.ts:74-140 | writes nothing when it throws, which is exactly when a credit cannot be read or names an unknown account; else every account holds its stored rewards plus its credits in order, shared objects and repeated writes notwithstanding |
| ClaimedRewardsJob.ClaimedRewardsService.Apply | services/crawl-account-info/crawl-account-claimed-rewards.service.ts:164-326 | one message credits its account in place as its log says |
| ClaimedRewards.JobAddsWithdrawals | services/crawl-account-info/crawl-account-claimed-rewards.service.ts:142-326 | when no other message stands in front of a staking message, each (account, validator) ends with its old reward plus all withdrawals of the batch, one entry each |
| ClaimedRewards.FilterSafeIff | services/crawl-account-info/crawl-account-claimed-rewards.service.ts:84-120 | without a MsgExec the filtered index reads every message's own log, whatever the logs, if and only if no other message stands in front of a staking one |
| ClaimedRewards.ExecAlwaysThrows | services/crawl-account-info/crawl-account-claimed-rewards.service.ts:93-105 | a MsgExec makes the job throw, whatever the logs, because a message is not iterable |
| ClaimedRewards.CreditedAdds | services/crawl-account-info/crawl-account-claimed-rewards.service.ts:180-195 | crediting adds each pair's amounts and keeps one entry per validator |
| ClaimedRewards.MessageCredits | services/crawl-account-info/crawl-account-claimed-rewards.service.ts:165-323 | a delegation, an undelegation and a withdrawal credit the first amount of the event, 0 if it has no digits, to the validator the message names |
| ClaimedRewards.RedelegateReads | services/crawl-account-info/crawl-account-claimed-rewards.service.ts:197-257 | a redelegation credits the first amount to the first validator of the event and, behind two attributes, the third attribute's amount to the fourth's validator; when it throws |
| ClaimedRewards.RedelegateFromTwo | services/crawl-account-info/crawl-account-claimed-rewards.service.ts:197-257 | withdrawals from two validators add each amount to its own validator's reward, also when they are the same |
| ClaimedRewards.JobInTwoParts | services/crawl-account-info/crawl-account-claimed-rewards.service.ts:76-120 | a job of two batches throws as soon as one would and else makes the credits of both |
| ClaimedRewards.FilterShiftsIndex | services/crawl-account-info/crawl-account-claimed-rewards.service.ts:84-120 | with another message in front, the filtered index reads the wrong log and the amount is lost |
| ProposalSync.CrawlProposalService.HandleJob | services/crawl-proposal/crawl-proposal.service.ts:44-153 | a null answer writes nothing; else the collection is the reconciled one, in whatever order the lookups finish |
| ProposalSync.FinishOrder | services/crawl-proposal/crawl-proposal.service.ts:74-134 | that order changes no stored document and only the order of the new ones |
| ProposalSync.ProposersStay | services/crawl-proposal/crawl-proposal.service.ts:95-121 | over any later runs no document goes away, changes its proposal or loses a proposer field it had; once address and deposit are found the fields never change |
| ProposalSync.StoredAfterRun | services/crawl-proposal/crawl-proposal.service.ts:87-148 | a stored proposal takes the chain's status if listed, is marked and otherwise untouched if not, and keeps every proposer field it had found |
| ProposalSync.ListedFields | services/crawl-proposal/crawl-proposal.service.ts:87-121 | each field of a listed stored proposal: status and content of the chain, name, address and deposit as the lookup finds each, asked only while address or deposit is missing |
| ProposalSync.NewAre | services/crawl-proposal/crawl-proposal.service.ts:122-127 | the new documents are exactly those of listed proposals that convert and were not stored, without a proposer |
| ProposalSync.ListedAreStored | services/crawl-proposal/crawl-proposal.service.ts:74-134 | after a run a chain proposal is stored with its chain fields if and only if it was stored before or converts to a document |
| ProposalSync.EveryRun | services/crawl-proposal/crawl-proposal.service.ts:44-153 | after any runs: one document per id, and marked exactly when the last list lacks the proposal |
| ProposalSync.KeepsOneDocEach | services/crawl-proposal/crawl-proposal.service.ts:87-126 | a run keeps at most one document per proposal id |
| SearchQuery.RoundTrip | utils/utils.ts:19-47 | printed items parse back to themselves if and only if no value holds a character the text is split at |
| SearchQuery.FormatSearchQueryInTxSearch | utils/utils.ts:19-47 | the loop parses the elements one by one |
| SearchQuery.ParsePrint | utils/utils.ts:30-43 | one printed item parses back, whatever `=`, `.` and quotes its value holds |
| SearchQuery.ParseText | utils/utils.ts:30-43 | `kind.key='value'` parses to its item, and without the quotes too unless the value begins or ends with one |
| SearchQuery.NameGives | utils/utils.ts:30-36 | an element gives an item exactly when its name has one dot |
| SearchQuery.TwoElements | utils/utils.ts:20-27 | elements are parsed apart at semicolons, and at commas where there is no semicolon |
| QueryMerge.CreateCustomCursor | mixins/customMongooseAdapter/index.js:63-101 | the rewritten query matches a document exactly when the original does and some search field contains the text, or the text index finds it when there are no search fields; however case is folded |
| QueryMerge.PushedOr | mixins/customMongooseAdapter/index.js:75-81 | moving `$or` under `$and` keeps the meaning, with or without an existing `$and` |
| QueryMerge.TwoAlternatives | mixins/customMongooseAdapter/index.js:63-81 | a searched query of two alternatives matches a document exactly when one alternative and the search hold of it |
| QueryMerge.OccursIff | mixins/customMongooseAdapter/index.js:65-70 | a search text occurs in a field that holds it between any two others |

## Left out

- The transaction handler that builds the chain-action list, and the decoding of messages and events: foreign formats.
- Bech32, base64, sha256, JSON conversion, date parsing: addresses and decoded keys are opaque values.
- `uniqBy` on the joined pair: addresses hold no comma, so a set of pairs says the same.
- Failing database calls, retries, logging, emitted events, cache and metrics.
- Crawls that throw in the delay-job protocol: their stored responses may then rest on no timer.
- Endpoints whose sort key differs from their cursor key, and blocks in reverse order: following the key does not enumerate them.
- What the database makes of a percentage that is NaN, and floating-point rounding: percentages are rationals here.
- Total counts, vote tallies, sorting by text score: no property.
- The hot-reload traversal without a service, file watchers and debouncing.
- CW20, CW721 and CW4973 indexing, media and contract metadata.
