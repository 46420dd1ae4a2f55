# Canary: mining protocol, miner history and dashboard state

A Dafny model of the stateful parts of the Canary solo-mining pool, with proofs
of what they keep over every run. Four areas are covered.

**The SV2 test miner** (`src/test_miner.rs`). `NonceSearch` is the strided search
of the worker threads over wrapping 32-bit nonces and times; `MinerState` is the
bookkeeping of jobs, prev-hash and target behind the messages of section 5 of the
Stratum V2 specification; `MiningProtocol` is the whole protocol as a state
machine. Its steps are the accesses of worker threads to shared state, the share
channel and the select loop of the driver, and a run is any interleaving of them.
`MiningDriver` reads a run off its steps: which frames it can handle, the works it
starts, when it returns and why each cancel flag is set. `MiningStops` decides when
a share can follow a stop, and `WorkerThreads` shows that each thread of a run does
what the loop of `mine_worker` does.

**The miner history** (`src/history.rs`). `MinerHistory` has the table of known
miners as a map of rows, each SQL statement as an update of rows, and the writer's
session map. `HistoryInvariants` proves what every sequence of restarts, events and
deletes keeps; `HistoryLog` and `HistoryTimes` which operation of the past each
field of a row comes from.

**The dashboard** (`src/ui.rs`). `SeenMiners` merges monitoring samples into the
map of miners seen so far. `MinerWorkers` and `WorkerBuild` join that listing with
pool statistics and known miners into workers; `WorkerSources`, `WorkerTotals` and
`WorkerConsistency` prove that every worker shows exactly the records it is built
from, that nothing is lost and that its figures fit together. Four modules decide
where hash-map order can show: `WorkerSessions` compares the workers of two builds,
`WorkerQuotes` the session each takes its times from, `WorkerNames` says which
identities share a worker and who names it, and
`WorkerForced` has the exact condition for one order of workers. `WorkerOrder`
draws the consequences for identities, and `WorkerTies` has the inputs on which
hash-map order does show. `RecentBlocks` and `RecentBlocksConcurrent` are the
cache of recent blocks, for requests one after another and for requests that
interleave. `Difficulty` is the difficulty adjustment forecast.

**Identities** (`src/miner_identity.rs`). `MinerIdentity` parses the two ways of
writing a payout address and a label, and builds the ids that key the history and
the dashboard. `Text` has the string operations this relies on; `Sums`, `RealSums`,
`Collecting` and `Sorting` have generic facts about sums, permutations and stable
sorting.

Code that updates state is a class or a method with loops, proved equal to a
function on values; the theorems are about those functions. Lemmas to which
Dafny would apply automatic induction switch it off, so their proofs are the ones
written out. Foreign code is a function-valued parameter and therefore arbitrary:
whether a header's hash meets a target (`Meets`), address decoding (`Decoder`),
block fetches and block times. Of address decoding it is assumed, where a lemma says `Canonical`, that its results
are nonempty ASCII alphanumerics that decode to themselves. Clocks, and what a
thread's reads of the cancel flag return, are inputs.

Some properties one might expect are false of the code. They are stated exactly:

- A share can still be sent after `stop_workers` has set the cancel flag, by a
  worker that won the swap before. `ShareAfterStopHappens` is such a run.
  `ShareAfterStopIff` decides it before the stop: exactly when the flag is already
  set and no share of that work has arrived. A stop that finds the flag clear
  rules out any later share.
- A connected row need not have a live channel, nor a live channel a connected
  row. `ConnectedStaysLiveIff` and `LiveStaysConnectedIff` give the operations
  that break each, `ReusedKeyOrphans` and `OverlapDisconnectsLive` runs with them.
  Each holds throughout a run exactly when the run has no such operation
  (`ConnectedAlwaysLiveIff`, `LiveAlwaysConnectedIff`).
- An answer of the block cache that is recorded as complete need not be the whole
  window when a tip is lower than an earlier one: `LowerTipSkipsABlock` is such a
  run and `CompleteIsWindowIff` the condition. For requests one after another with
  nondecreasing tips it is the whole window (`AnswersMatchTheChain`). When requests
  interleave it need not be, and the same condition decides it, asked of the cache
  that the request loaded (`RecordedIsWindowIff`).
- For the tip `u64::MAX` the block fetch loop ends only if a fetch fails, and the
  next adjustment height is not above tips in the last, incomplete period.
  `FetchLoopEndsIff` and `NextIsLeastMultipleAbove` give the exact ranges.
- The order of workers can depend on hash-map order. `OrderIsForcedIff` is the
  exact condition for every input: of any two workers one comes first under every
  name that either can get. On the identity texts it comes to two questions. Some
  text that does not parse may be the miner id of one that does, and then whichever
  is visited first names their worker: `CollidingNamesChangeOrder` is such a run.
  If there is none, `OrderIsForcedIffNoTwins` says that the order is fixed exactly
  when no two different texts that do not parse have workers of equal activity,
  connection and age; `UnparsedOrderIsNotForced` is a run with two.
- A worker's opening and closing times can depend on hash-map order too, when
  sessions of one client and channel id tie in uptime: `TiedSessionsQuoteEither` is
  such a run, and without such ties `WorkersAgree` includes the times.

## Model

| member | source | states |
|---|---|---|
| NonceSearch.StrideClosedForm | src/test_miner.rs:537-561 | iteration k of worker i tests nonce (i+kn) mod 2^32 at ntime base + (i+kn) div 2^32 mod 2^32, for any worker count |
| NonceSearch.EveryPairTestedExactlyOnce | src/test_miner.rs:537-561 | each of the 2^64 pairs is tested by exactly one worker at exactly one iteration among the first 2^64 candidates |
| NonceSearch.SearchWrapsAround | src/test_miner.rs:556-560 | a worker holds the same pair at two iterations iff their positions i + kn differ by a multiple of 2^64 |
| NonceSearch.MineWorker | src/test_miner.rs:522-576 | a worker stops at the first set flag or the first pair whose header, with the fields of the work, meets the target, and sends a share with that pair and the ids of the work iff the swap saw the flag unset |
| NonceSearch.MinedToIsUnique | src/test_miner.rs:540-555 | what its reads of the flag return determines how many pairs a worker misses and whether it hits |
| MinerState.Miner.constructor | src/test_miner.rs:137-148 | a new miner has no channel, target, job or prev-hash and sequence number 0 |
| MinerState.Miner.NextSequenceNumber | src/test_miner.rs:150-153 | the sequence number advances by one with 32-bit wrap-around and nothing else changes |
| MinerState.Miner.CurrentWork | src/test_miner.rs:191-229 | the scan of stored jobs answers the work of the first job named by the prev-hash, no work when something is missing, an error for wrong lengths |
| MinerState.Miner.RetainOthers | src/test_miner.rs:167-172 | exactly the jobs of other ids stay, in order |
| MinerState.Miner.UpdateJob | src/test_miner.rs:164-175 | a job replaces the one of its id; a future job starts nothing |
| MinerState.Miner.UpdatePrevHash | src/test_miner.rs:177-183 | the prev-hash is stored and the active work answered |
| MinerState.Miner.UpdatePoolTarget | src/test_miner.rs:185-189 | a 32-byte target is stored, any other length is an error that leaves the target alone |
| MinerState.Miner.HandleFrame | src/test_miner.rs:383-457 | each message changes the state and tells the driver exactly what the message function says |
| MinerState.OthersKeepsTheRest | src/test_miner.rs:171 | retain drops exactly the jobs of one id and keeps ids distinct |
| MinerState.FindAfterStore | src/test_miner.rs:171-172 | a stored job is the one found under its id; other ids are unaffected |
| MinerState.LatestIsTheLast | src/test_miner.rs:392-455 | the latest value of a kind is the one carried by the last message that has one |
| MinerState.StateIsLatest | src/test_miner.rs:164-229 | channel, target, prev-hash and the job of each id are those of the latest message carrying them |
| MinerState.StoredJobsAreDistinct | src/test_miner.rs:164-175 | over every message sequence stored job ids are pairwise distinct |
| MinerState.EmittedWorkIsLatest | src/test_miner.rs:164-229 | work is emitted iff a starting message arrives and channel, target, prev-hash and its job are present with 32-byte hashes; each of its fields is that of the latest such message, its time the later of clock and minimum, its target the compact one in block-only mode and the last 32-byte pool target otherwise |
| MinerState.JudgedByLatest | src/test_miner.rs:541-576 | a pair meets the target of an emitted work iff the header of the latest job and prev-hash with that pair meets the target the latest messages demand |
| MiningProtocol.StepKeeps | src/test_miner.rs:253-316 | every atomic step of driver or worker keeps the protocol invariant |
| MiningProtocol.RunKeeps | src/test_miner.rs:253-316 | every interleaving keeps it |
| MiningProtocol.SwapWinsIffFirst | src/test_miner.rs:544 | a swap wins iff it finds the flag clear, and then no other worker of the group has won and no share of it is on its way |
| MiningProtocol.AtMostOneSharePerWork | src/test_miner.rs:484-563 | in every run each spawned work sends at most one share |
| MiningStops.ShareAfterStopIff | src/test_miner.rs:516-556 | for every run and every step that stops the held group, a share of it can still come iff the flag was already set before the stop and no share of the group has arrived or been submitted |
| WorkerThreads.FullSearchFindsEverything | src/test_miner.rs:484-576 | in every run, once each worker of a group has missed its whole share of the 2^64 pairs, no nonce and time at all make the header that the latest messages demanded meet the target they demanded |
| WorkerThreads.WorkersRunTheMethod | src/test_miner.rs:530-563 | in every run each worker thread has missed, hit and holds what the worker loop does on the same reads of the flag |
| MiningProtocol.ShareAfterStopHappens | src/test_miner.rs:262-264 | a concrete run in which a share is sent after the stop |
| MiningProtocol.SubmissionsAreSafe | src/test_miner.rs:268-316 | over every run submissions do not exceed emitted works and come from different ones, are numbered 1, 2, 3, ... mod 2^32, and each names the latest channel and job of some prefix of the frames, its header meets the target that prefix demands, and no earlier pair of some worker does |
| MiningProtocol.OneLiveGroupAndExactReturn | src/test_miner.rs:284-313 | at most the newest group is uncancelled, and a returning run has counted exactly max(1, stop_after_accepted_blocks) acceptances |
| MiningDriver.WorksAndReturnFollowFrames | src/test_miner.rs:272-313 | in every run the works spawned or about to be are those the frames made the driver emit, in order, and it returns iff the pool announced max(1, stop_after_accepted_blocks) acceptances |
| MiningDriver.FlagIsSetIff | src/test_miner.rs:257-313 | in every run the cancel flag of a group is set iff one of its workers swapped it, newer work was emitted, the driver returned or it was interrupted |
| MiningDriver.NothingRunsOn | src/test_miner.rs:257-313 | a driver that has returned or was interrupted leaves no group uncancelled |
| MiningDriver.GroupsHaveAllWorkers | src/test_miner.rs:489-503 | in every run each group has one worker for each core, and at least one |
| MiningDriver.FramesOfRunsIff | src/test_miner.rs:253-316 | some run handles exactly a given sequence of frames iff none of them comes after one that ends the driver |
| MiningDriver.AnythingCanHappen | src/test_miner.rs:253-316 | after every run, a driver that has not ended can go on, be interrupted, cut off or given any frame, with any submission succeeding or failing, and every worker that has not exited can move, with or without a stale read |
| MiningDriver.MinesAndReturns | src/test_miner.rs:253-563 | a concrete run in which a share is found, submitted and accepted and the driver returns |
| Text.TrimDropsSpace | src/miner_identity.rs:27 | trimming removes white space from both ends, all of it there and nothing else |
| Text.JoinOfSplit | src/miner_identity.rs:33-35 | splitting at a separator and joining with it gives the text back |
| Text.SplitAfter | src/miner_identity.rs:33-34 | the part before the first separator splits off |
| Text.StringLeqIff | src/ui.rs:1147-1148 | one string comes before another iff it is a prefix or has the smaller character at the first difference |
| MinerIdentity.FormsAgree | src/miner_identity.rs:32-59 | for every canonical address and label text, address.label and sri/solo/address/label parse to the same payout and label |
| MinerIdentity.AcceptedIff | src/miner_identity.rs:23-60 | a text of one of the four forms is accepted iff its trimmed address decodes, in whatever spelling, with the decoded payout and the trimmed label or the default; exactly the other texts behind sri/ have no form, and each failure has its error |
| MinerIdentity.ParsedIsCanonical | src/miner_identity.rs:46-58 | an accepted payout is canonical and the label is trimmed, nonempty and a fixed point |
| MinerIdentity.PrintedIdentityReparses | src/miner_identity.rs:23-60 | printing any parsed identity in either form and parsing it gives the same payout and label |
| MinerIdentity.NetworkNamesRoundTrip | src/app_config.rs:122-145 | networks are read back exactly from the names they are printed as |
| MinerIdentity.MinerIdIsInjective | src/history.rs:137-139 | equal ids imply equal network, payout and trimmed label, even for labels with colons |
| MinerIdentity.SameIdIffSameMiner | src/history.rs:131-139 | two parsed identity texts share an id iff payout and label agree |
| MinerHistory.RowsAreIndependent | src/history.rs:188-395 | every operation acts on each row alone, from its own past and the routing |
| MinerHistory.History.constructor | src/history.rs:45-61 | a new history is the empty run |
| MinerHistory.History.Reopen | src/history.rs:45-61 | opening the database disconnects every row and starts with no sessions |
| MinerHistory.History.UpsertOpenMiner | src/history.rs:313-352 | an open inserts or resets the row and keeps only the first-seen time |
| MinerHistory.History.CloseMiner | src/history.rs:354-369 | the row is disconnected with closing time, last-seen time and uptime set |
| MinerHistory.History.ExtractDownstream | src/history.rs:243-246 | the channels of a downstream leave the session map, and their miners are collected |
| MinerHistory.History.CloseMiners | src/history.rs:247-249 | one statement per collected miner closes exactly those rows |
| MinerHistory.History.ApplyEvent | src/history.rs:188-311 | each event changes sessions and table as the event function says, including unparsable identities, unknown channels and counts beyond i64 |
| MinerHistory.History.DeleteOfflineMiner | src/history.rs:389-395 | a delete removes exactly a disconnected row and reports whether it did |
| MinerHistory.DownstreamCloseIsAnyOrder | src/history.rs:239-251 | closing a downstream equals closing its channels one by one in any order, even repeatedly |
| MinerHistory.RacingDeletesSerialize | src/history.rs:239-251 | deletes interleaved with the closing statements act as deletes before or after an undisturbed close |
| MinerHistory.PhasesCover | src/history.rs:239-251 | those deletes and closes are exactly the interleaved ones |
| MinerHistory.RacingDeletesAreARun | src/history.rs:239-251 | after any history, a close with deletes interleaved ends as the run with some of the deletes, then the close as one event, then the other deletes |
| HistoryInvariants.ReachableRowsOk | src/history.rs:170-369 | every reachable row is keyed by the canonical id of its payout and label, is connected iff it has no closing time, has no hashrate when disconnected and an uptime of max(closed - opened, 0) |
| HistoryInvariants.ReachableTimesOk | src/history.rs:313-369 | with nondecreasing event times, first seen <= opened <= closed (when set) <= last seen |
| HistoryInvariants.ConnectedStaysLiveIff | src/history.rs:195-225 | a step keeps connected rows backed by a live channel iff it does not reopen the only channel key of a connected miner for another one |
| HistoryInvariants.LiveStaysConnectedIff | src/history.rs:226-251 | a step keeps live channels backed by a connected row iff it does not close one of several channels of a miner |
| HistoryInvariants.ConnectedAlwaysLiveIff | src/history.rs:188-311 | at every moment of a run connected rows have live channels iff no operation of it orphans a connected miner |
| HistoryInvariants.LiveAlwaysConnectedIff | src/history.rs:188-311 | at every moment of a run live channels have connected rows iff no operation of it strands a live channel |
| HistoryInvariants.OverlapDisconnectsLive | src/history.rs:226-238 | a miner that opens two channels and closes one is disconnected in the table while the other is live |
| HistoryInvariants.ReusedKeyOrphans | src/history.rs:207-214 | a channel key opened again for another miner leaves the first connected without a live channel |
| HistoryInvariants.ConnectedRowsAreLive | src/history.rs:188-311 | with fresh channel keys, over every run a connected row has a live channel |
| HistoryInvariants.LiveChannelsAreConnected | src/history.rs:188-311 | with channels that never overlap, over every run a live channel has a connected row |
| HistoryInvariants.ConnectedIffLive | src/history.rs:188-395 | with both, connected iff live, and a miner with an open channel cannot be deleted |
| HistoryLog.SessionsFollowLog | src/history.rs:188-251 | a channel is routed to a miner iff its last open was for that miner and nothing ended it since |
| HistoryLog.ConnectedFollowsLog | src/history.rs:188-395 | a row is connected iff, of the opens, routed closes and restarts in the log that concern its miner, the last is an open |
| HistoryLog.TableFollowsLog | src/history.rs:188-395 | by the log of operations alone: a row exists iff some open was not undone by a delete while the miner was offline; its counters are those of the last report routed to it since its last open (zero without one), and it was first seen at its earliest open since its last removal |
| HistoryTimes.TimesFollowLog | src/history.rs:170-369 | by the log of operations alone: identity text and opening time are those of the last open; without a close or restart since, the row has no closing time, no uptime and the hashrate of that open; after a routed close it has the closing time of the last one, the uptime up to it and no hashrate; after a restart alone it was closed when last seen, without uptime; and it was last seen at the last open, routed close or routed report |
| RecentBlocks.FetchRecentBlocks | src/ui.rs:1716-1753 | whenever its loop ends, it returns the cached part of the window extended up to the tip or the first failed fetch, sorted and cut to the window, and makes the stated number of fetches |
| RecentBlocks.BlockCache.constructor | src/ui.rs:123-127 | the cache starts empty |
| RecentBlocks.BlockCache.Request | src/ui.rs:1676-1707 | an undisturbed request returns, records and fetches what the response function says |
| RecentBlocks.WindowSize | src/ui.rs:1755-1758 | the window has min(6, tip + 1) heights iff the tip is below u64::MAX |
| RecentBlocks.FetchLoopEndsIff | src/ui.rs:1739-1748 | the loop comes to a height above the tip or to a failed fetch iff the tip is below u64::MAX or some fetch from its start on fails |
| RecentBlocks.CompleteEndsAtTip | src/ui.rs:1709-1714 | blocks of a window are complete iff the last one is the tip |
| RecentBlocks.FetchedIsTidy | src/ui.rs:1724-1752 | whatever is cached and fetched, the blocks found ascend by height and lie in the window |
| RecentBlocks.RequestTracks | src/ui.rs:1676-1753 | one request keeps the cache a stretch of the chain and answers from the chain |
| RecentBlocks.AnswersMatchTheChain | src/ui.rs:1676-1753 | for nondecreasing tips on one chain, an answer is recorded as complete iff it is the whole window read from scratch, and otherwise it is the window up to the first failed height or what was cached before |
| RecentBlocks.ServeStaysShort | src/ui.rs:1676-1753 | after any requests the cache holds at most six consecutive blocks |
| RecentBlocks.AtMostSixFetches | src/ui.rs:1735-1748 | whatever was requested before, a request makes at most six fetches |
| RecentBlocks.CompleteIsWindowIff | src/ui.rs:1676-1753 | after requests for any tips on one chain, an answer newly recorded as complete is the whole window iff the cache had the window's first block or none of its blocks |
| RecentBlocks.NoTipRepeatsLastAnswer | src/ui.rs:1680-1691 | after any requests, one without a tip fetches nothing, leaves the cache alone and is answered what the last request with a tip was, or nothing if there was none |
| RecentBlocks.LowerTipSkipsABlock | src/ui.rs:1724-1738 | a request for tip 11 that fails at height 7 and then one for tip 10 record five blocks as complete although the window has six |
| RecentBlocksConcurrent.StepKeeps | src/ui.rs:1676-1753 | every lock section or fetch of any request keeps the invariant |
| RecentBlocksConcurrent.CacheIsAlwaysShort | src/ui.rs:1676-1753 | under every interleaving the cache and all answers hold at most six consecutive blocks, and a recorded tip is the height of the last one |
| RecentBlocksConcurrent.CacheIsAlwaysAStretch | src/ui.rs:1676-1753 | under every interleaving of requests on one chain the cache and all answers are stretches of that chain |
| RecentBlocksConcurrent.RecordedIsWindowIff | src/ui.rs:1676-1753 | under every interleaving of requests on one chain, what a request records as complete is the whole window iff the cache it loaded had the window's first block or none of its blocks |
| RecentBlocksConcurrent.AnythingCanHappen | src/ui.rs:1676-1753 | after every run requests for any tip below u64::MAX or none may arrive, and each request without an answer can go on, whether its fetch brings a block or fails |
| RecentBlocksConcurrent.NothingFetchedAnswersOld | src/ui.rs:1680-1699 | under every interleaving, a request whose fetch finds no block leaves the cache alone and is answered what the cache held when it first looked |
| RecentBlocksConcurrent.AloneIsSequential | src/ui.rs:1676-1707 | a request that no other interrupts, with a tip or without, cached or not, behaves as the sequential one |
| SeenMiners.Dashboard.constructor | src/ui.rs:400 | the map of seen miners starts empty |
| SeenMiners.Dashboard.DimAll | src/ui.rs:929-932 | every remembered row becomes disconnected without hashrate |
| SeenMiners.Dashboard.Merge | src/ui.rs:923-938 | an available sample dims all rows and inserts its own with the current time, an unavailable one changes nothing |
| SeenMiners.Dashboard.FetchConnected | src/ui.rs:913-949 | the listing holds every remembered row once, in sorted order |
| SeenMiners.RunRemembers | src/ui.rs:923-938 | over every run exactly the ids of some sample are remembered, each with its row in the last sample that had it |
| SeenMiners.ConnectedIffInLatestSample | src/ui.rs:923-938 | a miner is connected iff the latest available sample has it |
| SeenMiners.LastSeenIsLastMention | src/ui.rs:923-938 | its last-seen time is that of the last sample with it, its figures those of its last channel there, and its hashrate zero once a later sample was available |
| SeenMiners.SeenShowsReport | src/ui.rs:994-1054 | each field that is remembered of a miner is that of the report its last row was built from, with connection and hashrate only until a later sample |
| SeenMiners.NoMinerIsForgotten | src/ui.rs:923-938 | later samples never remove an id |
| SeenMiners.ListingIsRanked | src/ui.rs:940-949 | the listing has connected miners first, then ascends by label and by address |
| SeenMiners.ListingIsDeterministic | src/ui.rs:940-949 | when all identities parse, the sorted listing does not depend on hash-map order |
| SeenMiners.EverySeenMinerHasAWorker | src/ui.rs:663-665 | every miner in any sample so far has a worker of the same id |
| SeenMiners.StatusIsDeterministic | src/ui.rs:653-677 | when all identities parse, no hash-map order shows from samples to workers: not in their order, names, sessions and figures, nor, without sessions that sort alike and tie, in their opening, closing and last-seen times |
| MinerWorkers.FinalizedSummarises | src/ui.rs:1190-1263 | a worker keeps exactly its sessions in display order, sums their shares, is connected iff one is, and takes uptime and last-seen from the longest-lived and latest displayed session |
| MinerWorkers.FinalizedMeasures | src/ui.rs:1200-1210 | hashrate is that of the connected sessions and best difficulty the largest, whatever their order |
| MinerWorkers.WorkerPercentIsBetweenSessions | src/ui.rs:1190-1221 | a worker's rejection percentage lies between the smallest and largest of its sessions with shares, and is zero without shares |
| WorkerBuild.CollectStats | src/ui.rs:1091-1103 | statistics are kept by channel, the last of each |
| WorkerBuild.PushRows | src/ui.rs:1105-1117 | each row consumes the statistic of its channel and joins the worker its identity names |
| WorkerBuild.PushStats | src/ui.rs:1119-1122 | statistics left over are visited once each, in some order |
| WorkerBuild.PushKnown | src/ui.rs:1124-1130 | known miners join if no worker has their id when their turn comes |
| WorkerBuild.FinalizeAll | src/ui.rs:1132-1135 | each worker is finalized once |
| WorkerBuild.BuildMinerWorkers | src/ui.rs:1084-1150 | the result is a sorted arrangement of the finalized workers of all pushes, for some order of the hash maps |
| WorkerTotals.RejectedIsConserved | src/ui.rs:1084-1150 | with distinct channels, rejected shares over all workers are those of all statistics and admitted known miners |
| WorkerTotals.AcceptedAndSessionsAreConserved | src/ui.rs:1084-1150 | accepted shares and session counts are those of rows, unmatched statistics and admitted known miners |
| WorkerTotals.LeftoverKeys | src/ui.rs:1112-1119 | a statistic is left over iff no row has its channel |
| WorkerSources.WorkerShowsItsSources | src/ui.rs:1084-1371 | each worker is named by the first of the rows, unmatched statistics and admitted known miners with its id, each of its sessions shows one of them with its channel, times, hashrate, shares and difficulty, each is shown once, and counts, sums, connection and best difficulty are those of the records |
| WorkerSources.HashrateIsConserved | src/ui.rs:1084-1350 | with distinct channels, the hashrate of all workers is that of connected rows, open unmatched statistics and connected admitted known miners |
| WorkerSessions.GroupedSessions | src/ui.rs:1152-1188 | the sessions of a worker are exactly those whose identity names it, each as often, in the order pushed |
| WorkerSessions.SamePushes | src/ui.rs:1119-1130 | two visiting orders push the same sessions, each as often, and admit the same known miners |
| WorkerQuotes.QuotedSessions | src/ui.rs:1191-1250 | opening and closing times are those of the displayed session up longest, the last in display order among equals; the last-seen time is that of the one seen last, the first among equals |
| WorkerSessions.WorkersAgree | src/ui.rs:1084-1150 | for every hash-map order the same worker ids come out, each with the same sessions, totals, hashrate, best difficulty, percentage, uptime and age, and without sessions that sort alike and tie with the same opening, closing and last-seen times, even if identities do not parse |
| WorkerTies.TiedSessionsQuoteEither | src/ui.rs:1225-1240 | two closed channels with equal client and channel id, different kind and equal uptime give a worker that shows the times of either, by visiting order |
| WorkerNames.SameWorkerIff | src/ui.rs:1056-1069 | two identity texts share a worker iff both parse with equal payout and label, or one does not parse, is not blank and is the miner id of the other, or neither parses and they are equal or both stand for the blank id |
| WorkerNames.GroupedName | src/ui.rs:1152-1162 | a worker has the label and address of the first push of its id |
| WorkerNames.NamesClearIff | src/ui.rs:1056-1069 | texts that share a worker name it alike iff none that does not parse is the miner id of one that does |
| WorkerForced.OrderIsForcedIff | src/ui.rs:1084-1150 | for every input, all orders of both hash maps give the same order of worker ids iff of any two workers one comes first under every name that either can get |
| WorkerOrder.WorkersAreRanked | src/ui.rs:1136-1149 | a result has active workers first, then connected ones, then those seen more recently with unknown last, then ascends by label and by address |
| WorkerOrder.SessionsAreRanked | src/ui.rs:1191-1197 | a worker's sessions have connected ones first, then ascend by client and channel |
| WorkerOrder.OrderIsForcedIffNoTies | src/ui.rs:1119-1149 | when texts that share a worker name it alike, all hash-map orders give the same order of ids iff no two workers of one result tie |
| WorkerOrder.OrderIsForcedIffNoTwins | src/ui.rs:1119-1149 | when no unparsed text is the miner id of a parsed one, all hash-map orders give the same order of ids iff no two different unparsed texts have workers of equal activity, connection and age |
| WorkerOrder.OrderIsDeterministic | src/ui.rs:1119-1149 | when all identities parse, the same workers with the same names, sessions and figures come out in the same order for every hash-map order |
| WorkerTies.UnparsedOrderIsNotForced | src/ui.rs:1056-1069 | for any two different identities that do not parse, one input with two channels has two results that list their workers in opposite order |
| WorkerTies.CollidingNamesChangeOrder | src/ui.rs:1056-1069 | three channels, one with the miner id of another as its text, have two results without ties that list the workers in opposite order |
| WorkerTies.CollidingTexts | src/ui.rs:1056-1069 | such texts exist for every canonical address whose miner id does not itself parse |
| WorkerOrder.ReachableKnownAreCanonical | src/history.rs:313-352 | every row of a reachable table names the worker of its own id |
| WorkerOrder.AdmittedIff | src/ui.rs:1124-1130 | with canonical distinct ids, a known miner is admitted iff no worker has its id |
| WorkerConsistency.AllPushesOk | src/ui.rs:1265-1371 | sessions of all three sources have fitting uptime, age, hashrate and percentage |
| WorkerConsistency.WorkersAreConsistent | src/ui.rs:1190-1263 | every returned worker's uptime is closing time or now minus opening time, its age fits its last-seen time, it is active iff connected or seen within 120 seconds, and its hashrate is that of all its sessions |
| WorkerConsistency.ReachableKnownOk | src/history.rs:313-369 | rows of a reachable table meet what the previous two ask of known miners |
| Difficulty.NextIsLeastMultipleAbove | src/ui.rs:1631-1636 | the next adjustment height is the least multiple of 2016 above the tip iff the tip is below the last period start that fits u64 |
| Difficulty.RemainingAndMined | src/ui.rs:1587-1590 | blocks remaining lie in 1..2016 and sum with those mined to 2017, or are zero in the last period |
| Difficulty.ChangeIsBounded | src/ui.rs:1610-1622 | a projection exists iff a block and a second have passed in the period, and lies within -75% to +300% |
| Difficulty.ChangeNeverRises | src/ui.rs:1597-1618 | at a fixed tip it never rises as time passes |
| Difficulty.ChangeHasSignOfPace | src/ui.rs:1598-1618 | it is positive iff blocks come faster than 600 seconds on average, negative iff slower |
| Difficulty.ChangeFollowsRetargetRule | src/ui.rs:1597-1618 | it is the retarget rule applied to the period length that the estimated remaining time implies |
| Difficulty.PeriodStartCache.constructor | src/ui.rs:129-132 | the cache of the period start begins empty |
| Difficulty.PeriodStartCache.Fetch | src/ui.rs:1527-1629 | an answer is the calculation from the chain, cached or not, with the next height, the share of the period mined, and the time left at the pace so far or at 600 seconds without one; it is missing iff nothing is cached and the node fails |

## Left out

- Sockets, the Noise handshake, frame encoding, `SetupConnection` and log output: input and output. A closed connection or an unparsable frame is one `Disconnect` step, a timeout or Ctrl-C one `Interrupt` step.
- SHA-256d, compact-target conversion and the comparison with a target: a target stays the term that built it, and `Meets` is arbitrary. The cast of the version to a signed word keeps its bits and is not modelled.
- Memory ordering of the cancel flag: a load may return a stale false but never a true that was not stored; a swap sees the current value. Panics of worker threads are not modelled.
- SQLite, threads and schema creation: each statement succeeds atomically and times fit a signed 64-bit integer. What `delete_miner` reports while it races with other statements is not stated, only the table it leaves.
- NonceSearch.MineWorker: follows a worker for as many reads of the flag as the caller gives, because the loop has no bound of its own.
- RecentBlocks.FetchRecentBlocks: asks that its loop ends, which for tips below u64::MAX it always does (`FetchLoopEndsIff`). Within one request a fetch of the same height has the same outcome; only the tip u64::MAX is ever fetched twice.
- RecentBlocks.AnswersMatchTheChain: is about nondecreasing tips, one request after another; for other tips `CompleteIsWindowIff` and for interleaved requests `CacheIsAlwaysAStretch` are what holds. A fetched block is assumed to have the height asked for, and chain reorganisations are not modelled.
- Workers and sessions are values: `finalize_worker` updates a worker in place, which no other code can observe. Session ids are kept structured instead of formatted.
- WorkerOrder.OrderIsDeterministic: leaves out which identity text a worker shows, because it is that of the first record (`WorkerShowsItsSources`) and two ways of writing one identity can swap; sessions are in the same order and times the same unless sessions sort alike and tie, because then they can differ (`TiedSessionsQuoteEither`).
- Floating point: rates, percentages and difficulties are exact reals, and the rounding of estimated seconds is not modelled. Share totals are unbounded, so overflow of 64-bit sums is not modelled.
- `common_pool_diff`, `target_hex_to_difficulty`, and the fields they fill: floating-point tolerance with little structure.
- HTTP routes, JSON decoding, CoinGecko, monitoring requests, logos, pool-tag matching and block templates: plumbing around the state modelled here. Rows of a sample are taken as already decoded.
- `query_miners` and its ordering: known miners are a sequence in arbitrary order, which covers it.
- Configuration, key files, RPC client, vendored crates and the web front end: not part of this model.
