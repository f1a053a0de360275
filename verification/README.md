# A verified model of the broadcast pool

The program holds signed Bitcoin transactions back, releases them later, and meanwhile shows wallets a
modified view of the chain. This project models that behaviour in Dafny and proves what every run keeps.
`dafny verify dfyconfig.toml` checks all of it.

| files | what they model |
|---|---|
| `Rows`, `Pool`, `PoolManager` | a row of the pool table with its integrity MAC; the state of the pool and every loop body and user call on it, once as a function and once as methods of a class that are proved equal to the functions |
| `ChainClock`, `ChainSource` | median time past over block headers, the 30 s cache, the choice between indexer and Bitcoin Core, the lock predicate |
| `BatchFacts`, `TickOutcome`, `RowOutcomes`, `CallOutcomes`, `DaemonSteps` | what one scheduler tick does, row by row, and what goes out while the backend in use answers; what each call and pass makes of a row, in its columns before and after |
| `PoolRuns`, `LockSafety`, `ScheduleSafety`, `EmissionSafety` | whole runs: any interleaving of daemons, user calls, restarts and writes behind the program's back |
| `TamperTrail`, `SealTrail`, `FalseAlarms` | what the MAC of a row says at the end of such a run: which writes are still seen, which are sealed over, and when the pool alarms at its own writes |
| `VirtualMempool`, `PendingIndex`, `SentAndPending` | the wallet's status text; the map of held transactions with its notifications, coins and balances; scripthash extraction in one pass and in two; how what a tick sends leaves that map |
| `LineFraming`, `VirtualHeaders`, `ElectrumSession`, `HeaderIsolation` | the byte buffer of a session, the fabricated headers, the header answers of any number of sessions with the background refreshes they start, and whether the Liana setting shows to anyone else |
| `ArchiveKey`, `FieldCrypto`, `LegacyRows`, `Retention` | the archive key and its expiry, encryption of old rows, moving old rows to the archive |
| `VirtualBlock`, `VirtualBlockInPool`, `Arrivals` | arming, capturing and disarming the Liana virtual block; how the lock checks of a tick act on it; when an arriving transaction goes out, for each branch of its plan |

One step of a run is one loop body or one call, taken as atomic; an ingest of a Liana transaction takes two
steps because the program takes its lock twice. Everything outside is an input: clock readings, the order in
which the database returns rows, what each backend would answer, prices, drawn ids and nonces. Hashing,
encryption and encodings are function parameters, with `open(seal(x)) = x` and freedom from collisions
stated as hypotheses where they are used. Times are integers (nanoseconds for rows, milliseconds for the
two caches), prices are integers in the smallest unit.

Where the code and its own words differ, the model follows the code:

* `src/db/mod.rs:17` says the separator cannot occur in a covered field; nothing enforces that for texts
  such as the mode or the price condition. `JoinInjective` states it as a condition and
  `RowsCollideOnSeparators` shows that it is needed. A NULL text and an empty one are the same to the MAC.
* Only the tick, the batch, `broadcast_now` and the retention run (`src/db/mod.rs:1150-1170`) look at the MAC.
  The requeue of failed rows, the height and price passes, the confirmation check and the user's schedule and
  retry calls write a row without looking, and reseal it. So does every start of the program: it seals each
  row whose transaction is stored in plain text or that has no MAC (`src/db/mod.rs:93-97`,
  `StartSealsTamperedOldRows`). `TamperedExactlyIfChangedSinceSealed`, `TamperedUntilResealed` and
  `OutOfBandWriteThroughRun` say exactly when a write behind the program's back is still seen,
  `TamperedSentOnlyIfRequeued` and `RequeuedTamperedRowGoesOut` which rows tampered at the start of a tick
  that tick can still send: failed ones it takes up again.
* Two writers of the program change covered columns and do not reseal: `schedule_transaction`
  (`src/pool/manager.rs:506-509`), and the data migration that every start runs on pending rows in the
  immediate mode (`src/db/schema.rs:101-104`), in which the command line imports transactions
  (`src/migration/importer.rs:90`). The pool then takes its own row for a tampered one and halts:
  `DrawnDelayHalts`, `ImportThenRestartHalts`. `FalseAlarmsExactly` says that, steps being whole,
  nothing else raises a false alarm.
* `src/pool/manager.rs:1439-1440` speaks of disarming once the real height is ten past the arming. The
  health poll does that; a height read between two polls (`src/pool/manager.rs:1352-1357`) raises the same
  height without disarming. `ArmedWindowHolds` gives the exact condition for the time between polls.
* `src/pool/manager.rs:887-888` calls the median monotonic. That is a theorem about chains that obey the
  block-time rule (`MtpMonotone`), and false without the rule (`MtpCanFallWithoutTheRule`).
* `src/pool/manager.rs:1494-1524` notifies the scripthashes of the transaction being stored. Storing a known
  transaction again with fewer scripthashes changes other answers silently; `EveryChangeIsNotified` gives the
  exact condition.
* `src/electrum_server/mod.rs:2322-2324` speaks of fabricating "at the same offset"; the code keeps the
  virtual height and moves only once the real chain has reached it. From then on the shown tip is not among
  the headers the session answers itself (`ShownTipIsServedBelowVirtualTip`).
* A session on the Sparrow port that has not sent `server.version` is served as Liana. So isolation needs a
  session that names itself first (`HeaderNonInterference`, `OnlyLianaSeesTheVirtualTip`).
* `src/electrum_server/mod.rs:1130-1134` presents the virtual-block setting as a matter of Liana sessions. A
  disarmed Liana subscription starts a refresh of the shared cache (1202-1204, 2059-2061), an armed one returns
  before it (1184-1192). When that refresh brings a new tip, it is announced to every session, so the setting
  shows in what a Sparrow session is pushed (`LianaSubscriptionShiftsAPush`).
  `SharedStateShowsSettingOnlyThroughContests` gives the exact condition, `SparrowIsShownRealTips` what holds
  without it.
* A wallet gets two different statuses for one scripthash. While the pool holds something for it, the answer
  to a subscription, a forwarded notice and the notice after a broadcast hash the held transactions alone
  (`src/electrum_server/mod.rs:541`, 1398, 593, 1540); only the push on a change of the held transactions or a
  confirmation hashes the real history too (2383-2397). The results on confirmations are about that push, and
  `PushAgreesWithSubscription` says exactly when the two agree.
* `src/api/mod.rs:737-765` stores an edited target before it validates the arming, and keeps it when the
  arming is refused (`EditWhileArmedIsNotValidated`).
* The lock predicate of `src/pool/manager.rs:778-793` is not the consensus rule. `LockPredicateVersusConsensus`
  lists the differences, which are a time lock equal to the median and the value 500,000,000.
* The status order is (height, hash), not the order of the Electrum protocol documentation. The results are
  about canonicity only.

## Model

| member | source | states |
|---|---|---|
| `Rows.MacInputDeterminesColumns` | src/db/mod.rs:20-46 | The joined MAC input of two rows without separators in their texts is equal if and only if the rows agree in every covered column, a missing text counting as the empty one |
| `Rows.JoinInjective` | src/db/mod.rs:20-46 | Joining with the separator is injective on separator-free fields, whatever their number |
| `Rows.RowsCollideOnSeparators` | src/db/mod.rs:16-19 | Without that condition it fails on every row: a separator inside the trigger or the price condition lets two rows that differ in both share their MAC input |
| `Rows.OutOfBandWriteDetected` | src/db/mod.rs:1700-1716 | With a collision-free MAC, the first read after a write that leaves the stored MAC alone finds the row tampered if and only if a covered column changed; TamperTrail follows it further |
| `SealTrail.TamperedExactlyIfChangedSinceSealed` | src/db/mod.rs:1700-1716 | At the end of any run in which the row stays in the table, other writers leaving its MAC alone as often as they write, the row reads back tampered if and only if its covered columns, joined (or one by one, when no text holds a separator), differ from those it had when the program last sealed it |
| `SealTrail.SealFollows` | src/db/mod.rs:370-425 | One step: the stored MAC is that of the version last sealed, where the two writers that do not reseal, and outside writes, seal nothing |
| `TamperTrail.OutOfBandWriteThroughRun` | src/db/mod.rs:370-425 | After such a write and any run, restarts included, that leaves the row in place and does not migrate it, it reads back tampered if and only if a covered column changed and no step has resealed the row since |
| `TamperTrail.TamperedUntilResealed` | src/pool/scheduler.rs:114-138 | Each step leaves a tampered row exactly as it is or reseals it, and reseals it exactly under its own guards, none of which asks for the MAC; the start-up pass over old rows is one of them |
| `TamperTrail.TamperedThroughRun` | src/db/mod.rs:455-500 | The same over whole runs, restarts included: a row that no start migrates is still tampered, and unchanged, if and only if no step resealed it |
| `TamperTrail.BatchAndTampering` | src/pool/manager.rs:628-640 | The batch never touches a row that is tampered when it starts, and keeps an intact one intact |
| `TamperTrail.TamperedSentOnlyIfRequeued` | src/pool/manager.rs:758-776 | A row that is tampered when a tick starts is sent by that tick only if it was a failed row the tick took up again |
| `TamperTrail.RequeuedTamperedRowGoesOut` | src/pool/manager.rs:842-848 | When the tampered rows are all of that kind, such a row is sent, as it was written, if and only if its time has come and the lock it carries is open |
| `FalseAlarms.StartSealsTamperedOldRows` | src/db/mod.rs:80-98 | At a start a tampered row that the data migration leaves alone stops reading back tampered if and only if the pass reaches it and its transaction is stored in plain text or it has no MAC; a reader is shown the same row before and after |
| `FalseAlarms.CompletePassUpgrades` | src/db/mod.rs:93-97 | A pass that reaches every row makes of each what the loop of encrypt_legacy_rows makes of the migrated table |
| `FalseAlarms.FalseAlarmsExactly` | src/pool/manager.rs:506-509 | In a run without outside writes every row reads back intact and safe mode stays off at every moment if and only if no drawn delay changed a stored row and no start migrated a row that the pass after it left |
| `FalseAlarms.DrawnDelayHalts` | src/pool/manager.rs:475-520 | After schedule_transaction on an intact row that it changes, with everything else in order, no tick sends the row, and a tick enters safe mode if and only if it finds the row due |
| `FalseAlarms.ImportThenRestartHalts` | src/db/schema.rs:101-104 | A transaction imported without a mode, then a restart: the tick at its time enters safe mode and sends nothing, though nobody wrote behind the program's back |
| `Rows.RowMacReadsCoveredColumns` | src/db/mod.rs:402-416 | The MAC of a row is a function of its covered columns only, so bookkeeping writes need no reseal |
| `Rows.SealedReadsBack` | src/db/mod.rs:370-425 | A resealed row reads back untampered |
| `ChainClock.MedianByRank` | src/rpc/electrum.rs:220-229 | The middle element of the sorted window is at least v exactly when the elements below v number at most half the window: the sort-and-index form against a counting definition |
| `ChainClock.MtpByRank` | src/rpc/electrum.rs:207-229 | The median at a height is at least v if and only if, of the eleven blocks that end there (all of them at the heights below ten), at most half have a time below v |
| `ChainClock.MtpStep` | src/rpc/electrum.rs:207-229 | A block whose time exceeds the current median never lowers the median of the sliding window, also while the window still grows at heights 0 to 10 |
| `ChainClock.MtpMonotone` | src/pool/manager.rs:886-889 | Along every valid chain the median time past never decreases, between any two heights: the fact the cache comment rests on |
| `ChainClock.MtpOfExtension` | src/pool/manager.rs:886-889 | The median at any height of a prefix is at most the median at the tip of the longer chain |
| `ChainClock.MtpCanFallWithoutTheRule` | src/pool/manager.rs:886-889 | A concrete chain that breaks the block-time rule and whose median falls |
| `ChainClock.GetMedianTimePast` | src/rpc/electrum.rs:207-229 | An error exactly if the tip or one of the last eleven headers cannot be had, or none of them is well-formed; otherwise a value that is at least v if and only if at most half of the times read from these eleven headers are below v |
| `ChainClock.GatherTimes` | src/rpc/electrum.rs:211-221 | The loop collects the times of the readable headers in height order and stops at the first unreadable one |
| `ChainClock.IndexerMtpIsTheChainMedian` | src/rpc/electrum.rs:207-229 | A server whose last eleven headers are those of the chain reports exactly the chain's median, which the counts over these eleven heights determine |
| `ChainSource.LockPredicateVersusConsensus` | src/pool/manager.rs:778-793 | The code's lock predicate and next-block finality differ exactly for time locks equal to the median, and at the value 500,000,000 the two read the number differently |
| `ChainSource.SatisfiedStaysSatisfied` | src/pool/manager.rs:778-793 | A lock satisfied on a valid chain stays satisfied on every valid extension |
| `ChainSource.CheckLockNeverEarly` | src/pool/manager.rs:778-793 | With backends and cache that have seen only prefixes of the chain, a lock read as satisfied is satisfied on the true chain |
| `ChainSource.CheckLockExactWhenFresh` | src/pool/manager.rs:778-793 | Once the backend in use, indexer or Core, stands at the tip and older cache entries have run out, the check is exact in both directions |
| `ChainSource.SecondReadIsFree` | src/pool/manager.rs:886-902 | A time lock that could be checked leaves its median in the cache, read anew unless less than 30 s old; until 30 s after that read every further one, the second read for the message among them, finds it there and changes nothing |
| `ChainSource.HonestClockSurvivesGrowth` | src/pool/manager.rs:886-902 | A cached height or median that was seen on a prefix stays a safe underestimate as the chain grows |
| `LockSafety.RunHonest` | src/pool/manager.rs:548-595 | Invariant of whole runs: the clock state never runs ahead of the chain and every emission so far is satisfied on it |
| `LockSafety.LockSafety` | src/pool/manager.rs:612-645 | In every run over a growing valid chain with lagging backends, each transaction handed out by a tick or by the user had its nlocktime column satisfied on the true chain at that moment |
| `LockSafety.TickLockSafe` | src/pool/manager.rs:612-728 | One tick, filter and batch together, sends only rows whose lock is satisfied, though both read a cached and moving clock |
| `LockSafety.LockSafetyDuringATick` | src/pool/manager.rs:628-728 | The same with a chain that grows while the batch is under way: each row is satisfied on the chain as it stood when that row was sent |
| `LockSafety.EmissionsAreFinal` | src/pool/manager.rs:778-793 | Every emission is final for the next block by consensus, except for a lock of exactly 500,000,000 or a time lock equal to the median |
| `BatchFacts.BatchEnd` | src/pool/manager.rs:612-728 | The batch stops exactly at the first tampered or unreadable due row; the attempts are exactly the satisfied rows before it; safe mode is on afterwards exactly if the stop was a tampered row, and its id is recorded |
| `BatchFacts.BatchRows` | src/pool/manager.rs:612-728 | Exactly the rows before the stop get their own outcome; every other row is unchanged |
| `BatchFacts.BatchSent` | src/pool/manager.rs:692-724 | What reached the network is exactly the accepted attempts before the stop, in query order |
| `RowOutcomes.TamperedPendingMeansNoSend` | src/pool/manager.rs:796-849 | A tampered pending row of this network in one of the three modes whose time has come means nothing is sent in that tick, safe mode is on and a tampered row is on record |
| `BatchFacts.EveryDueRowEndsBroadcast` | src/pool/manager.rs:612-728 | With untampered rows, readable satisfied locks and accepting backends every due row ends as broadcast |
| `BatchFacts.EveryDueRowGoesOut` | src/pool/manager.rs:692-724 | And each is sent exactly once, in query order, with one result each |
| `RowOutcomes.TickBroadcastsExactlyTheDue` | src/pool/manager.rs:796-849 | While the backend in use, indexer or Core, answers steadily and accepts, and rows are intact, a tick leaves a row broadcast if and only if it was, or it is a row of this network with an open lock that is scheduled with its time come, or pending in the mode scheduled, manual or imported with a time that has come, no price trigger and no later deferral, or failed with an error worth another try, among the first 1000 failed rows, with its time come |
| `RowOutcomes.TickLeavesTheRest` | src/db/mod.rs:659-685 | Every other row stays as it was: of another mode, without a time, waiting for a price, of another network, not due, or locked |
| `CallOutcomes.TickDelivers` | src/pool/manager.rs:628-728 | A row that comes due with its lock open is handed over, whatever the backends answer: accepted, it is broadcast under the id given; refused for good, it has failed with the message; refused for now, it stays scheduled; no other column changes |
| `CallOutcomes.RetriableExactly` | src/pool/manager.rs:1730-1737 | A refusal is for now if and only if its message contains one of the five phrases, in capitals or not |
| `CallOutcomes.MissIsRecordedOnce` | src/pool/manager.rs:646-690 | A due row whose time lock reads shut at the hand-over is not sent; the first such miss is dated and keeps the time the row was meant for, later ones change nothing |
| `TickOutcome.ScheduledForATime` | src/pool/manager.rs:233-271 | End to end: a row scheduled for a time goes out in a tick if and only if that time has come |
| `TickOutcome.ScheduledForAPrice` | src/pool/manager.rs:273-355 | End to end: a row waiting for a price goes out in the tick after a price check if and only if the check saw the price of its currency at or above the target, or at or below it, as the user asked |
| `CallOutcomes.PriceCheckTakesExactly` | src/price/mod.rs:283-288 | A price check makes due exactly the pending or scheduled rows of this network with a price trigger whose currency, dollars if none is named, stands on the side of the target they ask for, above unless they say below; every other row stays as it was |
| `TickOutcome.HeldForABlock` | src/pool/scheduler.rs:96-152 | End to end: a pending by_block row of this network with a block height goes out in the tick after a monitor pass if and only if the chain has reached its height |
| `CallOutcomes.MonitorTakesExactly` | src/pool/scheduler.rs:96-152 | A monitor pass makes due exactly the pending by_block rows of this network with a height below 500,000,000 that the height it read has reached; every other row stays as it was |
| `TickOutcome.ReceivedForImmediateSending` | src/electrum_server/mod.rs:2733-2737 | End to end: a transaction received in the immediate mode goes out in the next tick if and only if its lock is open |
| `TickOutcome.BroadcastOnDemand` | src/pool/manager.rs:548-610 | A broadcast by the user sends a stored row if and only if it was not sent before and its lock is open; otherwise no row and no emission changes |
| `CallOutcomes.BroadcastOnDemandDelivers` | src/pool/manager.rs:586-610 | Accepted, the row is broadcast under the id given, cleared of miss and deferral, and no other column changes; refused, nothing changes |
| `CallOutcomes.BroadcastRefusedUnsafe` | src/pool/manager.rs:548-565 | In safe mode such a call changes nothing; on a tampered row it starts safe mode with the id on record; in neither case is anything sent or any row changed |
| `CallOutcomes.ConfirmsExactlyTheMined` | src/pool/manager.rs:981-1034 | With a chain clock, a confirmation pass confirms exactly the rows sent on this network, among the first 1000, that Core finds in a block, with that height and the time now; every other row stays as it was |
| `CallOutcomes.SentThenConfirmed` | src/pool/scheduler.rs:191-205 | From the hand-over to the block: a row accepted under an id that Core later finds in a block is confirmed with its height |
| `CallOutcomes.RetriedGoesOut` | src/pool/manager.rs:904-913 | A retry puts a failed row back in line: the next tick sends it if and only if its time has come and its lock is open |
| `CallOutcomes.AcknowledgedSendsAgain` | src/pool/manager.rs:140-145 | A tick in safe mode changes nothing; the same tick after the acknowledgement sends exactly what is due |
| `CallOutcomes.NewTimeReplacesAll` | src/pool/manager.rs:233-271 | An accepted time replaces deferral, price and error: the row is reached exactly from that time on and no price check touches it any more |
| `CallOutcomes.RefusedScheduleChangesNothing` | src/pool/manager.rs:233-252 | A time that is past, or before a time lock, changes nothing |
| `CallOutcomes.NewPriceHoldsTheRow` | src/pool/manager.rs:273-317 | An accepted price clears time, deferral and error, and no tick touches the row until a check has seen it |
| `TickOutcome.PollGovernsTheTick` | src/pool/manager.rs:1362-1437 | One health poll that heard from Core governs every read of a tick within 30 s of it: whatever the row order and the number of rows, a time-locked row goes out only if Core's median at the poll had reached its lock, and with an indexer silent at the poll a height-locked row only if Core reports its height |
| `SentAndPending.TickClearsPending` | src/pool/manager.rs:397-401 | After a tick no transaction it sent is among the held ones, nothing else has left them, and the scripthashes notified are exactly those whose answer changed |
| `SentAndPending.UserBroadcastClearsPending` | src/pool/manager.rs:595-599 | The same for a broadcast by the user |
| `SentAndPending.TickRecordsReplies` | src/pool/manager.rs:692-724 | Every hand-over a tick reports as accepted stands in its row under the transaction id the network answered |
| `TickOutcome.FilterDueSteady` | src/pool/manager.rs:730-756 | With steady backends the filter keeps exactly the due rows and leaves a steady clock |
| `DaemonSteps.DaemonStepMoves` | src/pool/scheduler.rs:37-152 | Per daemon: a height or price pass moves a status only from pending to scheduled, a confirmation check only from broadcast to confirmed, a tick only along pending, failed, scheduled, broadcast or failed, a poll not at all; no row appears or disappears |
| `DaemonSteps.TickEvolves` | src/pool/manager.rs:796-849 | Over a whole tick each row changes only in the allowed ways and stays sealed if it was |
| `DaemonSteps.TickSendsDueRows` | src/pool/manager.rs:796-849 | What a tick sends are distinct rows that were scheduled and reached when its batch began, and they end as emitted |
| `DaemonSteps.EmissionsDistinct` | src/pool/manager.rs:692-724 | No row is sent twice within one batch |
| `ScheduleSafety.ScheduleSafety` | src/pool/manager.rs:730-756 | In every reachable state, nothing a tick sends had a later time in its latest schedule, or waited for a price condition no check has seen since it was set; a drawn delay counts as a schedule on rows without an older deferral or price trigger, which otherwise still decide |
| `ScheduleSafety.RunHonours` | src/db/mod.rs:578-617 | Invariant of whole runs: the stored schedule of every row honours the history of its schedule calls |
| `ScheduleSafety.PriceCheckHonours` | src/pool/manager.rs:319-355 | A price check turns a price wait into a release only when the price is at or below the target, or at or above it, as the schedule history says |
| `EmissionSafety.AtMostOnce` | src/pool/manager.rs:548-610 | Over every run, restarts included, without user reschedules of emitted rows, each row is handed to the network successfully at most once |
| `EmissionSafety.NewEmissionsAreNew` | src/pool/manager.rs:692-724 | The rows a tick sends are none of those already sent |
| `EmissionSafety.NoFalseAlarm` | src/db/mod.rs:455-500 | Over every run of calls, daemons and restarts in which nobody writes behind the program's back and the program breaks no seal itself, every row reads back untampered and safe mode is never entered; FalseAlarmsExactly is the other half |
| `EmissionSafety.SafeModeHalts` | src/pool/manager.rs:126-149 | From safe mode on, no tick and no broadcast_now sends anything until the alarm is acknowledged or the program is started anew |
| `PoolRuns.StepKeyed` | src/pool/manager.rs:612-728 | Every step keeps each row stored under its own id |
| `PoolManagers.PoolManager.EnterSafeMode` | src/pool/manager.rs:130-138 | The new state in full: safe mode on, the id recorded once, nothing else changed |
| `PoolManagers.PoolManager.ClearSafeMode` | src/pool/manager.rs:140-145 | The new state in full: safe mode off and no ids left |
| `PoolManagers.PoolManager.GetMedianTimePast` | src/pool/manager.rs:851-872 | Core's answer whenever it gives one; otherwise that of an indexer not known to be dead, which is demoted when it fails |
| `PoolManagers.PoolManager.GetMedianTimePastCached` | src/pool/manager.rs:886-902 | A value cached less than 30 s ago without asking anyone, else a read that refills the cache |
| `PoolManagers.PoolManager.CheckBlockHeight` | src/pool/manager.rs:1468-1492 | The indexer's height unless it is known dead, noted in the health snapshot; if it fails it is demoted, and Core out of its initial download is then the clock; else Core's height |
| `PoolManagers.PoolManager.IsLocktimeSatisfied` | src/pool/manager.rs:778-793 | The lock decision and the clock state it leaves, equal to the function the safety results are about |
| `PoolManagers.PoolManager.BroadcastTransaction` | src/pool/manager.rs:361-384 | The indexer's acceptance if it is asked and accepts, else Core's reply if there is Core, else the indexer's refusal, else an error |
| `PoolManagers.PoolManager.MarkPendingRowsDue` | src/pool/manager.rs:804-841 | The pending loop marks the rows before the first tampered one, leaves price rows alone and stops in safe mode at a tampered row |
| `PoolManagers.PoolManager.RequeueRetriableFailures` | src/pool/manager.rs:758-776 | Exactly the failed rows worth retrying are rescheduled, all others unchanged |
| `PoolManagers.PoolManager.SelectDue` | src/pool/manager.rs:620-625 | The filter over the candidates and the clock state its reads leave |
| `PoolManagers.PoolManager.IsTxDueForBroadcast` | src/pool/manager.rs:730-756 | The due decision for one row and the clock state it leaves |
| `PoolManagers.PoolManager.SendBatch` | src/pool/manager.rs:628-728 | The in-place loop equals the batch function that BatchFacts characterises row by row |
| `PoolManagers.PoolManager.BroadcastDueTransactions` | src/pool/manager.rs:612-728 | Selection and batch together, with the early exits, as one state change |
| `PoolManagers.PoolManager.RunSchedulerTick` | src/pool/manager.rs:796-849 | The whole tick as one state change, with its results or its error |
| `PoolManagers.PoolManager.BroadcastNow` | src/pool/manager.rs:548-610 | The user's broadcast with all its refusals; a txid is returned exactly when one emission was added |
| `PoolManagers.PoolManager.MonitorBlockHeight` | src/pool/scheduler.rs:96-152 | One monitor pass: exactly the waiting rows whose height is reached become due |
| `PoolManagers.PoolManager.CheckPriceTriggers` | src/pool/manager.rs:319-355 | Exactly the waiting rows whose condition holds at the given prices become due |
| `PoolManagers.PoolManager.CheckConfirmations` | src/pool/manager.rs:981-1034 | Exactly the broadcast rows found in a block become confirmed, with the height noted then |
| `PoolManagers.PoolManager.RefreshChainHealth` | src/pool/manager.rs:1362-1437 | After a poll there is a clock exactly if the indexer answered or Core is up and out of its initial download; the height is the indexer's, else Core's; the cached median is Core's if it answered |
| `PoolManagers.PoolManager.ScheduleAt` | src/pool/manager.rs:233-271 | Accepted exactly when the time is in the future and, in nanoseconds, not before a lock above 500,000,000 seconds; then the row is rescheduled and resealed, otherwise nothing changes |
| `PoolManagers.PoolManager.ScheduleByPrice` | src/pool/manager.rs:273-317 | Accepted exactly for a positive target, euro or dollar, above or below, and a pending or scheduled row in the mode manual or imported without lock time; otherwise nothing changes |
| `PoolManagers.PoolManager.ImportTransaction` | src/pool/manager.rs:386-395 | The new sealed row under its id; no other row changes |
| `PoolManagers.PoolManager.RetainTransaction` | src/electrum_server/mod.rs:2695-2737 | The imported row, marked due at once in the immediate mode; no other row changes |
| `PoolManagers.PoolManager.ScheduleTransaction` | src/pool/manager.rs:475-520 | Status and time of the row are overwritten and its MAC is left as it was |
| `PoolManagers.PoolManager.RetryFailedTransaction` | src/pool/manager.rs:904-913 | Only a failed row is accepted, and it becomes scheduled again |
| `VirtualMempool.RenderInjective` | src/pool/virtual_mempool.rs:55-60 | Two rendered key lists with colon-free hashes are equal as text only if equal as lists |
| `VirtualMempool.StatusIsCanonical` | src/pool/virtual_mempool.rs:41-66 | Two histories have the same pre-hash status if and only if they are equal as multisets of (hash, height) |
| `VirtualMempool.ComputeStatusText` | src/pool/virtual_mempool.rs:41-66 | Sorting in place and appending piece by piece gives the canonical text; an empty history has none |
| `VirtualMempool.StatusIsSpelledInOrder` | src/pool/virtual_mempool.rs:41-66 | The text itself: for each entry, by height and then by id, the transaction id, a colon, the height and a colon |
| `VirtualMempool.StatusIgnoresOrder` | src/pool/manager.rs:1657-1667 | The pushed status depends neither on the order of the upstream history nor on the order in which the map of held transactions is walked |
| `VirtualMempool.PushAgreesWithSubscription` | src/electrum_server/mod.rs:2383-2397 | While the pool holds something for a scripthash, the status pushed and the status answered to a subscriber agree if and only if upstream lists nothing but held transactions, unconfirmed, each as often as the pool holds it |
| `VirtualMempool.InjectHistory` | src/pool/virtual_mempool.rs:151-176 | The injection loop appends exactly the held ids upstream does not list, at height 0 |
| `VirtualMempool.InjectedCount` | src/pool/virtual_mempool.rs:151-176 | How often each (hash, height) occurs among the injected entries |
| `VirtualMempool.ConfirmationsShowInStatus` | src/electrum_server/mod.rs:2383-2397 | Whatever the pool holds before and after, two histories that differ in how often a transaction is listed at some block height give different pushed statuses |
| `VirtualMempool.ConfirmationChangesStatus` | src/electrum_server/mod.rs:2383-2397 | So the pushed status changes when a block takes a transaction, listed before or not, whatever else happened to history and pool |
| `VirtualMempool.MinedFromMempoolChangesStatus` | src/pool/virtual_mempool.rs:151-185 | The ordinary path: listed at height 0, then in a block |
| `VirtualMempool.NewEntryChangesStatus` | src/pool/virtual_mempool.rs:151-185 | A transaction upstream never listed appears in a block |
| `PendingIndex.MergesAreIdempotentAndCommute` | src/pool/manager.rs:1526-1566 | Merging the same scripthashes twice changes nothing more, and two merges in either order give the same set |
| `PendingIndex.EveryChangeIsNotified` | src/pool/manager.rs:1494-1566 | Merge and remove notify exactly the scripthashes whose answer changes; a store notifies every changed one if and only if it drops no scripthash already known |
| `PendingIndex.NoSilentChange` | src/pool/manager.rs:1494-1566 | Over any run of such changes, a scripthash whose answer differs at the end was notified on the way |
| `PendingIndex.BalanceIsSumOfUtxos` | src/pool/manager.rs:1669-1699 | The unconfirmed balance of a scripthash equals the summed value of its pending coins |
| `PendingIndex.BalanceIgnoresOrder` | src/pool/manager.rs:1685-1699 | The balance does not depend on the order in which the map is walked |
| `PendingIndex.PendingOutpointsAreUnique` | src/pool/manager.rs:1669-1683 | No outpoint is offered twice among the pending coins of a scripthash |
| `PendingIndex.ChangesKeepOutpoints` | src/pool/manager.rs:1494-1524 | Store, merge and remove keep output indexes distinct within each held transaction |
| `PendingIndex.InjectListUnspent` | src/pool/virtual_mempool.rs:92-117 | The loop appends exactly the pending coins upstream does not list, in order |
| `PendingIndex.ShownExactly` | src/pool/virtual_mempool.rs:92-117 | The coins shown are those upstream lists, first and unchanged, and each pending coin as often as it is pending if and only if upstream lists no coin of the same transaction and index |
| `PendingIndex.CoinsExactly` | src/pool/manager.rs:1669-1683 | The pending coins of a scripthash are exactly the outputs to it of the held transactions |
| `PendingIndex.UnspentAndBalanceAgree` | src/pool/virtual_mempool.rs:70-117 | When upstream lists none of the pending coins, the coins shown and the balance shown grow by the same amount |
| `PendingIndex.BalancesAddUpToValueHeld` | src/pool/manager.rs:1685-1699 | Summed over all scripthashes the unconfirmed balances are exactly the output value held |
| `PendingIndex.PendingMap.StorePendingTx` | src/pool/manager.rs:1494-1524 | The new map and the notifications sent |
| `PendingIndex.PendingMap.MergePendingScripthashes` | src/pool/manager.rs:1526-1566 | The loop appends what is new, in order, and notifies exactly that |
| `PendingIndex.PendingMap.RemovePendingTx` | src/pool/manager.rs:1701-1722 | The new map, the notifications and the returned scripthashes |
| `PendingIndex.PendingMap.GetPendingTxidsForScripthash` | src/pool/manager.rs:1657-1667 | A duplicate-free listing of exactly the held transactions that touch the scripthash |
| `PendingIndex.PendingMap.GetPendingUtxosForScripthash` | src/pool/manager.rs:1669-1683 | The pending coins of the scripthash in walking order |
| `PendingIndex.PendingMap.GetPendingUnconfirmedValue` | src/pool/manager.rs:1685-1699 | The summed value of the outputs to the scripthash |
| `PendingIndex.ExtractAffected` | src/pool/virtual_mempool.rs:416-450 | The one-pass extraction: the output scripthashes and those the resolved inputs spend |
| `PendingIndex.EnrichInputs` | src/pool/virtual_mempool.rs:369-405 | What the inputs add to the outputs, each once |
| `PendingIndex.TwoPhaseEqualsOnePass` | src/pool/virtual_mempool.rs:369-450 | Outputs stored first and inputs merged later give exactly the set of the one-pass extraction, without duplicates |
| `PendingIndex.TwoPhase` | src/electrum_server/mod.rs:1720-1756 | The two phases run one after the other end with that set |
| `LineFraming.BufferIsLinesAndTail` | src/electrum_server/mod.rs:772-816 | Splitting a buffer into lines and tail loses nothing |
| `LineFraming.LinesOfJoined` | src/electrum_server/mod.rs:772-816 | And rejoining lines and tail gives back the same lines and the same tail |
| `LineFraming.LinesOfAppend` | src/electrum_server/mod.rs:2277-2301 | More bytes complete the tail and leave the lines already there untouched |
| `LineFraming.PickIsHeadOfPartition` | src/electrum_server/mod.rs:784-790 | The line picked next is always the head of the stable partition into broadcast lines and others, and removing it leaves the partition's rest |
| `LineFraming.PartitionKeepsClasses` | src/electrum_server/mod.rs:772-816 | The partition keeps the order within both classes and loses no line |
| `LineFraming.ClientBuffer.LineRanges` | src/electrum_server/mod.rs:773-783 | The scan finds exactly the byte ranges of the complete lines |
| `LineFraming.ClientBuffer.PickRange` | src/electrum_server/mod.rs:784-790 | The first broadcast line if there is one, else the first line |
| `LineFraming.ClientBuffer.PopClientLine` | src/electrum_server/mod.rs:772-816 | One pop removes exactly the picked line from the byte buffer in place; all other lines and the tail stay |
| `LineFraming.ClientBuffer.Drain` | src/electrum_server/mod.rs:2284-2300 | The drain loop terminates, handles the stable partition of the buffered lines and leaves only the tail |
| `LineFraming.ClientBuffer.HandleConnection` | src/electrum_server/mod.rs:2277-2301 | The read loop up to the end of input handles what the chunk-wise specification says and leaves the stream's tail |
| `LineFraming.FramingIsChunkIndependent` | src/electrum_server/mod.rs:2277-2301 | For every stream and every way of cutting it into reads the lines handled are exactly the stream's complete lines, each once, and broadcast lines and other lines each in stream order |
| `VirtualHeaders.FabricateHeaders` | src/electrum_server/virtual_headers.rs:78-103 | The loop over heights equals the element-wise chain; an undecodable tip is an error only when there is something to fabricate |
| `VirtualHeaders.HeaderHexAt` | src/electrum_server/virtual_headers.rs:107-117 | None at or below the real tip, else the header that many steps above it |
| `VirtualHeaders.FabricatedIsLinked` | src/electrum_server/virtual_headers.rs:78-103 | The headers carry consecutive heights up to the requested one and are linked hash to hash from the real tip |
| `VirtualHeaders.ShorterIsPrefix` | src/electrum_server/virtual_headers.rs:107-117 | A shorter request is a prefix of a longer one and a single header is the matching element |
| `VirtualHeaders.FieldsOfFabricated` | src/electrum_server/virtual_headers.rs:88-100 | Decoded by a wallet, the k-th fabricated header has the tip's version and bits, a zero merkle root and nonce, and the tip's time plus 600 s per block above it, the block count cut to 32 bits and the result saturated there |
| `VirtualHeaders.TimesRiseBySixHundred` | src/electrum_server/virtual_headers.rs:92-99 | The times of the decoded headers rise by exactly 600 from the tip on, while the last one fits 32 bits |
| `VirtualHeaders.TimesRiseWhileStepsFit` | src/electrum_server/virtual_headers.rs:92-99 | The times of the decoded headers never fall if and only if the gap fits 32 bits or the tip's time is already the largest one: at step 2^32 the cut brings the time back |
| `HeaderIsolation.SharedStateShowsSettingOnlyThroughContests` | src/electrum_server/mod.rs:1181-1204 | Two runs with the same events and any two histories of the virtual-block setting show the same cache, announcements and sessions at every point if and only if no refresh that one setting starts and the other does not brings a tip the cache does not hold; the condition is read off one run |
| `HeaderIsolation.HeaderNonInterference` | src/electrum_server/mod.rs:2316-2365 | Under that condition the two runs send a Sparrow session identical header answers and pushes, whatever other sessions are connected |
| `HeaderIsolation.SubscriptionAndItsRefresh` | src/electrum_server/mod.rs:2044-2061 | For one subscription with a warm cache and the answer to the refresh it starts: two settings leave the same to be seen if and only if the session is not served as Liana, or both or neither are armed, or the indexer stands at the cached tip |
| `HeaderIsolation.LianaSubscriptionShiftsAPush` | src/electrum_server/mod.rs:1184-1204 | The input that shows the setting through: with the indexer a block ahead, a Liana subscription leads to a push to a Sparrow session when disarmed and to none when armed |
| `HeaderIsolation.SparrowIsShownRealTips` | src/electrum_server/mod.rs:416-427 | Under any settings and whatever other sessions do, a Sparrow session is shown upstream tips only and no fabricated header |
| `HeaderIsolation.OnlyLianaSeesTheVirtualTip` | src/electrum_server/mod.rs:416-427 | Answers to a subscription and pushes ignore the setting if and only if the session is not served as Liana, which includes one that subscribes before naming itself |
| `ElectrumSession.OnlyUpstreamTipsAreShared` | src/electrum_server/mod.rs:1181-1199 | In every run the cache and the announcements hold tips from upstream only |
| `ElectrumSession.AnnouncementsStayCurrent` | src/pool/manager.rs:194-215 | In every run the last announcement carries the cached height and neighbours differ, so a session that has taken them all knows the height |
| `ElectrumSession.InstantAnswerIsTheDispatchAnswer` | src/electrum_server/mod.rs:2044-2080 | The fast path for a lone subscription answers exactly as the dispatch path would |
| `HeaderIsolation.SparrowLine` | src/electrum_server/mod.rs:248-272 | A session that has named itself, never as Liana, is not served as Liana after any further line |
| `ElectrumSession.LianaSeesOneChain` | src/electrum_server/mod.rs:1142-1199 | For a fixed real tip below the virtual one, the subscribed tip, the pushed tip and every header answer above the real tip are elements of one linked chain |
| `ElectrumSession.ShownTipIsServedBelowVirtualTip` | src/electrum_server/mod.rs:1142-1190 | The shown tip is the virtual one, or one block above the real tip once that has reached it, and a request for its own header is answered locally if and only if the real tip is below the virtual one |
| `ElectrumSession.ServedAsLianaExactly` | src/electrum_server/mod.rs:416-427 | From all a session has sent: it is served as Liana if and only if it came in on the Liana port, or on the Sparrow port without server.version or with a last name that contains liana in any case |
| `ElectrumSession.RealAnswersExactly` | src/electrum_server/mod.rs:1173-1264 | Any other session, or any with the virtual block off, is answered the cached tip with a refresh started, only without one the upstream tip or an error; its header requests are forwarded; once subscribed it is pushed each announced tip as it is |
| `ElectrumSession.RealHeadersAreForwarded` | src/electrum_server/mod.rs:1149-1171 | For Liana too, headers at or below the real tip or above the virtual one come from upstream |
| `ElectrumSession.CachesExactly` | src/pool/manager.rs:194-215 | A tip without height or header is ignored; any other is cached, and announced if and only if its height is not the one cached before |
| `ElectrumSession.TipCache.CacheChainTip` | src/pool/manager.rs:194-215 | Unusable tips are ignored, any other replaces the cache, and only a new height is announced |
| `ElectrumSession.TipCache.FinishRefresh` | src/electrum_server/mod.rs:1064-1118 | The answer to a refresh reaches the cache if that refresh was started, and at most once |
| `ElectrumSession.WalletSession.CaptureWalletFingerprint` | src/electrum_server/mod.rs:248-272 | The loop over a line's requests leaves the last non-empty client name and the server.version mark |
| `ElectrumSession.WalletSession.HandleHeadersSubscribe` | src/electrum_server/mod.rs:1173-1264 | Fabricated tip, cached tip with a refresh started, upstream tip or error, in that order, and the shared state it leaves |
| `ElectrumSession.WalletSession.ServeVirtualBlockHeader` | src/electrum_server/mod.rs:1149-1171 | The local header answer, or none when the request is to be forwarded |
| `ElectrumSession.WalletSession.ProcessClientLine` | src/electrum_server/mod.rs:1989-2246 | One line with all its requests: answers, session fields and shared state afterwards, with the refreshes it starts |
| `ElectrumSession.WalletSession.PushTip` | src/electrum_server/mod.rs:2316-2365 | What a subscribed session is pushed for one announced tip |
| `ArchiveKey.ArchiveKeyStore.Unlock` | src/api/archive_key.rs:57-85 | Succeeds if and only if verifier and salt are stored, the salt decodes and the password verifies, and the key returned now is then the one derived from password and salt; a password that does not verify is refused, each missing or malformed value is an error of its own, and in all these cases the cache stays as it was |
| `ArchiveKey.AttemptsExactly` | src/api/archive_key.rs:57-80 | The same as a law of the decision: which attempts succeed, with which key, and how the others end |
| `ArchiveKey.ArchiveKeyStore.GetKey` | src/api/archive_key.rs:87-101 | The key returned is exactly the one the call history determines |
| `ArchiveKey.ArchiveKeyStore.LockNow` | src/api/archive_key.rs:103-106 | No later read finds a key |
| `ArchiveKey.ArchiveKeyStore.CheckUnlocked` | src/api/archive_key.rs:112-125 | Reports exactly whether the history would yield a key |
| `ArchiveKey.KeyIsOfLastUnlock` | src/api/archive_key.rs:57-101 | The key returned is the one derived at the last unlock with an accepted password, and it is returned if and only if such an unlock or a successful read less than 15 minutes ago has no lock after it |
| `ArchiveKey.KeyMeansRecentUse` | src/api/archive_key.rs:87-101 | Some key is returned if and only if some unlock with an accepted password, or successful read, less than 15 minutes ago has no lock after it |
| `ArchiveKey.OnlyChecksDiffer` | src/api/archive_key.rs:108-125 | Two histories that differ only in is_unlocked calls give the same results of key() throughout |
| `ArchiveKey.ChecksChangeNothing` | src/api/archive_key.rs:108-125 | Removing all is_unlocked calls keeps the last use and every key result |
| `FieldCrypto.EncodedReadsBack` | src/crypto/mod.rs:59-73 | An encoded field starts with enc:v1: and decodes to the plaintext |
| `FieldCrypto.PlainTextReadsAsItself` | src/crypto/mod.rs:64-73 | Text without that mark is shown as it stands |
| `LegacyRows.Table.EncryptLegacyRows` | src/db/mod.rs:139-189 | The loop upgrades exactly the selected legacy rows and returns their number |
| `LegacyRows.SecondPassTouchesNothing` | src/db/mod.rs:133-138 | A second pass selects no row and changes none |
| `LegacyRows.UpgradePreservesMeaning` | src/db/mod.rs:157-186 | A reader sees the same row as before; every touched row passes its integrity check and every other row is as it was |
| `LegacyRows.UpgradeEncryptsEverything` | src/db/mod.rs:139-186 | A row is taken exactly if its transaction does not start with enc:, in capitals or not, or it has no MAC; then transaction, destination and label are all encrypted, those already marked unchanged |
| `LegacyRows.InterruptedRowIsPickedUpAgain` | src/db/mod.rs:176-186 | A row stopped between its two statements is selected again if and only if it carried no MAC, and reads the same meanwhile |
| `Retention.EveryRunConserves` | src/db/mod.rs:1142-1192 | However a run ends, in success, in error or stopped between two transactions, what left the pool is recoverable from the archive, once, and nothing else changes |
| `Retention.ExactlyOneStore` | src/db/mod.rs:1142-1149 | Then every original row is in the pool or in the archive and not in both |
| `Retention.JsonWithoutMacIsSound` | src/db/models.rs:41-90 | The hypothesis on the JSON form is met by one that has no field for the stored MAC |
| `Retention.FullRunMovesExactlyTheOldRows` | src/db/mod.rs:1150-1192 | A full run moves exactly the untampered terminal rows of the network older than the cutoff, each recoverable under its new id, and returns their number |
| `Retention.OpenedAfterMove` | src/crypto/mod.rs:14-35 | A moved row opens under its new id to its decoded form, and earlier archive entries open as before |
| `Retention.Database.ArchiveTerminalOlderThan` | src/db/mod.rs:1150-1192 | The in-place loop over both tables equals the run function, with its skip, its failure and its stop |
| `VirtualBlocks.CapturesAdvanceByTwo` | src/electrum_server/mod.rs:2638-2662 | However ingests, polls and re-arming interleave, the k-th capture gets the target plus twice k, as long as it is not edited |
| `VirtualBlocks.CapturesAfterArming` | src/api/mod.rs:177-201 | After a successful arming every capture lies above the arming height and at most 100,000 + 2(k-1) above it; captures are pairwise distinct if and only if the height does not saturate |
| `VirtualBlocks.ArmedWindowHolds` | src/pool/manager.rs:1439-1466 | A poll brings any state into the window: the last known height is fewer than ten blocks past the arming. From there on, through any edits, ingests and further polls, it stays so at every point if and only if no height read while armed reaches that mark |
| `VirtualBlocks.SwitchExactly` | src/api/mod.rs:737-765 | Switching off disarms; switching on arms at the known height if and only if the target lies above it and at most 100,000 above; without the switch the arming stays as it is; the target is stored in every case |
| `VirtualBlocks.ArmedUntilTenBlocksPast` | src/pool/manager.rs:1741-1743 | Over any run without the switch the virtual block stays armed if and only if no poll knows a height ten or more blocks past the arming |
| `VirtualBlockInPool.TickIsHeightReads` | src/pool/manager.rs:1468-1492 | For the virtual block a whole tick is exactly the sequence of the heights its lock checks read from the indexer: it arms, disarms and captures nothing, and leaves the last of these heights |
| `VirtualBlockInPool.TickAfterPollInWindow` | src/pool/manager.rs:1352-1357 | In a tick after a poll the window holds at every moment if and only if no height the tick reads is ten or more blocks past the arming |
| `Arrivals.ImmediateArrivalGoesOut` | src/electrum_server/mod.rs:2526-2552 | End to end: a transaction whose height lock is reached as far as known, or without a usable lock in the configured immediate mode, goes out in the next tick, except when its lock is exactly 500,000,000 and the chain is lower, a value the plan takes for no lock and the pool for a height |
| `Arrivals.TimeLockedArrival` | src/electrum_server/mod.rs:2521-2525 | End to end: one with a time lock goes out in a tick if and only if the wall clock and the median have both reached it |
| `Arrivals.HeightLockedArrival` | src/electrum_server/mod.rs:2526-2551 | End to end: one with a height lock not reached, as far as known, goes out after a monitor pass if and only if the chain has reached it |
| `Arrivals.LianaArrival` | src/electrum_server/mod.rs:2498-2514 | End to end: one from Liana with the virtual block armed goes out after a monitor pass if and only if the chain has reached the captured height, whatever its own lock |
| `Arrivals.ScheduledArrival` | src/electrum_server/mod.rs:2563-2579 | End to end: one without a usable lock in the configured scheduled mode goes out from the configured time on, or from the drawn one where none is configured |
| `Arrivals.ArrivalLeftToTheUser` | src/electrum_server/mod.rs:2515-2520 | One from Sparrow without a lock, from Liana with the virtual block disarmed, or without a usable lock in the manual or by-block mode stays pending: no tick and no monitor pass touches it, and it takes a price to wait for unless the configured mode is by-block |
| `VirtualBlocks.OutsideUntilSettled` | src/pool/manager.rs:1352-1357 | Once a height read has left that window nothing but a poll, another read or a settings call ends it, and a poll that knows such a height disarms |
| `VirtualBlocks.IngestAcrossARun` | src/electrum_server/mod.rs:2625-2695 | A Liana transaction planned while armed, with any events before its second lock: its row gets the target advanced past all captures in between if still armed then, and otherwise its own lock or none |
| `VirtualBlocks.ByBlockRowsThatWait` | src/db/mod.rs:639-657 | A stored by_block row is picked up by the block monitor if and only if it has a block height to wait for |
| `VirtualBlocks.VirtualBlockSettings.UpdateSettings` | src/api/mod.rs:737-765 | Which requests are accepted, that switching off disarms, that an accepted switching on arms at the known height, and that all others leave the arming |
| `VirtualBlocks.VirtualBlockSettings.CaptureTarget` | src/electrum_server/mod.rs:2638-2662 | The captured height and the advanced target |
| `VirtualBlocks.VirtualBlockSettings.MaybeDisarm` | src/pool/manager.rs:1439-1466 | Still armed afterwards if and only if it was and no height ten or more blocks past the arming is known; nothing else changes |

## Left out

- TCP, TLS, tasks, channel lag, HTTP and JSON: requests, replies and upstream answers are values, and whether a line is a broadcast request is a predicate on its bytes.
- SQLite and SQL text: a table is a map from id to row, a query a filter over it. Write errors of the database are not modelled, except the refused insert of the archive.
- Races inside a loop body, between its read of a row and its later update, and a process that ends between the update of a row and its reseal: loop bodies are atomic.
- The command-line broadcaster (`src/pool/broadcaster.rs:52-79`): it sends the row it is given without asking for lock, MAC or safe mode, so the lock, halt and at-most-once results exclude it.
- The drawing of a random delay: the drawn time is an input of `ScheduleTransaction`. `schedule_all_pending` is that call for each pending row.
- A start-up pass that fails between the two statements of one row: the pass of a restart handles each row whole or not at all. `InterruptedRowIsPickedUpAgain` says what the next start does with such a row.
- `rebroadcast_pending`: it ignores safe mode and resends rows already broadcast, so the halt and at-most-once results exclude it.
- `load_pending_from_db` (what is held again after a restart), `enrich_tx_locktime`, listings, statistics and fee estimation.
- `inject_get_mempool` and `alternate_txid_format`: they would add only easy members.
- The deadline of input enrichment: both extractions look at the same first inputs, those reached before the deadline.
- Bitcoin decoding and hashing, real cryptography, Argon2: parameters. `set_password` only writes the two configuration values that `ArchiveKey` takes as input.
- Overflow of 64-bit sums (heights plus ten or 100,000, balances, header times in the median): unbounded integers. The 32-bit saturation of header times and the 64-bit saturation of the captured height are modelled.
- ChainClock.GetMedianTimePast: a header of 68 to 71 bytes, on which the program panics, counts as malformed and is skipped, and heights are not cut to 32 bits.
- The second read of the median, for the message about a miss: by `SecondReadIsFree` it changes nothing within 30 s of the first; later it may refill the cache or mark the indexer down.
- LineFraming.ClientBuffer.HandleConnection: no line fails; in the program an error while a line is answered ends the session with the lines still buffered unhandled.
- ArchiveKey.ArchiveKeyStore.GetKey: one clock reading per call, where the code takes two.
- Rows.OutOfBandWriteDetected: times stand in the MAC input as decimal text where the program uses its stored text, so a rewrite of the same instant in another notation is not represented.
- Retention.FullRunMovesExactlyTheOldRows: `updated_at` and the cutoff are compared as numbers, where the program compares texts of one format.
- PoolManagers.PoolManager.ScheduleAt: fee rates and the enrichment of the returned row are not modelled.
- HeaderIsolation.HeaderNonInterference: one line is answered under one configuration, and a broadcast or handshake line yields no header answer.
- CallOutcomes.RetriableExactly: folds the letters A to Z only; the program folds all of Unicode, here and for currencies and price conditions.
- VirtualMempool.PushAgreesWithSubscription: only while the pool holds something for the scripthash; otherwise a subscription is answered with the upstream server's own status.
- VirtualMempool.StatusIsCanonical: stated on the text that is hashed, and for hashes without a colon.
