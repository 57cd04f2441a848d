# Mediadeck bookkeeping, verified

Mediadeck is mostly plumbing between Emby, Telegram, nginx and SQLite. What has to be exactly right is
the bookkeeping in between: the pacing clock of the streaming relay, watch time per Beijing day, the
admission control of the prewarm watcher, the one-time points reset, delivery under leases, the
player-funded dice bank, and some smaller machines. This project models that bookkeeping in Dafny and
proves what it guarantees over every input and every run.

Each component is one module. Where the program updates an object or a row in place, the module has a
class whose methods follow the source branch by branch; each method is tied to a function of the old
state, and the whole-run theorems are lemmas about that function. Transactions are atomic steps. Clocks,
replies of other systems, forked process ids, random tokens and digests are inputs; crashes and
interleavings are events of a transition system. Times are reals, or whole seconds where the source
stores them so.

Dafny checks the whole project with `dafny verify dfyconfig.toml`.

| file | component |
|---|---|
| `AggregateLimiter.dfy` | pacing of all streams of a member |
| `ActivityDays.dfy` | union of watch intervals, split at Beijing midnight |
| `PrewarmWatcher.dfy` | worker slots, byte reservations, rolling admission window |
| `LogFollower.dfy` | rotation-safe tail of an append-only log |
| `LegacyReset.dfy`, `ResetTool.dfy` | old-funds-first allocation; preview and one-time apply |
| `DiceOutbox.dfy` | persisted outbox with leases and uncertain sends |
| `CardRefresh.dfy` | fenced refresh of the shared group card |
| `CleanupJobs.dfy` | two deletion services over one job table |
| `BankerSettlement.dfy` | admission of bets and settlement of banker rounds |
| `RestartWatchdog.dfy` | hang watchdog with a restart limit |
| `DenyMap.dfy`, `DenyPublisher.dfy` | deny map printed, read back, and published under faults |
| `LogTail.dfy` | bounded tail of a streamed log |
| `DeviceGroups.dfy` | device-name groups and their count in SQL |
| `Finite.dfy`, `Numbers.dfy`, `Text.dfy`, `Wrappers.dfy` | sums and images of finite sets, minima, trimming and sorting of texts, Option and Result |

## What turned out not to hold

The code is modelled as it is. In these places it does not do what its comments, its documentation or an
obvious reading promise; each has an exact condition and, where a run is needed, a concrete one.

- After a quiet window the prewarm watcher is still blocked exactly if both slots are held, by running
  workers or killed ones that are not reaped, or one file's budget exceeds the window; the latter blocks it
  for good (`NeverFusedExactly`, `OversizedNeverAdmits`).
- The log follower's "only complete lines" holds of the first line of a poll exactly if the poll starts on a
  line boundary, which it may not do when it opens a file or resumes in one that was cut and has grown again
  (`FirstLineWholeExactly`, `StartsOnBoundaryExactly`).
- The follower survives rotations without losing a line exactly if every file that holds one is polled from its
  head, which a deletion seen by a poll or a truncated file grown past the old position prevents, and is
  polled again after its last line: what is written between the last poll and a rename is lost (`NothingLostExactly`,
  `RotatedLineIsLost`).
- `sent` is final, and a message id written once, exactly as long as no send is in flight under the lease
  the row carries; an operator's acknowledgement can leave it so (`SentIsFinalExactly`, `SentAbsorbs`,
  `SentCanBeUndone`).
- The card's token fences the row, not the message: an older card can end up displayed over a clean row
  exactly if an edit lands after its lease (`StaleExactly`, `StaleEditStays`).
- After a failed reload, publishing the previous tags again answers ok without touching the file, which
  still holds the failed text (`FileAfterOkExactly`, `FailedTextStays`); what the publisher remembers is
  then out of force with the next start of nginx (`HonestRunsExactly`).
- A tail whose limit is zero or below returns nothing exactly if the last chunk is no longer than the limit is
  below zero (`LimitKeptExactly`); a log shorter than the tail loses its first line although it is whole
  (`WholeLineLostExactly`).
- The device list and the SQL count disagree exactly if two unblocked devices of an account share an
  unknown label spelt with the Kelvin sign (`CountAgreesExactly`, `CountsMayDiffer`).
- An hour with both its ends can hold more restarts than configured exactly if two of them, that many apart,
  lie on its two ends, and up to twice as many (`ClosedHourExactly`, `ClosedHourMayHoldTwice`).

Two terms of the throughput bound cannot be dropped: a recreated limiter entry really spends one more chunk
(`RecreateTermNeeded`), and a backlogged key really sends at its full rate (`BackloggedIsExact`).

## Model

| member | source | states |
|---|---|---|
| AggregateLimiter.ParseRate | agent/stream_rate_proxy.py:70-77 | accepts exactly one to nineteen decimal digits; the rate is the number they write, or the baseline for zero, and never zero |
| AggregateLimiter.RateRoundTrip | agent/stream_rate_proxy.py:70-77 | every rate of up to nineteen digits is read back from how it is written, zero as the baseline |
| AggregateLimiter.LowestRate | agent/stream_rate_proxy.py:57 | the rate in force is one that joined and none that joined is lower |
| AggregateLimiter.JoinThenLeave | agent/stream_rate_proxy.py:40-52 | a stream that joins and leaves again leaves the other streams' clock and rate as they were; meanwhile the lower of both rates governs |
| AggregateLimiter.Limiter.Join | agent/stream_rate_proxy.py:40-45 | adds the token's rate to that key's entry, new entries start their clock now, all other keys stay |
| AggregateLimiter.Limiter.Leave | agent/stream_rate_proxy.py:47-52 | takes out that token's rate, the last one takes the entry with it, all other keys stay |
| AggregateLimiter.Limiter.Reserve | agent/stream_rate_proxy.py:54-60 | departs at the later of now and the entry's clock, which moves on by size over the lowest rate |
| AggregateLimiter.Limiter.Lowest | agent/stream_rate_proxy.py:57 | the loop over the joined rates finds the rate in force |
| AggregateLimiter.Limiter.Quantum | agent/stream_rate_proxy.py:65-67 | the largest read up to 16 KiB that the rate in force passes in ten milliseconds, and at least a byte |
| AggregateLimiter.JoinKeepsInv | agent/stream_rate_proxy.py:159-183 | a join at any point of a run keeps all reservations paced and every departure covered by a thread that still sleeps |
| AggregateLimiter.ReserveKeepsInv | agent/stream_rate_proxy.py:54-63 | a reservation by any thread departs one airtime after the one before it in the entry's lifetime or at once, and in order across lifetimes |
| AggregateLimiter.LeaveKeepsInv | agent/stream_rate_proxy.py:159-183 | a thread that slept to its departure leaves no departure ahead of the clock uncovered |
| AggregateLimiter.RunKeepsInv | agent/stream_rate_proxy.py:159-183 | the pacing invariant holds after every interleaving of joins, reservations and leaves |
| AggregateLimiter.PacedBound | agent/stream_rate_proxy.py:54-60 | between two reservations the bytes up to the last chunk fit the highest rate in force over the span and one chunk per lifetime |
| AggregateLimiter.ThroughputBound | agent/stream_rate_proxy.py:159-183 | over any run the bytes departing between two reservations are at most the highest rate in force there times the time between plus a chunk, plus a chunk per recreation of the entry; rates that joined without governing do not matter |
| AggregateLimiter.JoinedBound | agent/stream_rate_proxy.py:54-60 | as long as one stream of rate r stays joined, whatever else joins and leaves, all streams together send at most r times the time plus a chunk |
| AggregateLimiter.DeparturesAreExact | agent/stream_rate_proxy.py:54-60 | over any run every reservation departs exactly one airtime after the one before it in the entry's lifetime or, if that has passed or there is none, when it is asked for |
| AggregateLimiter.BackloggedIsExact | agent/stream_rate_proxy.py:54-60 | over any stretch of a run in which the key stays backlogged at one rate, the bytes before the last chunk equal that rate times the span |
| AggregateLimiter.RateFilledExactly | agent/stream_rate_proxy.py:54-60 | within one lifetime of the entry and at one rate, the bytes before the last chunk never exceed rate times span, and reach it exactly if the key stays backlogged |
| AggregateLimiter.RecreateTermNeeded | agent/stream_rate_proxy.py:40-52 | the extra chunk per recreation is really spent in a run for every rate and chunk size |
| ActivityDays.CoveredMeans | backend/app/modules/activity.py:28-49 | the specification set holds exactly the ticks some interval contains |
| ActivityDays.Add | backend/app/modules/activity.py:32-37 | adding a later piece day by day keeps the per-day counts those of the covered set; the loop ends |
| ActivityDays.DaySeconds | backend/app/modules/activity.py:39-49 | the one-pass merge gives every Beijing day exactly the number of its ticks covered by the union of the intervals |
| ActivityDays.SplitIsUnique | backend/app/modules/activity.py:28-49 | the covered set determines the result |
| ActivityDays.SameUnionSameDays | backend/app/modules/activity.py:28-49 | two ordered lists with the same union give the same days, however sessions cut them up |
| ActivityDays.DayAtMostFull | backend/app/modules/activity.py:28-49 | a listed day has at least one and at most 86400 seconds |
| ActivityDays.TotalIsMeasure | backend/app/modules/activity.py:28-49 | the days add up to the measure of the union |
| ActivityDays.Clip | backend/app/modules/activity.py:141-144 | only nonempty intervals within the window are kept |
| ActivityDays.ClipCovers | backend/app/modules/activity.py:141-144 | clipping keeps exactly the covered ticks of the window |
| ActivityDays.ClipKeepsOrder | backend/app/modules/activity.py:141-144 | clipping keeps the start order the merge relies on |
| ActivityDays.WatchedDays | backend/app/modules/activity.py:141-147 | clipped and split, the days hold exactly the covered ticks of the window and in all at most its length |
| ActivityDays.DayIsWatchedTime | backend/app/modules/activity.py:28-49 | a day is listed with the number of its seconds, Beijing midnight to midnight, that lie in the window and in some interval, and only if there are any |
| BankerSettlement.StakesAddUp | backend/app/modules/dice_banker.py:24-32 | the bettors' stakes on a side add up to that side's total, repeated bets included |
| BankerSettlement.PayoutAddsUp | backend/app/modules/dice_banker.py:40-45 | what the bettors get back adds up to twice the winning side, to nothing on a triple, to all stakes on a refund |
| BankerSettlement.Tally | backend/app/modules/dice_banker.py:24-31 | refuses exactly the first bad bet with its reason, else totals and per-user stakes are those of the bet list |
| BankerSettlement.Settle | backend/app/modules/dice_banker.py:22-49 | fails exactly with the first guard that fails, else pays every bettor what is due and the bank all the rest; the conservation error is unreachable |
| BankerSettlement.DicePay | backend/app/modules/dice_banker.py:36-46 | three equal dice pay nobody; else eleven points or more return twice each bettor's big stakes and ten or less twice the small ones, the bank netting the difference of the sides; a forced refund returns every stake whatever the dice |
| BankerSettlement.SettlesExactly | backend/app/modules/dice_banker.py:22-38 | a round settles exactly if capital and total can be stored, every bet is good, the capital covers the difference of the sides and, unless refunded or empty, there are three dice |
| BankerSettlement.StakeMeans | backend/app/modules/dice_banker.py:24-31 | a stake adds up one user's bets on one side, in any order |
| BankerSettlement.Conserved | backend/app/modules/dice_banker.py:45-49 | for every settled round returns and bank return add up to capital and stakes, all nets to zero, and nobody's return is negative |
| BankerSettlement.BankNet | backend/app/modules/dice_banker.py:36-46 | the bank wins the losing side and pays the winning one, takes both on a triple, nothing moves on a refund, and it never loses more than its capital |
| BankerSettlement.AdmitExactly | backend/app/modules/dice_group.py:99-131 | a number of points is admitted exactly between one and the least of balance, side capacity, integer room and pool room |
| BankerSettlement.AdmitMeans | backend/app/modules/dice_group.py:99-131 | a bet is admitted exactly if the player can pay it, the capital covers the difference of the sides with it, and integers and pool hold the new total |
| BankerSettlement.AllInIsLargest | backend/app/modules/dice_group.py:114-124 | all-in takes the largest number of points the round would have admitted |
| BankerSettlement.AllInTakesHeadroom | backend/app/modules/dice_group.py:114-131 | all-in succeeds exactly if there is headroom, and then takes all of it past the remaining guards |
| BankerSettlement.AdmitKeepsCovered | backend/app/modules/dice_group.py:125-131 | every admitted bet leaves the exposure within the collateral, the escrow within the stored integers and the pool within its cap |
| BankerSettlement.TakenBooks | backend/app/modules/dice_group.py:99-137 | over any requests the running side totals are those of the bets admitted |
| BankerSettlement.AdmittedRoundSettles | backend/app/modules/dice_group.py:99-131 | whatever was asked of an open round, no guard of its settlement can fail |
| LegacyReset.OrderedRows | backend/tools/reset_legacy_points.py:72 | the ledger ordered by time, then id: each row comes no earlier than those before it, and no sum changes |
| LegacyReset.OrderedIsPermutation | backend/tools/reset_legacy_points.py:72 | ordering keeps every row as often as it occurs |
| LegacyReset.PrefixIsUpTo | backend/tools/reset_legacy_points.py:72 | with distinct ids, the rows up to a place are those of an earlier time, or of the same and no greater id |
| LegacyReset.ReplayExactly | backend/tools/reset_legacy_points.py:88-107 | the pass accepts exactly the ledgers whose rows since the cutoff have accepted sources and never overdraw a user, and then clear = max(0, old minus spent) |
| LegacyReset.OldFirstIsOptimal | backend/tools/reset_legacy_points.py:96-105 | no other feasible way to split the spending leaves a user more |
| LegacyReset.FeasibleMeansFunded | backend/tools/reset_legacy_points.py:96-101 | if any split is feasible, no running balance is negative |
| LegacyReset.OldFirstIsFeasible | backend/tools/reset_legacy_points.py:96-105 | if the running balance never falls below zero, taking from the old funds first is feasible and leaves exactly what the pass retains |
| LegacyReset.SplitExistsExactly | backend/tools/reset_legacy_points.py:96-101 | a user's spending can be split exactly if the running balance never falls below zero |
| LegacyReset.ReplaySucceedsExactly | backend/tools/reset_legacy_points.py:88-107 | the pass accepts exactly the ledgers of accepted sources in which every user's spending can be split in some way: old-first never reports a deficit where another split would do |
| ResetTool.Tally | backend/tools/reset_legacy_points.py:73-82 | the first pass gives every member and ledger user what was held at the cutoff and is held now |
| ResetTool.Guard | backend/tools/reset_legacy_points.py:83-87 | refuses exactly if some balance is negative, else puts all old funds up for clearing |
| ResetTool.Open | backend/tools/reset_legacy_points.py:71-87 | both together open exactly the buckets the ledger implies, or refuse |
| ResetTool.Spend | backend/tools/reset_legacy_points.py:88-107 | the loop computes the chronological replay, and fails at the first offending row with its id |
| ResetTool.ChargeRow | backend/tools/reset_legacy_points.py:91-107 | one row credits the retain, or debits the old funds first, or is refused |
| ResetTool.BucketsHold | backend/tools/reset_legacy_points.py:108-111 | after an accepted pass every bucket satisfies its invariant, so that guard never fires |
| ResetTool.Summarise | backend/tools/reset_legacy_points.py:112-116 | the summary holds the counts and sums over all users |
| ResetTool.Database.Preview | backend/tools/reset_legacy_points.py:64-120 | returns the recorded report, the refusal, or the report the ledger implies; a first one succeeds exactly if no user's sum before the cutoff or over all is negative, every row since has one of the four sources, and no user's sum up to such a row is negative |
| ResetTool.AcceptsExactly | backend/tools/reset_legacy_points.py:64-120 | over the ledger as stored: a first preview succeeds exactly if all sums before the cutoff and all balances are nonnegative, every row since has a known source and leaves its user's sum up to then nonnegative |
| ResetTool.ReportedUsers | backend/tools/reset_legacy_points.py:73-77 | a report lists every member and every user of the ledger, nobody else |
| ResetTool.SummaryCounts | backend/tools/reset_legacy_points.py:112-114 | the summary counts the users with something to clear and with something to keep |
| ResetTool.MaxIdMeans | backend/tools/reset_legacy_points.py:117 | the greatest id is that of some row and no row's is greater |
| ResetTool.SortedUsers | backend/tools/reset_legacy_points.py:108 | the users in code point order, each once |
| ResetTool.Database.InsertClearing | backend/tools/reset_legacy_points.py:141-144 | a user with old funds left gets one row that clears them, any other none |
| ResetTool.Database.AppendClearing | backend/tools/reset_legacy_points.py:140-144 | appends only rows that clear a user's reported old funds, in the order of the users: every balance and the grand total fall by exactly those |
| ResetTool.Database.Apply | backend/tools/reset_legacy_points.py:123-151 | every refusal leaves the database as it was; success appends the clearing rows and the one receipt |
| ResetTool.Database.Commit | backend/tools/reset_legacy_points.py:137-148 | the writing part appends the clearing rows and records the receipt of this batch |
| ResetTool.AppliesExactly | backend/tools/reset_legacy_points.py:123-151 | a first apply succeeds exactly on an acceptable ledger, under its preview's hash, from the cutoff on; otherwise nothing changes |
| ResetTool.ReportedBucket | backend/tools/reset_legacy_points.py:64-116 | a fresh report gives each user funds at the cutoff and now, clear = max(0, old minus spent), retain = the rest, and what was earned and spent, all by the ledger's sums |
| ResetTool.ResetKeepsEarnings | backend/tools/reset_legacy_points.py:123-148 | the first success leaves each user exactly the reported retain and lowers the grand total by the reported clear |
| ResetTool.OneReceiptEver | backend/tools/reset_legacy_points.py:37-48 | over any sequence of calls there is at most one receipt, and it never changes |
| ResetTool.ResetsOnce | backend/tools/reset_legacy_points.py:37-48 | after a success no later call changes the database: the same batch, cutoff and hash give the same report, any other batch or cutoff is refused |
| DiceOutbox.Outbox.Queue | backend/app/modules/dice.py:146-148 | one pending row per purpose and recipient, a second insert does nothing |
| DiceOutbox.Outbox.FirstDue | backend/app/modules/bot_dice.py:322 | finds the due pending row with the least id, or there is none |
| DiceOutbox.Outbox.SweepExpired | backend/app/modules/bot_dice.py:319-321 | exactly the sends whose lease has run out become unknown |
| DiceOutbox.Outbox.TakeFirst | backend/app/modules/bot_dice.py:322-340 | the first due row is leased or dropped, whatever else is in the table stays |
| DiceOutbox.Outbox.ClaimNext | backend/app/modules/bot_dice.py:319-340 | the pending row with the least id that is due is leased for ninety seconds, or dropped exactly when its round has closed or its addressee changed; sends whose lease has run out become unknown, no other row changes |
| DiceOutbox.Outbox.FinishGood | backend/app/modules/bot_dice.py:364-368 | only the holder of the row's lease marks it sent; the answer says whether the message is the row's |
| DiceOutbox.Outbox.FinishBad | backend/app/modules/bot_dice.py:373-375 | under the row's lease a retryable failure makes it pending, a refusal failed, anything else unknown, due at the claim's time plus ten seconds or the server's wish, whichever is longer; under another lease nothing changes |
| DiceOutbox.Outbox.BindReceipt | backend/app/modules/bot_dice.py:207-212 | a pressed button of the message settles an uncertain row and nothing else |
| DiceOutbox.Outbox.Recover | backend/app/modules/dice.py:251-267 | the operator settles or requeues unknown and failed rows only, and acknowledges reports only |
| DiceOutbox.RunKeepsInv | backend/app/modules/bot_dice.py:313-375 | over every interleaving each claim is paid for by the row, a resend, or a report that the send was not accepted; what was accepted or asked for again is never taken back |
| DiceOutbox.AtMostOnce | backend/app/modules/bot_dice.py:313-375 | with crashes, expiring leases and buttons at any point, at most one message per row is accepted and one send is in flight, plus one per explicit resend |
| DiceOutbox.UnknownStays | backend/app/modules/bot_dice.py:373-375 | in every run from an unknown row to a new attempt, either the operator asks for it or the holder of the row's own lease reports that its send was not accepted and can be retried |
| DiceOutbox.RetryIsSentAgain | backend/app/modules/bot_dice.py:373-375 | after a retryable failure of the row's own send it can be claimed at every moment from its due time on, and at none before |
| DiceOutbox.RefusalNeedsOperator | backend/app/modules/bot_dice.py:373-375 | after a refusal the row is failed, after a lost receipt unknown, and in no run without a resend can it be claimed again |
| DiceOutbox.SilenceIsUnknown | backend/app/modules/bot_dice.py:319-321 | a send nobody reports on becomes unknown exactly when its lease has run out, and is not claimed |
| DiceOutbox.ConfirmedIsSent | backend/app/modules/bot_dice.py:366 | a confirmed send under the row's lease is recorded as sent with its message |
| DiceOutbox.ClaimHoldsLease | backend/app/modules/bot_dice.py:338-340 | a fresh row is claimed at once, for ninety seconds |
| DiceOutbox.SentIsFinalExactly | backend/app/modules/bot_dice.py:375 | a sent row can be taken out of sent exactly if a send is still in flight under the lease it carries |
| DiceOutbox.SentAbsorbs | backend/app/modules/bot_dice.py:366 | if no row is acknowledged while a send is in flight under its lease, sent is never left and the message id never changes |
| DiceOutbox.SentCanBeUndone | backend/app/modules/dice.py:261 | otherwise a run exists in which an acknowledged row is sent again and its message id overwritten |
| CardRefresh.Card.Begin | backend/app/modules/bot_dice_group.py:97-107 | a refresh starts exactly when no lease, due or retry time is ahead and the row is dirty or ticking; it takes token, lease and the revision to show |
| CardRefresh.Card.Finish | backend/app/modules/bot_dice_group.py:114-117 | only the current token's outcome is recorded |
| CardRefresh.Card.Bump | backend/app/modules/bot_dice_group.py:149 | every change raises the revision by one; a bet keeps a due time already set, a button clears it |
| CardRefresh.RenderedIsFenced | backend/app/modules/bot_dice_group.py:82-119 | over every run, late finishers included, the rendered revision never falls, never exceeds the revision, and was displayed by some edit |
| CardRefresh.StartHoldsInv | backend/app/modules/bot_dice_group.py:82-119 | a new round satisfies the invariant |
| CardRefresh.NoUpdateLost | backend/app/modules/bot_dice_group.py:101-115 | whatever happens between the two transactions of a refresh that is still current: when it records its edit, the row is behind by exactly the bumps in between, and dirty exactly if there were any |
| CardRefresh.BumpNeedsNewRefresh | backend/app/modules/bot_dice_group.py:97-117 | a revision raised with any number of edits in flight leaves the row dirty, however all of them end, until another refresh begins |
| CardRefresh.DirtyIsRefreshed | backend/app/modules/bot_dice_group.py:98-100 | a dirty row can always be refreshed once its own times have come and one lease has passed |
| CardRefresh.BeginsExactly | backend/app/modules/bot_dice_group.py:98-100 | some refresh can begin exactly if no lease, due or retry time is ahead and the row is ticking, behind, or shows another message |
| CardRefresh.FailureWaits | backend/app/modules/bot_dice_group.py:117 | after a failed edit the next refresh begins exactly from three seconds and the server's wish on |
| CardRefresh.FailureHolds | backend/app/modules/bot_dice_group.py:117 | in no run does a refresh begin sooner, whatever is bumped or reported late meanwhile |
| CardRefresh.SuccessWaits | backend/app/modules/bot_dice_group.py:115 | after a recorded edit the next begins exactly if the revision was raised since its snapshot, two seconds later |
| CardRefresh.LostRefreshWaits | backend/app/modules/bot_dice_group.py:107 | a refresh that is lost holds the row for exactly ninety seconds |
| CardRefresh.PromptRunsShowNewest | backend/app/modules/bot_dice_group.py:108-117 | if every edit lands within its lease, the message always displays the newest edit there was |
| CardRefresh.StaleExactly | backend/app/modules/bot_dice_group.py:107-115 | a refresh begun in any reachable world with prompt edits before: its edit can land at a given time over a newer recorded one exactly if its lease has run out by then |
| CardRefresh.OvertakenGoesStale | backend/app/modules/bot_dice_group.py:107-115 | in every reachable world any edit on its way can be overtaken once leases and retry times have passed, and then displays an older revision over a clean row |
| CardRefresh.StaleEditStays | backend/app/modules/bot_dice_group.py:111-115 | a run from a new round that ends with a clean row over an outdated message |
| CleanupJobs.JobTable.Find | backend/app/modules/checkin_cleanup.py:32 | finds the bot's job with that key, or there is none |
| CleanupJobs.JobTable.Enqueue | backend/app/modules/checkin_cleanup.py:22-39 | records a trusted target once; the same message with another provenance is refused and nothing changes |
| CleanupJobs.JobTable.First | backend/app/modules/checkin_cleanup.py:44 | finds the first eligible job in the service's order, or there is none |
| CleanupJobs.JobTable.ClaimJob | backend/app/modules/checkin_cleanup.py:41-58 | hands out that job, due and not expired, under the new token; a foreign job is blocked, an expired one closed, no other job changes |
| CleanupJobs.JobTable.Finish | backend/app/modules/checkin_cleanup.py:60-66 | settles the job exactly if it is running under that token |
| CleanupJobs.JobTable.RetryBlocked | backend/app/modules/checkin_cleanup.py:76-78 | requeues exactly the bot's blocked and failed jobs of the kind that have not expired |
| CleanupJobs.BackoffShape | backend/app/modules/command_cleanup.py:150 | the pause honours the server's wish, never shrinks from try to try, and is between five seconds and five minutes on its own |
| CleanupJobs.BackoffTable | backend/app/modules/command_cleanup.py:150 | the pauses are 10, 20, 40, 80, 160 and then 300 seconds, or longer if the server asks for it |
| CleanupJobs.AnswerIsRecorded | backend/app/modules/command_cleanup.py:142-151 | a report under the current lease is what the job records: deleted, gone, blocked, or for no answer queued before the twentieth try and failed from it on |
| CleanupJobs.NoAnswerIsTriedAgain | backend/app/modules/command_cleanup.py:148-151 | a try without an answer is repeated exactly from the end of its pause until the job expires |
| CleanupJobs.SettledIsNotTried | backend/app/modules/command_cleanup.py:142-151 | no other answer is followed by a try |
| CleanupJobs.LostWorkerIsReplaced | backend/app/modules/command_cleanup.py:59-70 | an unreported job is handed out again exactly from the end of its lease until it expires |
| CleanupJobs.LeaseIsFortyFive | backend/app/modules/command_cleanup.py:69 | handing out counts a try and leases the job for 45 seconds |
| CleanupJobs.NewJobIsHanded | backend/app/modules/checkin_cleanup.py:37-38 | a new check-in deletion is handed out from a minute on for 48 hours, a command's at once for 47 |
| CleanupJobs.LeasesNeverOverlap | backend/app/modules/command_cleanup.py:59-74 | over every run the leases of a job are disjoint in time and granted before expiry, its target never changes, and deleted, gone and expired are never left |
| CleanupJobs.OneLiveLease | backend/app/modules/checkin_cleanup.py:41-66 | at any moment at most one unreported lease is unexpired, and it is the one the job runs under |
| CleanupJobs.OnlyCurrentTokenSettles | backend/app/modules/command_cleanup.py:72-74 | a report changes the job exactly if it comes from the newest lease of a running job |
| CleanupJobs.TriesAreBounded | backend/app/modules/command_cleanup.py:142-151 | a job is tried at most twenty times, plus once per lost worker and per reopening |
| CleanupJobs.NewJobIsSound | backend/app/modules/checkin_cleanup.py:37-38 | a new job satisfies the invariant and the bound |
| PrewarmWatcher.PruneAgain | backend/tools/prewarm_head.py:488-492 | pruning never drops a charge that still matters at a later time |
| PrewarmWatcher.WindowWithinRecent | backend/tools/prewarm_head.py:488-492 | what any window holds that ends now or later is within the charges that count now |
| PrewarmWatcher.AdmissionKeepsCap | backend/tools/prewarm_head.py:526-572 | an admission checked some time before it is charged keeps every window of ten minutes within the cap |
| PrewarmWatcher.PumpPartitions | backend/tools/prewarm_head.py:611-667 | a pump sorts every worker into staying, leaked or released, each exactly once |
| PrewarmWatcher.PumpOutcome | backend/tools/prewarm_head.py:611-667 | after a pump running and leaked processes are again different ones and their number has fallen by the released |
| PrewarmWatcher.WorkerFate | backend/tools/prewarm_head.py:616-664 | which workers stay, leak and go, by their age and answers alone |
| PrewarmWatcher.HeldIsProduct | backend/tools/prewarm_head.py:570 | the reservation of n live workers is n times the budget |
| PrewarmWatcher.Prune | backend/tools/prewarm_head.py:490-492 | keeps exactly the charges that still count, and adds them up |
| PrewarmWatcher.Watcher.WindowUsed | backend/tools/prewarm_head.py:488-492 | prunes, and returns the bytes of all charges ever made that still count |
| PrewarmWatcher.Watcher.BudgetBlock | backend/tools/prewarm_head.py:526-556 | blocks by reservation, then by window, in terms of everything ever admitted |
| PrewarmWatcher.Watcher.Spawn | backend/tools/prewarm_head.py:560-572 | a new worker adds one slot, one reservation and one charge, and every window stays within the cap |
| PrewarmWatcher.Watcher.Admit | backend/tools/prewarm_head.py:685-687 | for every nondecreasing clock the admission loop keeps slots, reservations and window; it stops with work left only if slots, budget or disk forbid more |
| PrewarmWatcher.Watcher.Release | backend/tools/prewarm_head.py:588-594 | gives back exactly one budget, and the clamp at zero never takes effect |
| PrewarmWatcher.Watcher.ReapZombies | backend/tools/prewarm_head.py:596-606 | releases exactly the leaked workers that are reaped, here or elsewhere |
| PrewarmWatcher.Watcher.PumpOne | backend/tools/prewarm_head.py:612-664 | one worker stays, leaks with slot and reservation, or is released once |
| PrewarmWatcher.Watcher.Collect | backend/tools/prewarm_head.py:611-665 | the loop over the workers does that for each of them |
| PrewarmWatcher.Watcher.KeepStaying | backend/tools/prewarm_head.py:611-667 | the worker list becomes those that stay, and the accounts hold again |
| PrewarmWatcher.Watcher.Pump | backend/tools/prewarm_head.py:608-667 | a silent worker of at most a minute stays, an older one is killed and leaks exactly if it is not reaped at once, one that reported is gone; the accounts and the slot limit hold |
| PrewarmWatcher.FreeSlotFitsReservation | backend/tools/prewarm_head.py:526-530 | with a free slot the reservation limit never blocks |
| PrewarmWatcher.OpenExactly | backend/tools/prewarm_head.py:526-556 | admission is open exactly with fewer than two slots taken and room for a budget beside what the last ten minutes admitted |
| PrewarmWatcher.NeverFusedExactly | backend/tools/prewarm_head.py:526-556 | after a quiet window, with any number of slots taken, admission is open exactly if a slot is free and the budget fits the window |
| PrewarmWatcher.OversizedNeverAdmits | backend/tools/prewarm_head.py:531-532 | a budget larger than the window never admits anything |
| LogFollower.LinesPartition | backend/tools/prewarm_head.py:293-304 | cutting loses and invents nothing; every line ends in its only newline and the rest has none |
| LogFollower.LinesAppend | backend/tools/prewarm_head.py:293-304 | cutting a longer input is cutting its first part, then that part's rest with the second |
| LogFollower.LinesOfLines | backend/tools/prewarm_head.py:293-304 | lines put together are cut into themselves |
| LogFollower.Follower.Open | backend/tools/prewarm_head.py:243-262 | a file is entered at its end, or after the line the backfill starts in, or at its head if it is short |
| LogFollower.Follower.Poll | backend/tools/prewarm_head.py:270-305 | returns exactly the complete lines from the last position, or from the head after truncation or under a new inode; what is left holds no line |
| LogFollower.FirstPollAtEnd | backend/tools/prewarm_head.py:259-262 | a first poll without backfill returns nothing and goes to the end of the file |
| LogFollower.FirstPollOfShort | backend/tools/prewarm_head.py:256-257 | a file no longer than the backfill is returned whole, up to its last newline |
| LogFollower.FirstPollOfLong | backend/tools/prewarm_head.py:253-255 | of a longer file the first poll returns the lines of its last backfill bytes but the first, and none if no line ends there |
| LogFollower.NextPollOfGrown | backend/tools/prewarm_head.py:291-305 | a later poll of the same file returns the lines behind the position and stops behind the last newline |
| LogFollower.NextPollOfOther | backend/tools/prewarm_head.py:276-290 | another inode, or fewer bytes than the position, is read from its head; a missing file yields nothing |
| LogFollower.ReadLines | backend/tools/prewarm_head.py:291-305 | the read loop returns exactly the complete lines and stops before an unfinished one |
| LogFollower.StepFollows | backend/tools/prewarm_head.py:270-305 | an append or a poll keeps what was returned equal to the file up to the position |
| LogFollower.ExactlyOnce | backend/tools/prewarm_head.py:270-305 | for every interleaving of appends and polls, after a poll every complete line has been returned once and in order |
| LogFollower.RunTied | backend/tools/prewarm_head.py:270-305 | the follower's own polls, over any appends to the file it reads, are the polls of that tail |
| LogFollower.LifeExactly | backend/tools/prewarm_head.py:270-305 | wherever the follower stood when a file appeared, was cut or was replaced, and whenever polls come: the lines this file's life adds are exactly those behind the starting point of its first poll that are complete by its last, and the follower is left behind them |
| LogFollower.HistoryExactly | backend/tools/prewarm_head.py:270-305 | over any run of appends, polls and rotations the follower returns those lines of each life, one life after the other |
| LogFollower.NothingLostExactly | backend/tools/prewarm_head.py:270-305 | over any such run no line of any file is lost exactly if every life is polled from its head once it holds a line (another inode, fewer bytes than the position held or, after a gap a poll has seen, no more than the backfill) and polled again after its last line was completed |
| LogFollower.RotatedLineIsLost | backend/tools/prewarm_head.py:279-285 | a run in which a line written after the last poll is gone when the file is renamed away |
| LogFollower.RestEmptyExactly | backend/tools/prewarm_head.py:298-304 | an input is cut without rest exactly if it is empty or ends in a newline |
| LogFollower.WholeLinesExactly | backend/tools/prewarm_head.py:232-234 | what is returned from a position on are lines of the file exactly if it is a line boundary; otherwise the first lacks its beginning |
| LogFollower.OpensOnBoundaryExactly | backend/tools/prewarm_head.py:253-262 | a file is entered on a boundary exactly if what is skipped ends in a newline, as it does when a newline lies within the backfill |
| LogFollower.FirstLineWholeExactly | backend/tools/prewarm_head.py:270-305 | for every position held, the first line of a poll is whole exactly if the poll starts on a boundary |
| LogFollower.StartsOnBoundaryExactly | backend/tools/prewarm_head.py:253-290 | a poll starts on a boundary exactly if the follower opens on one, meets another inode or fewer bytes, or still has one at the position it held |
| LogTail.Receive | backend/app/adapters/live.py:977-981 | after each chunk the held ones are the last of the stream, enough for the tail, and no chunk too many |
| LogTail.Tail | backend/app/adapters/live.py:969-982 | a positive limit yields exactly the last bytes of the whole stream however it was chunked, holding less than the limit and two chunks; other limits cut the last chunk |
| LogTail.LastMeans | backend/app/adapters/live.py:982 | the last n bytes: a suffix of that length, or everything |
| LogTail.DropFirstMeans | backend/app/adapters/live.py:983-985 | what is returned lacks everything up to the first newline, and nothing if there is none |
| LogTail.LastOfSuffix | backend/app/adapters/live.py:982 | the tail can be cut from the held chunks as well as from the whole stream |
| LogTail.LimitKeptExactly | backend/app/adapters/live.py:980-982 | the result is the last limit bytes, none for a limit that is not positive, exactly if the limit is positive or the last chunk is no longer than the limit is below zero |
| LogTail.WholeLinesKept | backend/app/adapters/live.py:983-985 | if a line ends in the kept bytes, the result starts a line of the log and holds every line from there on |
| LogTail.WholeLineLostExactly | backend/app/adapters/live.py:983-985 | the dropped first line is a complete line of the log exactly if the kept bytes start on a boundary |
| RestartWatchdog.FromEnv | deploy/watchdog/deck_watchdog.py:65-67 | the environment can raise threshold and limit but not lower them below two and one |
| RestartWatchdog.Watchdog.Step | deploy/watchdog/deck_watchdog.py:156-191 | one cycle's action and new state; a failed check changes nothing, a failed probe call only ends the pause |
| RestartWatchdog.FailuresExactly | deploy/watchdog/deck_watchdog.py:156-191 | after any run the stored count is the streak of unanswered probes modulo the threshold, and a restart is due exactly on every threshold-th of them |
| RestartWatchdog.StreakMeans | deploy/watchdog/deck_watchdog.py:158-175 | the streak is the number of unanswered probes since the last skipped or answered cycle |
| RestartWatchdog.RunKeepsLimit | deploy/watchdog/deck_watchdog.py:179-187 | in every run the remembered restarts are the newest, the forgotten are an hour old, and any limit + 1 restarts in a row span an hour |
| RestartWatchdog.RestartLimit | deploy/watchdog/deck_watchdog.py:179-187 | no half-open hour, wherever it begins, holds more restarts than configured |
| RestartWatchdog.LimitedExactly | deploy/watchdog/deck_watchdog.py:179-186 | a due restart is withheld exactly if the last hour really holds the configured number |
| RestartWatchdog.ClosedHourExactly | deploy/watchdog/deck_watchdog.py:179-187 | an hour with both its ends holds at most twice the configured number, and more than that number exactly if some restart and the one that many later lie on its two ends |
| RestartWatchdog.ClosedHourMayHoldTwice | deploy/watchdog/deck_watchdog.py:179-187 | for every configuration a run reaches twice the configured number |
| Text.AscendingUnique | agent/meterd.py:47 | there is only one sorted list of given tags |
| Text.LessMeans | agent/meterd.py:47 | strings are ordered by the first code point in which they differ, a beginning before what it begins |
| DenyMap.RenderDependsOnSet | agent/meterd.py:46-48 | the printed text depends on nothing but the set of stripped nonempty tags |
| DenyMap.RenderLooksLike | agent/meterd.py:46-52 | the text of no tag and of two |
| DenyMap.MatchExactly | agent/meterd.py:138 | the scan at a line start finds exactly the pattern's match, which is unique |
| DenyMap.ScanExactly | agent/meterd.py:136-138 | of any text, the tags read are exactly those the pattern matches at the start of some line |
| DenyMap.SameTextExactly | agent/meterd.py:46-52 | for tags that fit the pattern, equal text means equal sets and conversely |
| DenyMap.RoundTripExactly | agent/meterd.py:136-138 | the service reads back exactly the tags it printed, the empty set included, exactly if all of them fit the pattern |
| Text.StripMeans | agent/meterd.py:47 | stripping takes off only white space and only at the ends |
| DenyPublisher.Publisher.Publish | agent/meterd.py:72-122 | state and answer of a publish for every outcome of its steps |
| DenyPublisher.GoodPublishWorks | agent/meterd.py:72-122 | new or forced tags get into the file and into nginx if nothing fails |
| DenyPublisher.AnswerMeans | agent/meterd.py:72-122 | which steps each answer tells of: skipped, and the one step that failed |
| DenyPublisher.RaisesExactly | agent/meterd.py:84-110 | the call raises exactly if a step gives no verdict or a refused text cannot be taken back |
| DenyPublisher.PublishKeepsHonest | agent/meterd.py:72-122 | the remembered digest stays that of the text in force, except exactly when a reload takes effect without an answer and changes it |
| DenyPublisher.OkMeansInForce | agent/meterd.py:72-122 | an ok answer means the rendered tags are in force, also when nothing was done |
| DenyPublisher.FailureLeavesInForce | agent/meterd.py:84-116 | any other answer leaves in force what was; a refused test restores the state |
| DenyPublisher.FileAfterOkExactly | agent/meterd.py:75-77 | after an ok answer the file holds the tags exactly if the publish was not skipped or it held them before |
| DenyPublisher.HonestRunsExactly | agent/meterd.py:72-122 | what the publisher remembers is in force at every moment of a run exactly if, while something is remembered, no unanswered reload and no start of nginx puts another text in force |
| DenyPublisher.OkAfterRun | agent/meterd.py:72-122 | from a fresh start through any such run, an ok answer means its tags are in force |
| DenyPublisher.StepKeepsHonest | agent/meterd.py:72-122 | each single publish or start of nginx keeps the memory honest exactly under that condition |
| DenyPublisher.FailedTextStays | agent/meterd.py:112-116 | for any two different tag sets, a failed reload leaves its text in the file while the old tags are reported ok |
| DeviceGroups.KeysExactly | backend/app/modules/device_groups.py:45-50 | a group is listed exactly if some record has its key, and no group is empty |
| DeviceGroups.SameGroupExactly | backend/app/modules/device_groups.py:45-50 | two records share a group exactly if they are one user's and have the same known name, or unknown ones and the same id |
| DeviceGroups.UnknownExactly | backend/app/modules/device_groups.py:18-22 | the unknown names are the five labels in any case of letters, the k also as Kelvin sign |
| DeviceGroups.FirstSeenFirst | backend/app/modules/device_groups.py:51-63 | groups, and records within them, are listed in order of first appearance |
| DeviceGroups.Classify | backend/app/modules/device_groups.py:46-50 | the key is the trimmed name, or the device id if the name is an unknown label |
| DeviceGroups.Place | backend/app/modules/device_groups.py:51-62 | placing a record updates its group and no other, new groups are listed last |
| DeviceGroups.Values | backend/app/modules/device_groups.py:63 | the groups in order of first appearance |
| DeviceGroups.GroupRecords | backend/app/modules/device_groups.py:38-63 | one group per key in order of first appearance, its records in input order, with their counts |
| DeviceGroups.Partition | backend/app/modules/device_groups.py:38-63 | every record is in exactly one group |
| DeviceGroups.CountsAddUp | backend/app/modules/device_groups.py:61 | the record counts add up to the number of records |
| DeviceGroups.ActiveKeysAre | backend/app/modules/device_groups.py:62 | the groups with an unblocked record are those of the unblocked records |
| DeviceGroups.UnknownAgreesExactly | backend/app/modules/device_groups.py:18-22 | SQL takes a label as unknown exactly if Python does and it holds no Kelvin sign |
| DeviceGroups.MergesExactly | backend/app/modules/device_groups.py:25-35 | SQL never splits a listed group and merges records of different groups exactly if they clash |
| DeviceGroups.CountAgreesExactly | backend/app/modules/device_groups.py:25-35 | with the table's key the count never exceeds the number of listed groups with an unblocked record and equals it exactly if no two unblocked records clash |
| DeviceGroups.CountsMayDiffer | backend/app/modules/device_groups.py:25-35 | two devices for which list and count differ |

## Left out

- Floating point: times and rates are reals, byte counts and points integers; rounding is not modelled. Thread scheduling appears only as the order of steps.
- HTTP, Telegram, Emby and SQLite themselves, sockets, subprocesses and file renames: their outcomes are inputs. SQL queries are written out as what they select; the optional account filter of the device count is a choice of the rows.
- HMAC, SHA-256 and JSON: digests are arbitrary functions, collision-free where that is required and said so.
- AggregateLimiter: signature checks, reading and writing of the relayed stream; only the order of join, reserve and leave is kept.
- ActivityDays: the sampling of sessions and the level rules built on the result.
- PrewarmWatcher: log lines, counters, the resolver thread, deduplication and queue expiry; the disk check is one yes or no. While blocked the watcher also prunes its charges to write a log line, which by `PruneAgain` shows nowhere.
- LogFollower.Follower.Poll: a poll sees one consistent file, so a rotation between stat and open is not modelled; an inode number used again counts as the same file; positions count characters as stored, without decoding or newline translation.
- ResetTool.Database.Preview: where it says exactly what is accepted, the ids of the ledger are distinct, as its primary key makes them.
- ResetTool.Database.AppendClearing: ids of concurrent writers are not modelled. Ledger fields that are not integers are refused by the source before anything else and do not occur in the model.
- DiceOutbox.AtMostOnce: the clock of a run does not go back. The source reads the wall clock before each claiming transaction, so two workers' readings can arrive out of order; such runs, and a clock that is set back, are not modelled. The same holds of the runs of CardRefresh and CleanupJobs.
- DiceOutbox.Outbox.ClaimNext: the card text refreshed at claim time, the round's own state change and the clean-up of duplicate messages are not modelled; one round's rows are the whole table.
- BankerSettlement.AdmitExactly: identity checks, replayed messages and the closing of a full pool around a bet are not modelled, only its money guards.
- CardRefresh.Card.Bump: the card's page and view, and what the card says.
- CleanupJobs.JobTable.Enqueue: decimal digits are ASCII only; texts of errors and summaries are not kept. Two of the services that derive from the check-in one differ in their name only.
- RestartWatchdog.Watchdog.Step: how the skip reason is found (maintenance flag, unit state, grace time) is an input.
- DenyPublisher.Publisher.Publish: the write itself is atomic; edits of the file by others are not modelled.
- LogTail.WholeLinesKept: replacement of undecodable bytes is not modelled.
- DeviceGroups.GroupRecords: of Python's case mapping only what can produce a letter of an unknown label is modelled; display fields other than name, kind, counts and records do not occur.
- The access policy's connection table (register, apply, prune), settings, access rules, pagination, caches and the other games: easy members, or presentation.
