# Dispatch protocol of the reachability checker: a verified model

The backend keeps three tables. A *check* asks for one target to be probed, a *run* is that
check assigned to one node, a *result* is one submission for a run. Agents poll for their
queued runs, execute them and post results in batches; a sweeper times out runs nobody
reported; a user may cancel. The status of a check is never set from outside: it is derived
from its runs. A Telegram bot creates checks in chunks, follows their progress and shows one
row per target.

The project models that protocol, the two clients that drive it, and three self-contained
pieces (address expansion, the periodic report scheduler, the scanner's worker pool).

| files | part of the system |
|---|---|
| `Records`, `Lifecycle`, `Effects`, `Store` | the tables, each transaction as a function on them and in terms of rows, statuses and numbers alone, every serial run of the protocol, and the store as an object whose methods are proved to have exactly those effects |
| `Interleaving`, `Aggregation`, `Guarantees`, `Commits`, `Races`, `Stuck` | the same transactions statement by statement at READ COMMITTED: uncommitted row versions, row locks, waiting, re-reading the latest committed row, SKIP LOCKED, aborts; what each transaction commits, when the aggregate survives that, and what happens when it does not |
| `Handlers` | the results batch and the create fan-out over the store |
| `Drain` | how one node's queue empties over successive polls |
| `Poller`, `Waves`, `Reporting` | one agent tick as steps of admitter, workers, closer and collector; how long a tick takes; how long a finished result waits |
| `Concurrency`, `Paging`, `Merge`, `Scan`, `FollowUp` | the bot: bounded concurrency, page loops, merging checks into rows, the tracked scan, and the two passes of an ordinary ping |
| `Bits`, `Text`, `Ipv4`, `Targets` | 32-bit JavaScript operators, decimal text, addresses, ranges, CIDR blocks, target lists |
| `Scheduler`, `ProbePool`, `Boot` | the report scheduler, the scanner's pool, the boot race for the virtual node |

## What is proved

**The status is a derived aggregate.** In every serial run, with late, repeated and
out-of-order submissions, each check that is not cancelled is open while one of its runs is
active and otherwise shows their verdict (`Lifecycle.ReachableAgrees`): completed if every run
is done, failed if none is, partial otherwise (`Effects.ReachableByStatus`); nothing is taken back
(`Lifecycle.NothingRegresses`); a sweep settles everything old enough
(`Lifecycle.SweepSettles`); the result log holds exactly the accepted submissions
(`Lifecycle.LedgerCountsSubmissions`). What each transaction does to each row is stated without
the functions that compute it (`Effects`, and the contracts of `Store`).

**What interleaving keeps and what it loses.** However the statements of any number of
transactions interleave, a settled check has no active run, nothing regresses, a run is
handed out by at most one claim, and every commit changes exactly the rows its request asked
for (`Commits.EveryCommitAsAsked`). "The status shows the aggregate of the runs" does not
survive, because two submissions can each count the runs before the other has committed. If
every count of a check is taken while no other transaction holds uncommitted ends of its
runs, the check shows its aggregate at every moment
(`Guarantees.CountingAloneAggregates`), and a check with a single run always meets that
condition (`Guarantees.OneRunAggregates`). Beyond that the answer is exact: whatever has
happened so far, with nothing in progress, a check that has runs can come to rest with a
status its runs do not bear out if and only if it is not cancelled and has more than one run
(`Races.LosesIffManyRuns`). Two things can go wrong. Two repeated submissions can leave a
settled check with the wrong verdict (`Races.WrongVerdict`). Two completions can leave an open
check open with all its runs over; that can happen exactly while a second run of it is still
active (`Stuck.SticksIffTwoActive`). Both are reached from the empty system by creating one check for
two nodes (`Races.FanOutDecides`). Such a check is put right only by another report of one of
its runs or, while it is open, by cancelling it; no sweep touches it
(`Lifecycle.RepairedIffReached`). The bot dispatches every check to one node, so its checks
are the safe ones.

**The clients.** A tick never deadlocks, never runs more than its limit, is bounded in steps
and in time, and flushes every result once. A scan returns one row per target in target
order and never a pending one, and short of its ceiling every row found its check, over, for
every spec; a two-pass ping asks again about exactly what was open. A user who is not dropped
mid-report never has two reports in flight, whatever other users do
(`Scheduler.SingleFlight`); whether a tick drops the user mid-report decides whether two can
come (`Scheduler.DroppingDecides`).

Where the code and its comments differ the model follows the code. The comment on
`streamResults` (`internal/poller/poller.go:155-158`) promises each result within one flush
interval of finishing, whatever the batch size. The collector starts only after the last job
has been admitted, so a result is reported within one interval of that moment or of its end,
whichever is later (`Reporting.ReportBound`). The promise therefore holds of all ticks with n
jobs if and only if n is at most the number of slots plus one, and with more jobs a result can
wait for as long as one likes (`Reporting.PromiseIff`, `Reporting.SomeResultWaits`).

## Model

| member | source | states |
|---|---|---|
| Lifecycle.StepKeepsInv | internal/store/check_runs.go:114-236 | any request applied to tables whose statuses agree with their runs leaves them agreeing: aggregate per check, ledger per run, no claimed run under a pending check |
| Lifecycle.ReachableAgrees | internal/store/check_runs.go:202-236 | in every state of every serial run each non-cancelled check with runs is open iff a run is active and otherwise equals the done/error verdict; the last result of a run agrees with its status |
| Lifecycle.NothingRegresses | internal/store/check_runs.go:114-236 | between any two moments rows, owners and targets stay, cancelled is never left, a settled check never reopens, and the rank queued, out, over of a run never rises |
| Lifecycle.SweepSettles | internal/store/check_runs.go:154-200 | right after a sweep no run older than the grace period is active, and every check with only such runs is over (which rows a sweep changes is `Effects.SweepByRow`) |
| Lifecycle.LedgerCountsSubmissions | internal/store/check_runs.go:126-145 | a run has exactly as many result rows as submissions for it by the node it is assigned to, repeats included; submissions by other nodes leave no row |
| Lifecycle.ReachableStamped | internal/store/check_runs.go:128-165 | in every reachable state dispatched runs know when, and a run or check has an end time exactly when it is over |
| Lifecycle.CompleteIsLocal | internal/store/check_runs.go:114-152 | a submission changes its run, its check and the log, and no other row |
| Lifecycle.CancelStopsCheck | internal/store/checks.go:108-144 | cancelling leaves no active run of the check, keeps its finished runs and every other check |
| Lifecycle.RepairedIffReached | internal/store/check_runs.go:114-236 | a check whose runs are all over but whose status does not show it is put right by exactly two requests, a report of one of its runs and a cancellation that applies to it; every other request, any sweep included, leaves it as it is |
| Records.AgreesIsShows | internal/store/check_runs.go:202-236 | a check's status agrees with its runs exactly if it is cancelled, or pending without runs, open while one is queued, dispatched or executing, and once all are over completed iff all are done, failed iff none is and partial iff some are and some are not |
| Effects.ReachableByStatus | internal/store/check_runs.go:202-236 | the same for every state of every serial run, in the runs' statuses alone |
| Effects.FinalizeByStatus | internal/store/check_runs.go:202-236 | finalizing changes one check at most, not while a run of it is under way nor once it is cancelled, and otherwise to what its runs amount to |
| Effects.ReportByRow | internal/store/check_runs.go:126-149 | a report for a run assigned to that node ends the run as reported and adds one log row; any other changes nothing |
| Effects.ReportByStatus | internal/store/check_runs.go:145-149 | the run's check then shows what its runs amount to, unless it was cancelled or one is still under way |
| Effects.SweepByRow | internal/store/check_runs.go:160-180 | a sweep turns a run into timed out if and only if it was queued, dispatched or executing and created before now minus grace, and changes no other run |
| Effects.SweepByCheck | internal/store/check_runs.go:181-200 | a sweep settles exactly the checks that lost a run, have none under way and are not cancelled |
| Effects.PickByRow | internal/store/check_runs.go:46-65 | a pick is the oldest of the node's queued runs, min(available, limit if 1 to 100 else 50) of them, none twice |
| Effects.ClaimByRow | internal/store/check_runs.go:80-102 | a claim changes exactly the picked runs, to dispatched, and starts exactly the pending checks among theirs |
| Effects.CancelByRow | internal/store/checks.go:108-144 | goes through exactly for the account's own pending or running check; cancels it, errors its unfinished runs, changes nothing else |
| Effects.FanOutByRow | internal/store/check_runs.go:13-40 | one queued run per node under fresh distinct keys, or no change |
| Store.Store.CreateCheck | internal/store/checks.go:37-44 | inserts one pending row under a new key or changes nothing |
| Store.Store.CreateCheckRuns | internal/store/check_runs.go:13-40 | one queued run per node in node order with nothing else touched, or none at all when the check is missing or a key clashes |
| Store.Store.SelectQueued | internal/store/check_runs.go:56-65 | picks min(limit, available) of the node's queued runs, none twice, none younger than one left behind |
| Store.Store.ClaimQueuedRuns | internal/store/check_runs.go:46-108 | hands out the oldest runs queued for the node, at most the limit if it is 1 to 100 and 50 otherwise, each with its own check and that check's target; exactly those become dispatched, exactly the pending checks among theirs running |
| Store.Store.CompleteCheckRun | internal/store/check_runs.go:110-152 | found exactly if the run exists and is assigned to the node, else nothing changes; then the run is done or failed as reported, the log has one more row, and only the run's check may change, to what its runs amount to |
| Store.Store.FinalizeCheckStatus | internal/store/check_runs.go:202-236 | leaves a check with a queued, dispatched or executing run and a cancelled check alone; otherwise completed iff all its runs are done, failed iff none is, partial otherwise |
| Store.Store.TimeoutStaleRuns | internal/store/check_runs.go:154-200 | exactly the queued, dispatched or executing runs created before now minus the grace period become timed out, every other run row is unchanged, the count is the number of the former, and every check that lost one is finalized, whatever the order |
| Store.Store.CancelCheck | internal/store/checks.go:108-144 | found exactly for a pending or running check of the account; it becomes cancelled and its unfinished runs errored, no other row changes; otherwise nothing changes |
| Interleaving.StepKeepsInv | internal/store/check_runs.go:115-149 | one statement of any transaction, a commit or an abort keeps the invariant on committed rows, uncommitted versions, locks and program points |
| Guarantees.EveryInterleaving | internal/store/check_runs.go:46-236 | the invariant holds in every state of every interleaving, aborts included |
| Guarantees.SettledIsQuiet | internal/store/check_runs.go:204-235 | however statements interleave, a committed completed, partial or failed check has runs and each of them is done, errored or timed out |
| Guarantees.ClaimedIsStarted | internal/store/check_runs.go:85-102 | a run out with a node never belongs to a pending check, at any moment |
| Guarantees.NothingRegresses | internal/store/checks.go:119-141 | interleaving takes back no more than serial runs: cancelled is never left, settled never reopens, ranks never rise |
| Guarantees.HandedOutOnce | internal/store/check_runs.go:42-65 | committed claims hand out disjoint sets of runs, each to its own node and each still queued at that commit, for any number of backends draining a queue |
| Guarantees.CountingAloneAggregates | internal/store/check_runs.go:204-235 | if a check's runs are never counted while another transaction holds uncommitted ends of them, it agrees with its runs in every state of the interleaving: open while one is under way, then completed, failed or partial as they are all, none or partly done |
| Guarantees.OneRunAggregates | internal/store/check_runs.go:127-149 | a check with one run agrees with it, in the same words, in every state of every interleaving |
| Commits.EveryCommitAsAsked | internal/store/check_runs.go:46-236 | in every interleaving each commit changes exactly what the request that began it asked for: a report its own node's run to the reported outcome, a sweep only unfinished runs created before its cutoff (and all of those it began with are over), a claim at most its limit of its node's queued runs and only their pending checks, a cancellation an open check of the account and only its runs, a fan-out one queued run per row |
| Commits.OpenAsAsked | internal/store/check_runs.go:114-149 | an open transaction was begun by a request and at every moment has written only what that asks for, on rows still as it found them |
| Commits.OnlyCommitsChange | internal/store/check_runs.go:114-149 | nothing but a commit and the insertion of a check changes the committed tables |
| Races.LostFinalization | internal/store/check_runs.go:114-152 | from any quiet state with two active runs left a schedule of two completions ends with all runs over, nothing in progress and the check still open |
| Races.TwoActiveCanStick | internal/store/check_runs.go:114-152 | the same from any quiet state with at least two active runs |
| Stuck.SticksIffTwoActive | internal/store/check_runs.go:204-220 | with nothing in progress, an open check with an active run can end up open with all runs over if and only if a second run is active |
| Races.WrongVerdict | internal/store/check_runs.go:114-152 | from any quiet state in which two runs failed and the others succeeded, two repeated submissions that succeed leave the check partial although every run is done |
| Races.TwoRunsCanMislead | internal/store/check_runs.go:114-152 | any quiet state with two runs of a check that is not cancelled, open or settled, leads to one in which it is settled with a verdict that is not its runs' |
| Races.LosesIffManyRuns | internal/store/check_runs.go:114-236 | in every reachable state with nothing in progress, a check with runs can come to rest without showing its aggregate if and only if it is not cancelled and has more than one run |
| Races.FanOutDecides | internal/api/public/checks.go:147-165 | a run from the empty system creates the check with one queued run per node; from there its status can be lost if and only if there is more than one node, and then in both ways, stuck open and settled wrongly |
| Handlers.Results | internal/api/agent/handler.go:93-124 | a batch applies exactly the longest prefix of runs that exist and are assigned to the node, stops at one that is missing or another node's, and answers 400, 204 or that run |
| Handlers.BatchEffect | internal/api/agent/handler.go:108-122 | an owned batch gives each run the outcome of its last submission, extends the log by the batch, and each check shows what its runs now amount to |
| Handlers.BatchByRow | internal/api/agent/handler.go:108-122 | the log grows by the batch, a run takes the result of the last submission for it and runs without one keep their status, and every check that is not cancelled shows what its runs amount to |
| Handlers.ResendChangesNoStatus | internal/api/agent/handler.go:95-124 | sending a batch again changes no run or check status while the log grows by the applied prefix |
| Handlers.OrderDoesNotMatter | internal/api/agent/handler.go:108-122 | permuting an owned batch of distinct runs gives the same statuses |
| Handlers.CreateChecks | internal/api/public/checks.go:139-167 | succeeds exactly when no generated key clashes; then each target has its check, in order and with the batch id only for several targets, with one queued run per node; otherwise the first iterations stay complete; no row is added besides these and the check of the failing iteration, and all earlier rows stay |
| Handlers.CreateAndFanOut | internal/api/public/checks.go:146-165 | one iteration: fails exactly on a key clash, and never disturbs another check's fan-out |
| Handlers.ServedByRow | internal/api/public/checks.go:139-167 | a served iteration has its pending check, with the batch id only for several targets, and exactly one queued run per node |
| Drain.DrainedInCeil | internal/store/check_runs.go:46-65 | n queued runs are gone after exactly ceil(n/L) polls and not before |
| Drain.DrainedByRow | internal/store/check_runs.go:46-65 | with L the limit from 1 to 100 and 50 otherwise, the node has a queued run before poll k if and only if k L is less than the number it started with |
| Drain.QueueAfter | internal/store/check_runs.go:46-65 | after k polls exactly n - kL runs are left, or none |
| Drain.OldestFirst | internal/store/check_runs.go:61-63 | no run of an earlier poll is younger than one of a later poll, and none is in both |
| Drain.EveryRunPolled | internal/store/check_runs.go:56-102 | every run that left the queue was in some poll |
| Poller.ReachableInv | internal/poller/poller.go:97-119 | in every state of a tick semaphore and wait group count the workers that hold them, and every result sent is in exactly one of batches, pending and channel, in order |
| Poller.NeverTooManyNeverBlocked | internal/poller/poller.go:101-113 | at most the configured number of checks, or 10 without a positive one, execute at once and a worker with a result can always send it |
| Poller.NeverStuck | internal/poller/poller.go:105-119 | until the tick has ended some step other than the flush ticker is possible |
| Poller.TickIsBounded | internal/poller/poller.go:69-120 | every schedule of n jobs ends within 5n + 3 steps, ticker firings aside |
| Poller.EveryResultFlushedOnce | internal/poller/poller.go:159-188 | the flushed batches hold every job's result exactly once in sending order, 1 to 10 per batch |
| Poller.PostsWhen | internal/poller/poller.go:163-186 | each step of a tick posts nothing or one batch: exactly ten as the tenth arrives, or what is held when the ticker fires or the channel closes |
| Poller.DrainingWaitsForAdmission | internal/poller/poller.go:105-119 | once collection has started all but MaxConcurrent jobs have given their slot back |
| Poller.DrainsAtOnceIff | internal/poller/poller.go:105-119 | collection can start before any job has given its slot back if and only if the jobs are at most the configured number, or 10 |
| Reporting.ReportBound | internal/poller/poller.go:155-188 | every result is reported within one flush interval of its job's end or of the last admission, whichever is later |
| Reporting.PromiseIff | internal/poller/poller.go:155-159 | for every wait of at least one interval: in all ticks of n jobs every result is reported within that wait of finishing, if and only if n is at most one more than the configured number of slots, or than 10 |
| Reporting.SomeResultWaits | internal/poller/poller.go:105-119 | with two jobs more than slots there is, for every wait, a tick whose first result is reported later than that after its end |
| Poller.StreamResults | internal/poller/poller.go:159-188 | for any order of arrivals and ticks the posted batches hold the arrivals in order, 1 to 10 each, whatever arrived before a firing of the ticker is posted by it, and a batch of fewer than ten is posted by a firing or by the close |
| Poller.SmallByTicker | internal/poller/poller.go:170-186 | before the close a batch of fewer than ten ends with all that had arrived when the ticker fired |
| Waves.StartBound | internal/config/config.go:39-64 | with m slots and durations of at most D, job i starts by floor(i/m) D |
| Waves.TickDuration | internal/config/config_test.go:102-112 | all n executions are over by ceil(n/m) D |
| Waves.WavesAreReached | internal/config/config.go:39-64 | when every job takes exactly D, job i starts at floor(i/m) D, so the bound cannot be lowered |
| Waves.ScheduleExists | internal/poller/poller.go:105-113 | whatever the durations, admission in job order to the first free slot gives them start times |
| Waves.NobodyFinishesEarly | internal/poller/poller.go:105-119 | with at most one job more than slots no job finishes before the last is admitted |
| Concurrency.StartsEachItemOnce | bot/src/pingachock-client.ts:564-579 | min(max(limit, 1), n) loops; calls begin in input order, once per item, never more than max(limit, 1) in flight, all begun when the loops have returned |
| Concurrency.ResultsInInputOrder | bot/src/pingachock-client.ts:567-579 | whatever the finish order, results[i] is worker(items[i]) |
| Concurrency.NeverStuck | bot/src/pingachock-client.ts:567-579 | until every loop has returned some loop can begin or some awaited call resolve |
| Concurrency.StepsTaken | bot/src/pingachock-client.ts:567-579 | every execution ends after exactly one step per item and one for each of its min(max(limit, 1), n) loops |
| Paging.ReadAllPages | bot/src/pingachock-client.ts:604-622 | with a page size up to 200 the offset loop reads every row once in floor(n/size) + 1 requests; with a larger one it stops after one request with the first 50 |
| Paging.ListRunsForChecks | internal/store/results.go:38-92 | the keys are the requested checks that have rows, each with its own rows in listing order |
| Paging.ListRunsForCheck | internal/store/results.go:12-22 | the rows of that check in listing order |
| Paging.BulkEqualsSingle | internal/store/results.go:16-92 | asking for many checks shows each exactly what asking for it alone shows |
| Paging.SelectIsInOrder | internal/store/results.go:45-60 | the selected rows are all the named checks' rows, each once, in listing order |
| Paging.JoinedIsInOrder | internal/store/results.go:45-52 | the joined rows of a run are its results, each once, in log order |
| Paging.OneRowPerResult | internal/store/results.go:45-52 | a run is listed once per accepted submission and once when it has none |
| Merge.MergeGroup | bot/src/pingachock-client.ts:288-316 | one spec's contribution: pending iff it still waits and another attempt follows, good iff the node's result is a success, a port open or closed exactly as that result says, the address it resolved to, and no other field touched |
| Merge.PortShows | bot/src/pingachock-client.ts:307-314 | a port shows open iff the node's result is there and succeeded, closed iff it is there and failed; without one timeout, awaited or unknown as the check is pending or running and the attempt final, not final, or neither is the case |
| Merge.IcmpShows | bot/src/pingachock-client.ts:298-306 | the ping field repeats the node's result; without one it says never replied or still running while the check is pending or running, and is absent otherwise |
| Merge.RowSummarizes | bot/src/pingachock-client.ts:285-314 | with distinct specs a row is good iff a field says open or replied, and pending iff one says awaited or still running |
| Merge.ResultOfFirst | bot/src/pingachock-client.ts:287-290 | the result read is that of the node's first run in the first check for the target, and none if there is none |
| Merge.ResolvedLast | bot/src/pingachock-client.ts:285-317 | the address shown is the one of the last group whose result has one, else the target |
| Merge.MergeNodeResults | bot/src/pingachock-client.ts:279-322 | one row per target in order; pending iff some spec still waits and this is not the final attempt, and with distinct specs each field shows its own spec and a row is good iff some field says open or replied |
| Scan.ChunkTargets | bot/src/pingachock-client.ts:556-562 | chunks concatenate to the input, all full but perhaps the last, none empty |
| Scan.ChunkAt | bot/src/pingachock-client.ts:556-562 | row q of chunk k is item k size + q |
| Scan.ServerIsStable | internal/store/check_runs.go:204-235 | however the server's transactions interleave, once a scan's checks exist their listing keeps checks and targets and never shows an over check as open later |
| Scan.FetchChunkChecks | bot/src/pingachock-client.ts:628-649 | the paged read puts together every row of the chunk once, in listing order |
| Scan.FetchChunkProgress | bot/src/pingachock-client.ts:598-622 | the same pages counted: done is the settled count of those rows; one target is read directly |
| Scan.SettledCountIsSize | bot/src/pingachock-client.ts:598-622 | the settled count is the number of rows that are neither pending nor running |
| Scan.FetchProgress | bot/src/pingachock-client.ts:588-590 | done and total are the sums over the chunks of one round |
| Scan.LaterReadSettlesMore | bot/src/pingachock-client.ts:598-622 | a later round finds every check over that an earlier one did, so done does not decrease |
| Scan.GroupBySpec | bot/src/pingachock-client.ts:686-695 | one group per spec that has a chunk and none besides, holding that spec's chunks in order |
| Scan.Dispatch | bot/src/pingachock-client.ts:667-671 | every spec gets all targets, chunk by chunk |
| Scan.SpecsByRequest | bot/src/pingachock-client.ts:651-666 | ICMP first iff it is wanted, then the ports in their order, and nothing else |
| Scan.JobAt | bot/src/pingachock-client.ts:667-671 | chunk k of spec i is job i times the number of chunks plus k |
| Scan.PollProgress | bot/src/pingachock-client.ts:673-685 | each reported entry is what its round found, entries are monotone and within the total; the loop goes on exactly while something is open and half an hour has not passed |
| Scan.NothingOpen | bot/src/pingachock-client.ts:240-243 | after a round that found everything over, a later full read finds no open check |
| Scan.ScanFindsAll | bot/src/pingachock-client.ts:686-695 | the last read has a group for every spec, and in it a check for every target |
| Scan.RunTrackedNodeScan | bot/src/pingachock-client.ts:651-698 | a scan ends with one row per target in target order, none pending, each showing every requested port and nothing unrequested and good iff some field says open or replied; merged from one full read after the last progress round, in which every row finds its check for every spec and, short of half an hour, all of those over |
| FollowUp.PollCheckUntilDone | bot/src/pingachock-client.ts:245-254 | returns the first read that shows the check over or comes after the deadline |
| FollowUp.PendingOfMembers | bot/src/pingachock-client.ts:476-483 | the follow-up items are exactly the pending or running checks of the groups, with their spec and target |
| FollowUp.NodePing | bot/src/pingachock-client.ts:455-489 | the first pass: one row per target, and every row shown as pending is for a target the follow-up is asked about |
| FollowUp.AwaitPendingFollowUp | bot/src/pingachock-client.ts:491-518 | the second pass: one final row per distinct target that was open, in order of first appearance, from fresh reads of exactly those checks, none pending |
| Ipv4.PackIsSum | bot/src/index.ts:853-854 | shifting and or-ing four octets gives their value in base 256 |
| Ipv4.ReadBack | bot/src/index.ts:848-863 | printing any 32-bit number gives a valid address that reads back as that number |
| Ipv4.PrintBack | bot/src/index.ts:842-863 | a valid address reads as a 32-bit number and prints back as itself iff no octet has a leading zero |
| Targets.ExpandIpv4Range | bot/src/index.ts:872-885 | all addresses between the two ends in either order, ascending, or too-large |
| Targets.RangeIsInterval | bot/src/index.ts:872-885 | in either order of its ends a range gives every address between them, ascending, and is refused exactly when there are more of them than the limit |
| Targets.ExpandCidr | bot/src/index.ts:887-910 | the error for each malformed part or size, otherwise the block around the address, whatever integer Number reads out of a mask that is not plain digits |
| Targets.CidrByText | bot/src/index.ts:887-910 | address, slash, number: refused above 32 or when 2^(32 - number) exceeds the limit, otherwise exactly the addresses equal to it above the low bits, ascending |
| Targets.MaskedIsFirst | bot/src/index.ts:903-904 | the masked word is the address minus its remainder by the block size, for masks 0 to 32 |
| Targets.BlockFits | bot/src/index.ts:904-905 | first plus size never leaves the address space, so the last word does not wrap |
| Targets.CidrIsPrefixBlock | bot/src/index.ts:887-910 | a block expands, ascending, to exactly the 2^(32 - bits) addresses sharing its prefix (section 3.1 of RFC 4632) |
| Targets.CidrIsRange | bot/src/index.ts:872-910 | a block equals the range of its first and last address |
| Targets.PatternNeedsDigits | bot/src/index.ts:835-840 | for a token the address pattern lets through, the expansion does not depend on how Number reads other texts |
| Targets.MaskPattern | bot/src/index.ts:835-840 | the masks let through are one digit, 1 or 2 and a digit, or 30 to 32 |
| Ipv4.OctetPattern | bot/src/index.ts:842-846 | the octets let through are one or two digits, 1 and two digits, 200 to 249 and 250 to 255 |
| Ipv4.AddressIsOctets | bot/src/index.ts:848-855 | an address stands for its octets in base 256 |
| Targets.DedupKeepsFirsts | bot/src/index.ts:958-965 | deduplication keeps every member once in order of first appearance |
| Targets.ParseTargets | bot/src/index.ts:919-968 | null without tokens or with an unknown one, an exception out of an expansion, otherwise the order-preserving deduplication of all expansions (their contents and order are `Targets.ListedByToken`) |
| Targets.ListedByToken | bot/src/index.ts:930-956 | the list holds each token's own list in token order, the addresses of a range or block or else the token itself, and is marked expanded iff a token is a range or block |
| Targets.FirstBadToken | bot/src/index.ts:930-956 | the first token without a list decides: a refused range or block is thrown, anything else is not recognised |
| Scheduler.ReportsAreSpaced | bot/src/index.ts:1050-1087 | with tick times in milliseconds that do not decrease, two reports of a user start at least 1000 times the later one's interval apart, across interval changes and deactivation |
| Scheduler.FirstReportWaits | bot/src/index.ts:1070-1076 | no report of a user without a slot starts less than 1000 times its interval after the tick at which there was none |
| Scheduler.VisitByUser | bot/src/index.ts:1062-1087 | when a visit starts a report and what it leaves in the slot, in milliseconds |
| Scheduler.TickByUser | bot/src/index.ts:1053-1087 | a tick as one user sees it: slot lost, left, made or restarted, and a report exactly when it is due |
| Scheduler.SingleFlight | bot/src/index.ts:1083-1087 | while a user is not dropped mid-report, at most one report of that user is in flight, and exactly when the slot says so, whoever else comes and goes |
| Scheduler.ActiveUserSingleFlight | bot/src/index.ts:1083-1087 | while a user is active at every tick, at most one report of that user is in flight |
| Scheduler.EverybodySingleFlight | bot/src/index.ts:1083-1087 | if no tick drops anybody mid-report, no user ever has two reports in flight |
| Scheduler.TickKeepsSingleIff | bot/src/index.ts:1252-1255 | a tick keeps slot and flight of a user in step if and only if it does not drop that user mid-report |
| Scheduler.DroppingDecides | bot/src/index.ts:1252-1255 | a user active at every later tick can get two reports at once if and only if this tick dropped the user mid-report |
| Scheduler.TwoInFlight | bot/src/index.ts:1243-1255 | a run from the start with two reports of one user in flight: report, deactivation while it runs, reactivation, second report |
| Scheduler.HealthScheduler.OnTick | bot/src/index.ts:1053-1087 | the loop over settings keeps slots for active users only and, for a user with one setting, starts the report exactly when the unchanged interval of at least 10 s has passed and none is marked running, the next then due 1000 times the interval later; starts the returned users' reports |
| Scheduler.HealthScheduler.OnFinish | bot/src/index.ts:1245-1248 | clears the running mark of whatever slot the user has by then |
| ProbePool.ReachableInv | check_plain_http.py:376-417 | the queue is the untaken targets in order then the untaken sentinels, at most 2c; a taken target is handled once or in one worker's hands |
| ProbePool.NeverStuck | check_plain_http.py:395-419 | until every worker has exited some step is possible, and the queue never exceeds 2c entries |
| ProbePool.EveryTargetOnce | check_plain_http.py:376-417 | at the end each target was probed and counted once, each worker took one sentinel, the queue is empty |
| ProbePool.StepsTaken | check_plain_http.py:395-419 | every finished scan took 3n + 2c steps |
| Boot.OneVirtualNode | internal/serveragent/serveragent.go:38-62 | however Ensure's read, insert and re-read interleave at most one virtual node exists, no call fails, and every call returns that node for good |
| Boot.CallsFinish | internal/serveragent/serveragent.go:38-62 | a call nobody crashes can always go on until it has returned |

## Modelling notes

- Generated keys and the database clock are parameters. No theorem orders the clock readings
  of different requests, except the ticks of the scheduler, which do not go back in time.
- `Lifecycle.Allowed` says what the handlers do: a check is fanned out once, a poll claims what
  the claim query selects. Everything else may come at any moment.
- In `Interleaving` a claim visits queued rows in any order; the age order belongs to the serial
  model. Result rows and timestamps are not part of it, because no statement there reads them.
- `Scan` assumes the listing order of a batch is stable (the query orders by creation time
  alone, `internal/store/checks.go:79`) and that rounds do not overlap. That checks do not
  reopen is not assumed of the server but proved of it, in `Scan.ServerIsStable`.
- A periodic report whose settings cannot be read skips the tick, which is no step at all.

## Left out

- Lifecycle.ReachableAgrees: a cancelled check may keep active runs and a check may have no runs, because check and runs are inserted in separate transactions (`internal/api/public/checks.go:147-165`); nothing is claimed against either.
- Store.Store.CreateCheckRuns: keeps the invariant only for a check that has no runs yet, which is how its one caller uses it.
- Guarantees.HandedOutOnce: does not state the age order of a pick, which the serial claim does; the limit is in `Commits.EveryCommitAsAsked`.
- Scan.RunTrackedNodeScan: waits for dispatch, pages and rounds in turn; that overlapping dispatch returns the chunks in input order is `Concurrency.ResultsInInputOrder`.
- FollowUp.NodePing: polls its checks one after the other, where the bot polls them at once; each check has its own clock, so no result depends on the order.
- Merge.MergeNodeResults: the text of the ICMP summary, the `blocked` label and the parsing of raw JSON are left out; a result is a success flag and an optional resolved address.
- Targets.ParseTargets: takes the tokens; splitting the message on whitespace and commas, trimming, and the domain pattern (a parameter) are left out.
- Ipv4.PrintBack: `Number` is modelled on digit strings and the empty string, which is all the address patterns let through.
- Targets.ExpandCidr: what `Number` makes of a mask such as `1e1` is a parameter, since its one caller's pattern (`bot/src/index.ts:835-840`) excludes such texts.
- Reporting.PromiseIff: posting a batch and handing a slot on take no time in the timed model, and the ticker fires on time; real posts add their own delay.
- Boot.OneVirtualNode: database failures other than the unique violation end a call and are modelled as its crash.
- `UpdateCheckStatus` (`internal/store/checks.go:103-106`): it sets a status from outside and would break every status invariant; none of the modelled code calls it.
- Postgres deadlock detection: a transaction it kills is one more abort.
- Check warnings, node selection, heartbeats, HTTP routing, authentication, JSON and SQL text.
- The virtual node's own runner (`internal/serveragent/serveragent.go:128-170`): a second consumer of the same queue, covered by any number of claims per node; its ticker loop is not modelled.
- Withheld, failed or lost batches after `postBatch`: the server side allows any submission to be missing, repeated or late.
- The probes, the Telegram interface, failover, settings storage, and agent setup and updates.
