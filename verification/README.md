# Verified model of the R2 benchmark harness

The harness drives load against R2 buckets. A Worker keeps jobs and the agents working on them in two SQL
tables; agents on VMs poll it for work, send paced requests, record latencies in lock-free counters and
report them; a seeder fills the buckets beforehand; a signer produces the AWS SigV4 headers. This project
models the stateful cores of those programs in Dafny and proves what they promise.

Check everything with `dafny verify dfyconfig.toml`.

## How the model is laid out

**Control plane** (`src/agents.ts`, `src/spawn.ts`, `src/orchestrator.ts`).
`Tables` holds JOBS and JOB_SPAWNS as maps and each SQL statement as a function on them. `Handlers` gives
each request as one function, `ControlPlane.Worker` implements the requests statement by statement on
mutable tables and is proved to equal those functions. `Starts` and `Polls` say on the request and on the
tables what a start and a poll answer and leave. Two views of concurrency are built on the same
statements:

- `Interleavings`: every statement of every handler is a step, handlers carry the values they have read,
  and any number of them interleave. Slot claiming, status monotonicity and the agreement of answers are
  proved here (`Invariants`, `StatementLaws`), and so are the exact limits of what holds:
  `SingleJob` (two overlapping starts), `ClosedJobs` (a claim that lands in a job that has just closed) and
  `LateCloses` (a completion that closes a job another agent has just joined).
- `Lifecycle`: whole requests are steps. `Reaper`, `History`, `Completion` and `Reconnects` state what the
  sweep, the deadlines, the heartbeats, the completion reports and repeated polls do over whole runs.

`Refinement` joins the two: each handler (start, poll, report, completion, stop, sweep) whose statements run
with nothing in between is its handler function; a sweep does run to its end, in any order of the expired jobs.

**Agent** (`cmd/agent`). `Bits` and `Buckets` are the histogram's bit operations and their arithmetic at any
resolution; `Quantiles` relates the bucket walk to sorting all samples; `Counters` holds the counter object
and its snapshots, read one counter at a time while workers write; `Reports` the reporting loop over such
snapshots and the final flush, and `TornQuantiles` the percentiles of such reports; `TornReads` what every
interleaving of workers and reader guarantees, and `TornRefinement` that its snapshots are those of the loop.
`Pacer` is the token pacer in integer credit (1/200 token per 5 ms tick and request per second), and `Fleet`
joins it with the rate split of `Shares`.

**Seeder** (`cmd/seeder/main.go`, `internal/r2/naming.go`). `Naming` proves the key scheme collision-free and
ordered;
`Seeder` holds the program's own loops; `SeederRuns` and `SeederSafety` let any number of runs, with any
options and interrupted anywhere, interleave step by step over one object store; `SeederBooks` logs what a
run does and proves what became of every planned job; `SeederWhole` says it of the objects and the store of a
run among others; `SeederEnds` says what a run has settled when it ends and `SeederProgress` that it can end;
`SeederRefinement` joins the loops and the steps.

**Signer** (`internal/r2/sigv4.go`). `UriPath` is the path encoder and `Paths` what it does to the harness's own
objects; `Signing` is the canonical request and the signature, `Signatures` what a signature covers; `KeyCache`
is the cached signing key under its read-write lock with every lock operation, load and store a separate step,
and `KeyCalls` says that every call of it is answered.

The clock, generated ids, the row a query returns, network outcomes and the hash functions are inputs.

## Where a promise is narrower than it sounds

- Only one job active at a time: false when two start requests overlap (`SingleJob.OverlappingStarts`); an
  insert keeps it exactly when no job is active at that instant (`SingleJob.InsertKeepsOneIff`), which
  serialised start requests guarantee against every interleaving of the rest (`SingleJob.OneActiveJob`).
- A closed job has no running agent: true with whole requests (`Lifecycle.RunKeeps`), false statement by
  statement (`ClosedJobs.LateClaimHappens`, `LateCloses.LateCloseHappens`); `ClosedJobs.StatementKeepsQuietIff`
  names the two statements that can break it and exactly when they do.
- A missed cron tick resolves on the next one: true of which jobs and spawns stay active, not of terminal
  labels. `Reaper.LabelsDifferIff` says exactly when a label can depend on the missed tick, and
  `History.LabelsDifferOnRun` gives a run in which it does.
- The last bucket has no upper bound, so the 1/8 error bound of the histogram ends at 18 119 393 280 µs
  (`Buckets.ErrorBoundIff`), above the 2^34 µs the design aims for.
- The final flush at tick -1 repeats the cumulative totals as its interval, so adding up all reports of a
  run counts every reported interval twice (`Reports.ReportRun`).
- A sentinel a run has stamped is still there when the run ends if every run under the same key prefix has the
  same keyspace and object size (`SeederEnds.SeededBuckets`); a run of another shape may overwrite it with its own.
- `Quantile` answers 0 whenever its rank rounds down to 0 (`Quantiles.RankZero`).

## Model

| member | source | states |
|---|---|---|
| Tables.SpawnIdInjective | src/agents.ts:61 | the spawn id built from job id and agent id determines both, because job ids have a fixed length |
| Handlers.NewJob | src/orchestrator.ts:180-188 | the row of an admitted job is what the request asked for: rate, agents, duration, workers (or 512) and start delay (or 30 s) with fractions dropped, the stop `duration` minutes after the start; it is QUEUED and unless unthrottled has at least one request per second for each agent |
| Starts.ValidateSays | src/orchestrator.ts:149-169 | which requests are refused, and with which error, on the request's own numbers and in the order of the checks |
| Starts.StartAnswers | src/orchestrator.ts:136-196 | a start is accepted exactly when its request passes every check and no job is active; it then adds one row, the one asked for, and otherwise changes nothing |
| Handlers.FinaliseStep | src/spawn.ts:121-147 | finalising expired jobs one by one, in any order, amounts to finalising the whole set at once |
| Invariants.ClaimNeverRejected | src/agents.ts:81-87 | while a job's slots are dense, the unique (JOB_ID, SLOT) index cannot reject the conditional INSERT |
| Invariants.ClaimSound | src/agents.ts:79-99 | the conditional INSERT keeps every job's slots dense and within AGENTS |
| Invariants.UpdateKeepsSound | src/spawn.ts:54-165 | an update that only advances statuses keeps slots dense, ids well formed and open jobs on their planned window |
| StatementLaws.CompleteUpdates | src/spawn.ts:55-90 | a completion, with or without error, deletes nothing, revives no spawn and moves no job status backwards |
| StatementLaws.SweepUpdates | src/spawn.ts:100-168 | so does a whole sweep, from any tables |
| ControlPlane.Worker.StartJob | src/orchestrator.ts:136-196 | the validated check-then-insert computes the Start function of the old tables, so it accepts exactly such requests and inserts what they asked for, and keeps the tables sound |
| ControlPlane.Worker.AgentPoll | src/agents.ts:27-119 | for an oldest open job the poll computes the Poll function, so it answers and leaves exactly what Polls.PollAnswers says; it keeps the tables sound and never fails on the unique index |
| Polls.PollAnswers | src/agents.ts:50-119 | read off the tables: an agent is told to run exactly when it is named, the window is open, and it holds a RUNNING row or has none while fewer than AGENTS rows exist; it then has the row of its slot, seen now, the job is RUNNING, and the order carries the slot's share, the window and the workers; otherwise nothing changes |
| Reconnects.SameOrderAgain | src/agents.ts:69-77 | an agent that was handed a slot and polls that job again before its window ends gets the identical order and is seen now if its row is still RUNNING, and is sent away otherwise |
| ControlPlane.Worker.RecordMetrics | src/spawn.ts:46-50 | a report refreshes LAST_SEEN of its spawn and nothing else |
| ControlPlane.Worker.CompleteSpawn | src/spawn.ts:55-90 | the completion handler computes exactly the Complete function and keeps the tables sound |
| ControlPlane.Worker.StopJob | src/orchestrator.ts:299-316 | a stop changes exactly an existing, non-terminal job, to STOPPING with STOP_AT now |
| ControlPlane.Worker.FinaliseJobs | src/spawn.ts:121-147 | the loop over expired jobs finalises exactly that set, in whatever order rows arrive, and counts it |
| ControlPlane.Worker.ReapJobs | src/spawn.ts:100-168 | the four rules in order compute Sweep, and the returned counts are the numbers of rows each rule met |
| ControlPlane.OldestExists | src/agents.ts:37-48 | the ORDER BY CREATED_AT LIMIT 1 query returns a row whenever some job is open |
| Reaper.SweepSwept | src/spawn.ts:100-168 | row by row, what a sweep leaves: which spawns stay RUNNING and which status each job gets |
| Reaper.SpawnSwept | src/spawn.ts:104-145 | the exact spawn row after a sweep: FAILED when not heard from for 90 s, else COMPLETED in an expired job, else as it was |
| Reaper.TallyCounts | src/spawn.ts:104-167 | each returned count is the number of rows its rule changed |
| Reaper.TallyBefore | src/spawn.ts:104-167 | and, on the tables before the sweep, the number of expired jobs, of stale spawns, and of abandoned jobs not expired |
| Reaper.MissedTick | src/spawn.ts:92-168 | from any tables, sweeping at t1 and again at t2 >= t1 leaves the same active jobs and RUNNING spawns as t2 alone |
| Reaper.LastTickDecides | src/spawn.ts:92-99 | the same for any ordered sequence of ticks: the last one decides |
| Reaper.SameTickTwice | src/spawn.ts:92-99 | repeating a tick changes nothing and reports zeros |
| Reaper.LabelsDifferIff | src/spawn.ts:134-164 | a terminal label depends on the earlier tick exactly when that tick closed a quiet stopping job before its grace period had passed and the later one would expire it |
| History.LabelsDifferOnRun | src/spawn.ts:134-164 | a run from empty tables (a start, a stop before any agent came) after which ticks at 2 and 40 000 label the job STOPPED and the tick at 40 000 alone labels it FAILED |
| Interleavings.StatementEvolves | src/spawn.ts:54-165 | no single statement of any handler, whatever its locals, moves a status backwards, and only the start INSERT opens a job |
| Interleavings.StatusesOnlyAdvance | src/agents.ts:101-107 | over every interleaving from every state: job rank never decreases, terminal statuses are absorbing, no spawn re-enters RUNNING, no plan or slot changes |
| Interleavings.InvHolds | src/agents.ts:63-99 | every interleaving keeps the tables sound, handlers' snapshots true to their job rows and answers true to the tables |
| Interleavings.SlotsAreDense | migrations/2_vm_agents.sql:72-75 | in every reachable state a job's rows hold exactly the slots 0..n-1 with n <= AGENTS, no two share a slot or an agent, and no claim was ever rejected |
| Interleavings.AnswersAgree | src/agents.ts:109-118 | all run answers for a job carry the same start, stop (start + duration minutes) and worker count; those to one agent are identical; those to different agents name different spawns |
| Refinement.PollAlone | src/agents.ts:27-119 | the poll's statements with nothing in between give the Poll function's tables and answer |
| Refinement.CompleteAlone | src/spawn.ts:55-90 | likewise for completions |
| Refinement.StartAlone | src/orchestrator.ts:171-188 | the check and the insert of a start request with nothing in between, and a fresh id, give the Start function's tables, changed exactly when it accepts |
| Refinement.OneStatementAlone | src/orchestrator.ts:305-309 | reports and stop requests are one statement and its function |
| Refinement.ReapAlone | src/spawn.ts:100-168 | likewise for the sweep, whatever order the expired rows come in, if it reaches its end |
| Refinement.ReapFinishes | src/spawn.ts:100-168 | and it reaches its end, leaving Sweep's tables, when the expired jobs are taken in any order, each once |
| Refinement.SweepCanFinish | src/spawn.ts:100-168 | such an order exists for any tables and time |
| SingleJob.OneActiveJob | src/orchestrator.ts:171-188 | with start requests serialised, every interleaving of everything else keeps at most one active job |
| SingleJob.OneActiveJobFromEmpty | src/orchestrator.ts:171-188 | in particular from empty tables |
| SingleJob.InsertKeepsOneIff | src/orchestrator.ts:180-188 | the INSERT keeps at most one active job exactly when none was active at that moment |
| SingleJob.OverlappingStarts | src/orchestrator.ts:173-188 | a run of two overlapping starts that leaves two active jobs |
| ClosedJobs.StatementKeepsQuietIff | src/agents.ts:81-87 | a statement leaves COMPLETED and STOPPED jobs without RUNNING rows exactly when it is not a claim in a job closed meanwhile nor a completion closing a job joined after its count |
| ClosedJobs.TimelyRunsStayQuiet | src/spawn.ts:76-89 | runs without such late statements keep closed jobs quiet under every interleaving |
| LateCloses.LateCloseHappens | src/spawn.ts:76-89 | a run from empty tables in which a completion counts no RUNNING spawn, another agent claims a slot, and the completion closes the job under it |
| ClosedJobs.LateClaimHappens | src/agents.ts:79-99 | a run from empty tables that puts a RUNNING row in a STOPPED job |
| Lifecycle.RunKeeps | src/spawn.ts:54-165 | with whole requests, every reachable state is sound, a QUEUED job has no rows, a COMPLETED or STOPPED job has no RUNNING spawn |
| Lifecycle.NoPollRejected | src/agents.ts:79-87 | no poll of any such run fails on the unique index |
| History.RowsIffHanded | src/agents.ts:78-107 | a job has spawn rows exactly when some agent was handed a slot in the run |
| History.ExpiryLabelTellsHistory | src/spawn.ts:115-147 | the expiry rule labels a job FAILED exactly when no agent was ever handed a slot, else COMPLETED |
| History.StopAtIsEffective | src/orchestrator.ts:305-309 | STOP_AT of an active job is the last stop request of the run, or the planned end |
| History.ExpiresIff | src/spawn.ts:116-119 | a sweep expires an active job exactly when that time is more than 30 s old |
| History.FirstSweepAfterWindow | src/spawn.ts:106-147 | if no stop came after the original window, the first sweep beyond START_AT + DURATION minutes + 30 s leaves the job terminal |
| History.QueuedFailsIff | src/spawn.ts:149-158 | a job still QUEUED fails at a sweep exactly when 300 s have passed since its start or 30 s since its planned end |
| History.LastSeenIsLastContact | src/spawn.ts:46-50 | LAST_SEEN is the last claim, successful re-poll or report in the run |
| History.StaleIff | src/spawn.ts:106-113 | the staleness rule fails a RUNNING spawn exactly when its last contact is more than 90 s old |
| History.SteadyNeverStale | src/spawn.ts:3-8 | with an ordered clock, a spawn whose contacts are at most 90 s apart is spared by every sweep between its claim and its last contact |
| Completion.StoppingIffRequested | src/orchestrator.ts:305-309 | an active job is STOPPING exactly when the run asked for it to stop |
| Completion.LastReportCloses | src/spawn.ts:66-90 | a report closes an active job exactly when no other spawn of it is RUNNING: STOPPED if a stop was ever requested, else COMPLETED |
| Completion.ErrorReportFails | src/spawn.ts:56-64 | an error report fails an active job at once unless it is being stopped |
| Completion.ReportMarks | src/spawn.ts:55-90 | a report marks its spawn FAILED after an error, else STOPPED or COMPLETED as the run asked the job to stop or not, touches no other spawn, and no job but the status of its own active one |
| Completion.SweepClosesStopping | src/spawn.ts:160-165 | the sweep closes a stopping job that is not expired exactly when no spawn of it is RUNNING and heard from within 90 s |
| Shares.SharesSum | src/agents.ts:121-132 | the shares of any first n slots stay within the target, and those of all slots add up to it exactly |
| Shares.ZeroShareIff | src/agents.ts:125-132 | a share is zero exactly for slots past a target smaller than the fleet |
| Sums.SumInAnyOrder | src/agents.ts:121-124 | a list of exactly the slots below n has the same sum in any order |
| Fleet.ClaimedShares | src/agents.ts:113-132 | in every reachable state the shares of claimed slots add up to at most RPS, to exactly RPS when all are claimed, differ by at most one, and are positive for a throttled job |
| Fleet.WholeTarget | src/orchestrator.ts:139-188 | once as many agents have joined as an accepted request asked for, whatever happened in between, their shares add up to the whole rate it asked for |
| Fleet.ThrottledOrdersArePaced | cmd/agent/runner.go:132-135 | in every reachable state, each order ever answered starts a pacer exactly when its job is throttled |
| Fleet.FleetRate | src/agents.ts:121-132 | after n ticks the shares' exact token counts add up to more than n*T/200 - A and at most n*T/200 |
| Fleet.FleetIssues | cmd/agent/runner.go:247-288 | and these are the tokens A pacers with drained channels have issued |
| Pacer.AlwaysValid | cmd/agent/runner.go:242-290 | over any interleaving of ticks, sends and receives: credit below one token, buffer within capacity, issued = received + buffered |
| Pacer.LostStep | cmd/agent/runner.go:276-285 | credit is lost by a send into a full channel, by exactly what the tick still owed plus the fraction, and by nothing else |
| Pacer.BurstBound | cmd/agent/runner.go:253-258 | from any tick boundary, k ticks release at most capacity + floor(credit + k*rps/200) tokens |
| Pacer.BurstInMillis | cmd/agent/runner.go:253-258 | in milliseconds: at most max(1, rps/50) tokens, 20 ms of them, are ever banked, and ticks spanning ms release fewer than that plus ms*rps/1000 + 1 |
| Pacer.EmitFits | cmd/agent/runner.go:255-258 | a tick never emits more than the channel's capacity, for every rps >= 1 |
| Pacer.NothingLost | cmd/agent/runner.go:272-286 | if the channel is empty at every tick, no credit is ever lost |
| Pacer.ExactRate | cmd/agent/runner.go:247-288 | and after n ticks exactly floor(n*rps/200) tokens were issued |
| Pacer.TokenPacer.SendTokens | cmd/agent/runner.go:276-286 | the sending loop fills the channel up to what fits, and drops the rest with the credit |
| Pacer.TokenPacer.Tick | cmd/agent/runner.go:272-286 | the ticker case is the machine's tick followed by its sends, dropping tokens exactly when they do not fit |
| Bits.AndMask | cmd/agent/metrics.go:203 | masking with 2^k - 1 is the remainder by 2^k |
| Bits.OrDisjoint | cmd/agent/metrics.go:204 | or-ing bits below a shift is addition |
| Buckets.Adjoint | cmd/agent/metrics.go:8-15 | for every resolution, a value reaches bucket i exactly when it reaches i's lower bound |
| Buckets.NextBound | cmd/agent/metrics.go:211-220 | adjacent bounds are exactly one bucket width apart |
| Buckets.LowerIncreases | cmd/agent/metrics.go:211-220 | bounds increase strictly |
| Buckets.RoundTrip | cmd/agent/metrics.go:196-220 | a bucket's lower bound lands back in it |
| Buckets.IndexInterval | cmd/agent/metrics.go:205-208 | with the clamp, each value lies in its bucket's interval, the last being unbounded |
| Buckets.RelativeError | cmd/agent/metrics.go:8-10 | below the clamp the bound is within 2^-subBits of the value, relative to the bound |
| Buckets.BucketIndexIsIndex | cmd/agent/metrics.go:198-209 | the bit operations compute that clamped bucket for every 64-bit value |
| Buckets.BucketValueIsLower | cmd/agent/metrics.go:213-220 | and the lower bound of every bucket, without overflow |
| Buckets.CodeAdjoint | cmd/agent/metrics.go:196-220 | bucketIndex and bucketValue are adjoint over all 64-bit values and every bucket, and inverse on bounds |
| Buckets.ErrorBoundIff | cmd/agent/metrics.go:8-10 | the bound is at most the value, and within 1/8 of it exactly up to a stated limit above 2^34 |
| Quantiles.SumBuckets | cmd/agent/metrics.go:178-181 | the summing loop computes the number of samples modulo 2^64 |
| Quantiles.FindBucket | cmd/agent/metrics.go:186-193 | the search stops at the first bucket whose 64-bit running count reaches the rank, which below 2^64 samples is the true running count |
| Quantiles.Quantile | cmd/agent/metrics.go:177-194 | the answer is the bound in milliseconds of the bucket the search stops at for the rank of q among the 64-bit total, or 0 when that total is 0; below 2^64 samples these are the true counts |
| Quantiles.RankIff | cmd/agent/metrics.go:185 | that rank is the integer part of q times the total |
| Quantiles.RankBucket | cmd/agent/metrics.go:186-192 | the running count reaches t exactly from the bucket of the t-th smallest sample on |
| Quantiles.QuantileIsSortedRank | cmd/agent/metrics.go:176-194 | for q in [0,1] and t >= 1 the integer part of q times the number of samples, the bucket is that of the t-th smallest sample x: its bound lo <= x, and 8(x - lo) <= lo exactly for x up to the limit |
| Quantiles.QuantileOfSamples | cmd/agent/metrics.go:176-194 | so Quantile on the histogram of any fewer than 2^64 latencies returns the bound of that latency's bucket, or 0 for rank 0 |
| Quantiles.RankZero | cmd/agent/metrics.go:185-190 | rank 0 always answers 0 |
| Quantiles.FallThroughIff | cmd/agent/metrics.go:187-193 | the return after the loop is reached exactly when the rank exceeds the total, hence never for q <= 1 |
| Quantiles.QuantileMonotone | cmd/agent/metrics.go:176-194 | the quantile is monotone in q |
| Counters.SnapshotHomomorphism | cmd/agent/metrics.go:112-154 | the snapshot after A then B, minus that after A, is the snapshot of B alone, even across wrap-around |
| Counters.DeltaIsTrueIff | cmd/agent/metrics.go:133-135 | an interval delta is the true count of the interval exactly when that fits 64 bits |
| Counters.BucketsAreHistogram | cmd/agent/metrics.go:70-93 | each bucket counts the latencies observed in it, errors included |
| Counters.CellsCount | cmd/agent/metrics.go:51-93 | every counter is the sum of what the observations contribute to it: successes, errors, bytes, latencies, statuses below 400, 4xx, 5xx, timeouts, new and reused connections, wire times, latencies of each bucket |
| Counters.Metrics.ObserveSuccess | cmd/agent/metrics.go:70-83 | performs exactly the five adds of a success, in order |
| Counters.Metrics.ObserveError | cmd/agent/metrics.go:86-93 | performs exactly the adds of an error, in order |
| Counters.Metrics.ObserveWire | cmd/agent/metrics.go:51-54 | adds the wire time and counts it |
| Counters.Metrics.ObserveConn | cmd/agent/metrics.go:58-64 | counts the connection as reused or new |
| Counters.Metrics.TakeSnapshot | cmd/agent/metrics.go:112-131 | whatever is added while it reads, each counter shows its total at the moment it was read, modulo 2^64 |
| Counters.QuietRead | cmd/agent/metrics.go:112-131 | with nothing added between its reads, a snapshot shows every total of one moment |
| Reports.DeltasTelescope | cmd/agent/main.go:164-200 | deltas of successive snapshots add up to the last one less the first, for any sequence of snapshots (ReportLoop says it of the reports sent) |
| Reports.FlushRepeatsTotal | cmd/agent/main.go:142-156 | with the final flush the intervals add up to last tick plus final total, and to the final total exactly where no tick had reported anything, for any sequence of snapshots (ReportRun says it of a run's reports) |
| Reports.ReportTick | cmd/agent/main.go:176-199 | with writers at work during the reads, each counter's delta counts exactly what was added to it between its two reads, and its cumulative part all that was added before |
| Reports.ReportLoop | cmd/agent/main.go:160-202 | so does every report of the loop, and the deltas of the reports up to each tick add up to that tick's snapshot, whether or not any was delivered |
| Reports.ReportRun | cmd/agent/main.go:142-156 | with the flush after the workers' last adds, the deltas of a run's reports add up to the last tick's snapshot plus the final totals: in a cell equal to the final total exactly when the last tick's snapshot was 0 there |
| Reports.QuietDelta | cmd/agent/main.go:176-181 | between two ticks read with no writer in between, the delta is the snapshot of the interval's own observations |
| Reports.IntervalHistogram | cmd/agent/main.go:176-181 | the histogram of a delta is that of the interval's own latencies |
| Reports.ReportedPercentile | cmd/agent/main.go:216-218 | between two ticks read with no writer in between, a reported percentile is the bucket bound of the t-th smallest latency of the interval, t the integer part of q times their number |
| TornQuantiles.ObsTrueTags | cmd/agent/metrics.go:70-93 | each histogram add of an observation counts one in the bucket of the observation's own latency |
| TornQuantiles.TornHistogram | cmd/agent/main.go:176-181 | with writers at work during the reads, the histogram of a delta is that of the latencies whose add to their bucket fell between the two reads of that bucket |
| TornQuantiles.TornPercentile | cmd/agent/main.go:216-218 | and a reported percentile is the bucket bound of the t-th smallest of these, t the integer part of q times their number |
| TornReads.TornSnapshots | cmd/agent/metrics.go:112-131 | with W workers and every interleaving, Count + Errors <= sum of buckets + W, Count <= classified statuses + W, and snapshots never decrease in any counter |
| TornReads.JoinedExact | cmd/agent/main.go:138-143 | once the workers have joined both are equalities without W |
| TornReads.FinalSnapshotExact | cmd/agent/main.go:142-143 | the snapshot taken after the join is the counters themselves and meets both |
| TornRefinement.MachineIsRead | cmd/agent/metrics.go:112-131 | each snapshot of such an interleaving is, modulo 2^64, the one the reporting loop takes when the adds fall between its reads as they did there |
| TornRefinement.ObservationAlone | cmd/agent/metrics.go:70-93 | an observation whose adds run with nothing in between gives each counter exactly its part of it |
| TornRefinement.SnapshotAlone | cmd/agent/metrics.go:112-131 | a snapshot whose reads run with nothing in between is the counters as they are |
| TornReads.TornDeltas | cmd/agent/metrics.go:133-135 | under every interleaving, Sub of successive snapshots gives each counter's true, non-negative growth exactly when that is below 2^64 |
| Naming.ObjectKeyInjective | internal/r2/naming.go:23-26 | different indices have different object keys, beyond eight digits too |
| Naming.BucketNameInjective | internal/r2/naming.go:17-21 | different indices have different bucket names |
| Naming.NamesInOrder | internal/r2/naming.go:15-26 | object keys up to eight digits and bucket names up to two have one length each and sort as their indices |
| Naming.SentinelIsNoObject | internal/r2/naming.go:28-34 | no object key of any layout is the sentinel key of any layout |
| Naming.SentinelKeyInjective | internal/r2/naming.go:32-34 | a sentinel key determines the key prefix |
| Naming.SentinelBodyInjective | internal/r2/naming.go:36-39 | a sentinel body determines keyspace, object size and key prefix |
| Seeder.PutWithRetry | cmd/seeder/main.go:321-344 | succeeds exactly when some attempt is acknowledged, then the object is there; nothing but that object is written |
| Seeder.MissingExact | cmd/seeder/main.go:468-473 | the missing list is strictly increasing and holds exactly the indices whose key was not listed |
| Seeder.MissingKeys | cmd/seeder/main.go:451-475 | over any finite chain of pages: exactly the indices on no page consumed, or the error of the page that failed |
| Seeder.SentinelNotCounted | cmd/seeder/main.go:451-475 | listing the sentinel changes nothing |
| Seeder.BucketSeeder.BucketsToSeed | cmd/seeder/main.go:274-294 | increasing, and exactly the buckets forced or whose sentinel is unreadable or different |
| Seeder.BucketSeeder.DoJob | cmd/seeder/main.go:302-318 | an acknowledged PUT counts once as written; otherwise once for its bucket and once in total |
| Seeder.BucketSeeder.WriteSentinels | cmd/seeder/main.go:260-271 | succeeds exactly when no clean bucket's sentinel is refused, and then each clean bucket holds the body; otherwise it stopped at the first refused one; no key but the sentinels of clean buckets up to there has changed |
| SeederRuns.RunOkStable | cmd/seeder/main.go:145-256 | a run's bookkeeping survives whatever other runs add to the store |
| SeederSafety.PlanExact | cmd/seeder/main.go:154-220 | the plan holds exactly the keys of the chosen buckets: all, or in repair those listing did not show |
| SeederSafety.StepRunOk | cmd/seeder/main.go:296-319 | at every step each key of a bucket being seeded is stored, queued, in a worker's hands or counted as failed |
| SeederSafety.StepHonest | cmd/seeder/main.go:258-271 | no step makes a matching sentinel lie |
| SeederSafety.ExecSafe | cmd/seeder/main.go:145-319 | both hold over any number of overlapping, interrupted runs |
| SeederSafety.SentinelPromise | cmd/seeder/main.go:145-319 | whenever a bucket's sentinel body is that of keyspace K and prefix P, every object 0..K-1 under P is present |
| SeederSafety.SentinelPromiseFromEmpty | cmd/seeder/main.go:145-319 | in particular for any runs from an empty store |
| SeederSafety.SkippedIsComplete | cmd/seeder/main.go:286-291 | a bucket skipped for its sentinel is complete for the run that skips it |
| SeederBooks.PlanDistinct | cmd/seeder/main.go:235-239 | no job is planned twice |
| SeederBooks.NeverTwice | cmd/seeder/main.go:296-319 | at any moment of any run no job has been tried twice, and every job tried was due |
| SeederBooks.TriedExactlyOnce | cmd/seeder/main.go:222-256 | when the pool drains, each due key of each chosen bucket was tried exactly once and nothing else was; in repair the due keys are those on none of the pages the run read of that bucket, to the end |
| SeederBooks.PoolDrained | cmd/seeder/main.go:222-255 | the jobs tried are then the planned ones, each acknowledged or given up; written and failed count the two, each bucket's failures are its own jobs given up, and they add up to failed |
| SeederWhole.RunAmongOthers | cmd/seeder/main.go:145-256 | in any interleaving of runs, each run is what its own steps make of it over the stores they met, so its log is that of a run alone |
| SeederWhole.ObjectsTriedOnce | cmd/seeder/main.go:222-256 | when the pool of a run drains, among any other runs, each due object of a chosen bucket was put in exactly one retry loop of that run and no other object in any |
| SeederWhole.DrainedBuckets | cmd/seeder/main.go:244-249 | when the pool of a run drains, each chosen bucket's failures are its own jobs given up, and with none every object of the layout is in the store the runs share; what is stamped then is SeederEnds.SeededBuckets |
| SeederEnds.EverySentinelSettled | cmd/seeder/main.go:145-271 | a run that ends and was not cut short (no failed listing, no dry repair, no sentinel refused six times or cancelled) has had the sentinel of a bucket acknowledged exactly when its check did not find it matching and no job of it was given up, and tried no other |
| SeederEnds.FailedNeverStamped | cmd/seeder/main.go:258-271 | at any moment of any run no sentinel was tried of a bucket of which a job was given up |
| SeederEnds.SeededBuckets | cmd/seeder/main.go:145-271 | at that end, among other runs of one shape wherever they share a key prefix, every bucket with no job given up holds the run's sentinel body and all objects in the shared store, and the others got no sentinel from it |
| SeederEnds.NextRunSkips | cmd/seeder/main.go:283-293 | the next run of that shape that reads such a sentinel skips the bucket |
| SeederEnds.DryRunWritesNothing | cmd/seeder/main.go:195-209 | no step of a dry repair changes the store |
| SeederProgress.RunsCanEnd | cmd/seeder/main.go:145-271 | from any point of an uncut run with a worker, some further steps bring it to its end uncut, whatever others do to the store in between |
| SeederRefinement.AttemptsAlone | cmd/seeder/main.go:321-344 | the attempts of a job with nothing in between are the retry loop: same store, and the worker knows whether it succeeded |
| SeederRefinement.SixAttempts | cmd/seeder/main.go:321-344 | a job none of whose attempts is acknowledged is given up at the sixth and not before |
| SeederRefinement.JobAlone | cmd/seeder/main.go:302-318 | with the counting they are one iteration of a worker: written, or failed in total and for its bucket |
| SeederRefinement.ListAlone | cmd/seeder/main.go:451-466 | pages with nothing in between leave the bucket listed with the keys of exactly the consumed pages, or end the run if one failed |
| SeederRefinement.RepairPlansMissing | cmd/seeder/main.go:468-474 | the keys a repair then plans for the bucket are those the listing loop returns |
| SeederRefinement.ChecksAlone | cmd/seeder/main.go:283-293 | sentinel checks with nothing in between choose exactly the unreadable or different buckets, in order |
| SeederRefinement.StampAlone | cmd/seeder/main.go:260-271 | stamping with nothing in between is the sentinel loop: same store, and the run ends early exactly when it reports an error |
| UriPath.EncodeDecodes | internal/r2/sigv4.go:145-177 | the encoding uses only unreserved characters, slashes and upper-case percent triplets, and percent-decoding inverts it for every path |
| UriPath.BareIff | internal/r2/sigv4.go:179-187 | by their codes, the bytes sent bare are letters, digits and - . / _ ~ |
| Paths.NamesSentBare | internal/r2/sigv4.go:151-161 | every object and sentinel path of a layout with unreserved prefixes is sent as it is |
| UriPath.SafeEncodesToItself | internal/r2/sigv4.go:151-161 | the fast path agrees with the slow one |
| UriPath.UriEncodePath | internal/r2/sigv4.go:147-177 | both ways through the code give the canonical URI |
| UriPath.CanonicalUriInjective | internal/r2/sigv4.go:147-150 | two paths share a URI exactly when equal or both spell the root |
| UriPath.CanonicalUriNoBreak | internal/r2/sigv4.go:145-177 | the URI contains no line feed, whatever the path |
| Signing.CanonicalRequestIff | internal/r2/sigv4.go:85-103 | for line-feed-free method, query, host, hash and date the canonical request determines all of them and the path, except that the empty path and "/" coincide |
| Signatures.CanonicalLayout | internal/r2/sigv4.go:85-103 | the canonical request has the protocol's layout: headers as name:value lines in the order of their names, the list of those names, the payload hash |
| Signatures.AuthorizationIff | internal/r2/sigv4.go:73-131 | under one identity two requests get the same Authorization header exactly when method, path (root spellings apart), query, host, payload hash and time are the same, unless the hash functions collide on them |
| Signatures.KeyIff | internal/r2/sigv4.go:63-66 | two derived keys are the same exactly when day, region and secret are, unless HMAC collides on the way |
| Signing.Signer.SigningKey | internal/r2/sigv4.go:48-68 | whatever the cache holds, the key is the one derived from scratch |
| Signing.Signer.Sign | internal/r2/sigv4.go:73-131 | whatever was signed before, the headers are those of the uncached reference, so what Signatures.AuthorizationIff says holds of them |
| KeyCache.RunKeeps | internal/r2/sigv4.go:48-68 | under every interleaving of lock operations, loads and stores, the cached date and key disagree only while a writer is between its two stores, which no reader sees |
| KeyCalls.RunLocks | internal/r2/sigv4.go:48-61 | the holders of the lock are exactly the calls between acquiring and releasing it |
| KeyCalls.CallsAccounted | internal/r2/sigv4.go:48-68 | the calls made for a date are those answered for it, once each, and those under way |
| KeyCalls.CallsReturn | internal/r2/sigv4.go:48-68 | no call is stuck: every interleaving can be continued to where all calls made have been answered |
| KeyCache.KeysAreDerived | internal/r2/sigv4.go:48-68 | so every key ever handed out is the one derived for the date asked |
| KeyCache.SignaturesAgree | internal/r2/sigv4.go:73-131 | so under every interleaving each signature is that of the uncached reference |
| KeyCache.NeverDerivedTwiceRunning | internal/r2/sigv4.go:57-61 | the second comparison keeps one date from being derived twice in a row |
| KeyCache.OncePerDay | internal/r2/sigv4.go:21-25 | within one day the key is derived at most once, however many callers start together |

## Left out

- HTTP routing, authentication, token comparison and JSON decoding, including NaN and missing numbers in a start request.
- The `watch_job`, `list_jobs`, job-status and deployment-config queries: read-only.
- JOB_SPAWN_METRICS rows and the AVG columns; of a metrics report only the heartbeat is modelled.
- Rows from before the migration, with NULL SLOT or LAST_SEEN, and the text timestamps.
- The agent's hold before the start instant, during which it sends no heartbeat, and its warmup: whether an agent's contacts are steady is a hypothesis of the heartbeat results.
- Network fetches, TLS, connection pooling, the status watcher and the choice of worker count in the runner: requests are arbitrary outcomes.
- Ticker drift, coalescing and sleeps; ticks are events.
- Floating-point rounding: pacer credit is an exact integer number of 1/200 tokens, and the rank of a quantile is computed with exact reals.
- Rates and means of a report, which are single divisions.
- The counter fields are cells of one array in Snapshot's order instead of named fields.
- HMAC, SHA-256, hex, date formatting, query escaping and XML parsing are parameters or inputs.
- Object sizes and payload bytes of the seeder: objects are present or absent, so repair mode is only shown to restore presence.
- The limit of 16 buckets listed at once and the bounded job channel: listing steps and job hand-over interleave freely instead.
- Deletion of objects and listings that name missing keys or a sentinel read that returns another text than the stored one: a run is not stepped on such answers.
- The dry run without `-repair`, which ends before any bucket is looked at.
- UI, Terraform, deployment scripts and environment parsing.
- ControlPlane.Worker.RecordMetrics: leaves out the inserted metrics row and the averages the same UPDATE writes, which no modelled handler reads.
- Quantiles.Quantile: takes q >= 0 and does not cut the rank to 64 bits, which matters only for q > 1.
- Naming.NamesInOrder: says nothing of indices beyond eight digits (two for buckets), where the padding ends.
- Signatures.AuthorizationIff: takes as given that SHA-256 and HMAC do not collide on the texts compared.
- Naming.ObjectKeyInjective: indices are natural numbers; the formatting of negative ones is not modelled.
- KeyCache.KeysAreDerived: assumes a non-empty date stamp; for an empty one a new signer's cache would match and return no key.
