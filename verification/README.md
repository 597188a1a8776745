# bifrost-flex-query: a verified model

A Dafny model of how bifrost-flex-query keeps its IB Flex data complete: the ingest job queue with
its single worker, the API beside it, the fetch windows of the cash and trades runs, the reading of
error texts, the cron plan with its catch-up and self-check, the HTTP metrics and the settings row.
`dafny verify dfyconfig.toml` checks all of it.

## What is in it

- `Queue` is the job table: a class whose methods are the committed statements, each tied to a
  function on tables. `Worker` is the state machine over those functions: one worker, any API
  requests, time, crashes, and statements that committed but whose answer was lost, so that they run
  again. `Runs` proves what holds over whole runs, `Limits` shows what is not promised, and
  `WorkerLoop` that the loop, an object with its counters and its table, and the requests beside it
  take only steps of that machine.
- `Retry` reads error texts and plans retries; `FlexClient`, `Statement` and `Handlers` say where such
  texts come from and when an attempt counts as done, `Refusals` which category failed queries give it,
  and `Attempts` follows both to the job's row.
- `Windows`, `CashFetch`, `CashRuns` and `CashHoles` follow a cash run from its window to what is
  stored after any number of runs, and show where the guarantee stops. `Trades` is the other kind of
  run.
- `CronText` and `Cron` go from a schedule line to its fire times, `Catchup` to the slots without a
  job, `Diagnose` to the verdict a reader sees.
- `HttpMetrics` and `Settings` stand alone.

Instants are integers in microseconds, calendar days are day numbers, a time zone is a function from
UTC minutes to offsets in minutes. What IB answers, and what a write comes to, is arbitrary.

## Where the code differs from its documentation

The model follows the code; each difference is a lemma.

- The repository's README (57-69) describes the fetch windows as if both kinds split a long outage
  into chunks. Only the cash run does. After an outage that makes the trades window span more than 366
  days, every automatic trades run is refused and none is ever done (`Trades.LongOutageIsNeverDone`).
- The no-lost-day guarantee needs that in no run a chunk with days not stored yet fails before a newer
  chunk that answers, which holds by itself for one-chunk windows (`CashRuns.NoLostCashDay`,
  `CashRuns.OneChunkIsSafe`). Every pattern that breaks this can lose a day: the next window starts
  behind the hole (`CashHoles.OlderFailureLosesADay`). Once every stored account is past it, no run
  whose default days do not reach it fills it (`CashHoles.HoleStays`). Runs in which nothing fails fill
  it exactly when a window reaches it (`CashHoles.HoleFillsWhenReached`), which takes an account that
  lags that far behind, or the default or initial days (`CashHoles.ReachesBack`).
- The same README (22-37) describes the throttle cooldown as one of the token, and says (46-49) that a
  run-now is refused while it lasts. The cooldown covers the jobs pending when it is written
  (`Runs.CooldownHolds`). Beside the throttled job, which has its own wait, only these are claimed before it
  ends (`Runs.ClaimedInCooldown`): a job inserted later (`Limits.LateJobSkipsCooldown`), one that was
  running then and is reclaimed later (`Limits.OrphanSkipsCooldown`), and a deferred job that run-now
  clears. Run-now looks at the category of its own row: it is refused for the throttled job
  (`Runs.OnlyForceBreaksCooldown`), and accepted for a job that was deferred with another category
  (`Limits.RunNowSkipsCooldown`). A throttle on the last attempt cools nothing at all
  (`Limits.LastThrottleCoolsNothing`).
- The same README (49-51) and `worker/catchup.py` say a late Dagster enqueue of the same day does nothing.
  One that names no day does nothing exactly while a job of its UTC day is active
  (`Limits.DaylessEnqueue`). The catch-up's job carries the local day of the planned fire, so an
  enqueue in the evening of the schedule's zone is for another day and adds a second active job
  (`Limits.EnqueueBesideCatchup`, `Limits.EveningIsAnotherDay`); and once the day's job is done, any
  enqueue of the day adds one (`Limits.DoneDayIsQueuedAgain`).
- `next_fires` rounds up from a minute after its argument, and so passes over the next full minute
  when called off the minute (`Cron.SkippedFire`).

An attempt can fail although it fetched and wrote everything: dispatch opens a connection before the
run and writes the freshness row after it, and an error in either sends the job to a retry. And with
fallback on, one refusal can go unreported (`Refusals.MiddleRefusalIsDropped`).

## Model

| member | source | states |
|---|---|---|
| `Queue.JobTable.ClaimNext` | `src/bifrost_flex_query/worker/claim.py:57-92` | Takes the pending job whose wait is over and which comes first by priority, age and id, marks it running and counts the attempt; answers None exactly when no job qualifies, and then changes nothing. |
| `Queue.JobTable.ReclaimStaleRunning` | `src/bifrost_flex_query/worker/claim.py:95-135` | Exactly the rows running longer than max(60, stale) seconds go back to pending, or to failed when their attempts are used up; every other row stays. |
| `Queue.JobTable.MarkDone` | `src/bifrost_flex_query/worker/claim.py:138-152` | The whole new table after a finished attempt: one row done, no other row touched. |
| `Queue.JobTable.MarkRetry` | `src/bifrost_flex_query/worker/claim.py:155-171` | The whole new table after a retry: the row is pending again and waits the delay, with its category. |
| `Queue.JobTable.MarkFailed` | `src/bifrost_flex_query/worker/claim.py:174-189` | The whole new table after a final failure; an id that is not there changes nothing. |
| `Queue.JobTable.DeferPending` | `src/bifrost_flex_query/worker/claim.py:192-214` | Raises the wait of every pending job but the excluded one to at least now + delay, never lowers one, and answers exactly those ids. |
| `Queue.JobTable.InsertJob` | `src/bifrost_flex_query/scheduler/enqueue.py:24-67` | None exactly when a pending or running job has the same kind and identity; otherwise one new row under a fresh id, everything else as before. |
| `Queue.JobTable.InsertManualJob` | `src/bifrost_flex_query/scheduler/enqueue.py:109-139` | A new row that is already running, without identity, with its only attempt used up. |
| `Queue.JobTable.EnqueueSlot` | `src/bifrost_flex_query/scheduler/daily.py:81-120` | Unknown slot, deduplicated or inserted, each exactly when, for the name as strip() and lower() leave it and, when no day is given, the UTC day of the moment it was asked; the inserted row has the slot's priority and attempt budget. |
| `Queue.SlotJobIsSlotRow` | `src/bifrost_flex_query/scheduler/daily.py:81-120` | The row a slot enqueues, column by column: the schedule's priority and budget (8 without one), the payload with its day and no fallback unless it says so, the identity without the two knobs. |
| `Queue.JobTable.RunJobNow` | `src/bifrost_flex_query/api/ingest.py:101-148` | Refused when the row is missing, not pending, or cooling down unforced, each exactly when; an accepted job is runnable at any instant from then on. |
| `Queue.KnobsAreNotIdentity` | `src/bifrost_flex_query/scheduler/daily.py:97-111` | Two payloads are the same job exactly when they agree on every key except the execution knobs. |
| `Worker.InitInv` | `src/bifrost_flex_query/schema/ddl.py:132-138` | An empty table satisfies the invariant. |
| `Worker.EnqueuedIsFresh` | `src/bifrost_flex_query/scheduler/daily.py:81-120` | An enqueue adds at most one row, under a new id, exactly when no active row has its identity. |
| `Worker.StepRows` | `src/bifrost_flex_query/worker/claim.py:57-214` | In any step of worker, API, lost connection or crash a row keeps kind, identity, budget and creation time, counts exactly its claims, and never becomes active again once it is not. |
| `Worker.StepKeepsUnique` | `src/bifrost_flex_query/schema/ddl.py:132-138` | No step, retry, reclaim or repeat included, can make two active rows share an identity, so none can hit the partial unique index. |
| `Worker.StepKeepsRowsOk` | `src/bifrost_flex_query/worker/claim.py:57-135` | Pending rows have attempts to spare, running rows have used at least one and no row more than its budget, after every step. |
| `Worker.StepKeepsManual` | `src/bifrost_flex_query/api/manual_ops.py:30-62` | A manual row stays outside the queue whatever happens. |
| `Worker.StepKeepsPhase` | `src/bifrost_flex_query/worker/loop.py:151-218` | What the worker holds in hand (claimed job, planned retry, missed slots) stays true of the table until it is saved, repeats included. |
| `Worker.StepKeepsInv` | `src/bifrost_flex_query/worker/loop.py:62-80` | The whole invariant is kept by every step, including a step run twice and a claim that is forgotten. |
| `Runs.ReachableIsSafe` | `src/bifrost_flex_query/worker/loop.py:100-220` | In every reachable state: attempts within budget, pending below it, running at or above one, identities unique. |
| `Runs.RowPersists` | `src/bifrost_flex_query/worker/claim.py:57-214` | Rows are never deleted and keep who they are over any stretch of a run. |
| `Runs.AttemptsCountClaims` | `src/bifrost_flex_query/worker/claim.py:57-92` | After any run the attempts of a job are exactly its claims in that run. |
| `Runs.ClaimsWithinBudget` | `src/bifrost_flex_query/worker/retry.py:114-138` | No job is claimed more than max_attempts times, over any interleaving with crashes, lost claims and repeats. |
| `Runs.ManualNeverClaimed` | `src/bifrost_flex_query/scheduler/enqueue.py:109-139` | A row inserted as a manual run is never pending and never claimed in any run. |
| `Runs.ClaimsAreConserved` | `src/bifrost_flex_query/worker/claim.py:57-135` | Attempts left plus claims made equals the attempts there were plus those granted by new rows. |
| `Runs.ClaimsAreBounded` | `src/bifrost_flex_query/worker/claim.py:57-135` | Over a fixed job set the number of claims in a run of any length is at most the attempts left at its start. |
| `Runs.StepKeepsHeld` | `src/bifrost_flex_query/worker/claim.py:155-214` | No step but run-now shortens the wait of a pending job. |
| `Runs.HeldUntil` | `src/bifrost_flex_query/worker/claim.py:155-214` | A held job stays held, and so unclaimed, until its time over any run without run-now. |
| `Runs.RetryWaits` | `src/bifrost_flex_query/worker/claim.py:155-171` | A job put back with delay d is not claimed before its step time + d unless run-now cleared it. |
| `Runs.CooldownHolds` | `src/bifrost_flex_query/worker/claim.py:192-214` | After defer_pending with delay d no other job pending at that step is claimed before step time + d unless run-now cleared it. |
| `Runs.ClaimedInCooldown` | `src/bifrost_flex_query/worker/claim.py:192-214` | Whoever is claimed before a cooldown ends was inserted since, was running when it was written, was cleared by a run-now since, or is the throttled job itself. |
| `Runs.ThrottleCoolsFirst` | `src/bifrost_flex_query/worker/loop.py:180-210` | Between a saved throttle retry and the next claim lies a committed cooldown of the same delay, or a crash; the lemma returns which step. |
| `Runs.OnlyForceBreaksCooldown` | `src/bifrost_flex_query/api/ingest.py:101-148` | A throttled job is not claimed before its cooldown ends, whatever run-now requests come in after it was saved, unless one of them forces it. |
| `Runs.AttemptsAreSpaced` | `src/bifrost_flex_query/worker/retry.py:80-97` | Two claims of a job are at least 30 seconds per attempt apart without run-now, stale reclaims included. |
| `Runs.ClaimsAreSpaced` | `src/bifrost_flex_query/worker/retry.py:80-97` | The n-th claim of a job comes at least 30(n-1) seconds after its first. |
| `Runs.CatchesOnce` | `src/bifrost_flex_query/worker/catchup.py:68-95` | Over any run, repeats after a lost connection included, catch-up inserts at most one job per slot and planned fire. |
| `Runs.CheckCovers` | `src/bifrost_flex_query/worker/catchup.py:21-51` | One read lists every overdue slot without a job, and one insert leaves its slot with a job since the fire or an active one of the day. |
| `Runs.CheckCompletes` | `src/bifrost_flex_query/worker/catchup.py:68-95` | A check that ends by itself, however often lost connections made it start over and whatever the API did meanwhile, leaves every slot overdue at its last read with a job since the fire or an active one of the day. |
| `Runs.PollTakesTheNext` | `src/bifrost_flex_query/worker/claim.py:57-92` | In the machine too a poll claims exactly the row the ORDER BY puts first, and finds nothing exactly when no row qualifies. |
| `Runs.IdlePollsReclaim` | `src/bifrost_flex_query/worker/loop.py:154-158` | As many idle polls in a row as configured lead to the reclaim, whatever the API does in between. |
| `Runs.ReclaimChecks` | `src/bifrost_flex_query/worker/loop.py:158-161` | The reclaim ends every run that is stale, and the check follows it unless it is switched off. |
| `Runs.LostAnswerRepeats` | `src/bifrost_flex_query/worker/loop.py:62-80` | A statement whose answer was lost is run again before anything else. |
| `Runs.LostClaimIsForgotten` | `src/bifrost_flex_query/worker/loop.py:62-80` | A claim whose answer was lost leaves its job running and the worker polling. |
| `Limits.LateJobSkipsCooldown` | `src/bifrost_flex_query/worker/claim.py:192-214` | A job enqueued right after the cooldown is claimable at once. |
| `Limits.RunNowSkipsCooldown` | `src/bifrost_flex_query/api/ingest.py:101-148` | Nor does it hold back a deferred job whose own category is not throttled: an unforced run-now is accepted during the cooldown and the job is claimable at once. |
| `Limits.OrphanSkipsCooldown` | `src/bifrost_flex_query/worker/claim.py:95-135` | Nor does it cover a job left running by a crash or a lost claim: its reclaim gives it the reclaim delay alone, and a run then claims it while the token still cools. |
| `Limits.LastThrottleCoolsNothing` | `src/bifrost_flex_query/worker/retry.py:114-138` | A throttle on the last attempt fails the job and defers no other row. |
| `Limits.DoneDayIsQueuedAgain` | `src/bifrost_flex_query/scheduler/enqueue.py:42-67` | Deduplication ends with the job: the same day enqueues as a no-op while the job is active and adds a second one once it is done. |
| `Limits.DaylessEnqueue` | `src/bifrost_flex_query/scheduler/daily.py:97-111` | An enqueue that names no day is a no-op exactly when a job of its UTC day is active. |
| `Limits.EnqueueBesideCatchup` | `src/bifrost_flex_query/worker/catchup.py:49` | Beside a catch-up's active job it is a no-op when the local day of the planned fire is the UTC day of the enqueue, and adds a second active job when it is not and the UTC day has none. |
| `Limits.EveningIsAnotherDay` | `src/bifrost_flex_query/scheduler/daily.py:98-99` | Four hours behind UTC an evening enqueue falls on another UTC day than the morning fire of the same local day. |
| `Runs.IdsStayOrdered` | `src/bifrost_flex_query/scheduler/enqueue.py:42-67` | In every reachable state ids come in the order of creation exactly as long as no row was inserted by a transaction that began before an earlier row was created. |
| `WorkerLoop.Loop.Idle` | `src/bifrost_flex_query/worker/loop.py:154-170` | Below the configured number of idle polls nothing changes but the counter; at it the counter starts over, no job that was running too long still runs, and with the catch-up on every overdue slot is looked after. Either way it is a run of the state machine. |
| `WorkerLoop.Loop.Tidy` | `src/bifrost_flex_query/worker/loop.py:156-167` | The due idle poll itself: the reclaim and then the catch-up, each at its own reading of the clock. |
| `WorkerLoop.Loop.Startup` | `src/bifrost_flex_query/worker/loop.py:138-141` | Before the first poll no job that was running too long still runs. |
| `WorkerLoop.Loop.CheckUp` | `src/bifrost_flex_query/worker/loop.py:160-169` | The catch-up call is a run of the state machine, or is given up when a plan does not parse. |
| `WorkerLoop.Loop.SettleFailure` | `src/bifrost_flex_query/worker/loop.py:180-210` | The failed attempt on the table: a configuration error or a spent budget fails the job, otherwise it waits the delay of its own category, and for a throttle every other pending job waits as long; as a run of the state machine. |
| `WorkerLoop.PlannedFailureIsSaved` | `src/bifrost_flex_query/worker/retry.py:114-138` | The same of the plan alone: which columns of which rows it changes, category by category. |
| `WorkerLoop.Loop.Settle` | `src/bifrost_flex_query/worker/loop.py:180-217` | Saving an attempt is a run of the state machine back to polling, through mark_done exactly when the attempt returned, with exactly one of the three counters raised. |
| `WorkerLoop.Loop.Turn` | `src/bifrost_flex_query/worker/loop.py:151-218` | One turn of the loop, with any API requests during the attempt, claims the next job exactly when there is one, counts it done exactly when its attempt returned, saves a failure as a wait of its category or as failed, and refines the state machine from polling to polling. |
| `WorkerLoop.Loop.TakeJob` | `src/bifrost_flex_query/worker/loop.py:152-217` | The whole poll that found a job: its claim, its attempt with the requests meanwhile and its saved outcome, as one run of the machine that starts with that claim. |
| `WorkerLoop.Loop.Work` | `src/bifrost_flex_query/worker/loop.py:170-217` | The claimed job's part of it: the requests meanwhile, then its row done, or saved as its failure is. |
| `WorkerLoop.Loop.Serve` | `src/bifrost_flex_query/api/ingest.py:31-148` | Each API request leaves the table as said of its columns: an enqueue adds the slot's row or nothing, run-now clears the wait or nothing, a manual run's row appears running and ends done or failed. Each is a run of the state machine, refused ones none. |
| `WorkerLoop.Loop.ServeAll` | `src/bifrost_flex_query/worker/loop.py:170-180` | So is any sequence of them while an attempt is under way, each served on the table the one before left. |
| `Attempts.CashAttempt` | `src/bifrost_flex_query/worker/handlers.py:101-134` | A cash job is marked done exactly when its connection opened, every configured query and every chunk of it answered, the write went through and the freshness row was written. When queries were refused and nothing else went wrong, its row is saved with the worst category of IB's refusals. |
| `Attempts.TradesAttempt` | `src/bifrost_flex_query/worker/handlers.py:101-134` | The same for a trades job and its queries. |
| `Attempts.RefusedTokenCoolsTheQueue` | `src/bifrost_flex_query/worker/handlers.py:21-31` | If any refusal quotes 1018 and an attempt is left, the job waits as throttled and every other pending job waits as long. |
| `Attempts.CashAuditIsComplete` | `src/bifrost_flex_query/api/manual_ops.py:43-62` | A manual cash run passes the audit by the criterion of a queued one: every query and chunk answered and the write went through. |
| `Attempts.TradesAuditIsComplete` | `src/bifrost_flex_query/api/manual_ops.py:43-62` | The same for a manual trades run. |
| `Attempts.AuditFinish` | `src/bifrost_flex_query/api/manual_ops.py:43-62` | The row of a manual run becomes done or failed by that test, with the category of its error, and no other row changes. |
| `Attempts.ManualCash` | `src/bifrost_flex_query/api/manual_ops.py:43-62` | The row of a manual cash run ends done exactly when the run was complete, failed otherwise. |
| `Attempts.ManualTrades` | `src/bifrost_flex_query/api/manual_ops.py:43-62` | The same for a manual trades run. |
| `Retry.SummarizeCategories` | `src/bifrost_flex_query/worker/retry.py:141-154` | The scan finds the worst category of the messages. |
| `Retry.SummaryBounds` | `src/bifrost_flex_query/worker/retry.py:141-154` | That category is one of the messages' own and none is worse; unknown for no messages. |
| `Retry.FindAllIsEveryMatch` | `src/bifrost_flex_query/worker/retry.py:56-58` | Scanning on behind each match still finds every bracketed four-digit code, wherever it stands. |
| `Retry.CodesAcrossSeam` | `src/bifrost_flex_query/worker/retry.py:56-58` | The codes of two texts put together with "; " or ": " are the union of the codes of both. |
| `Retry.ContainsAcrossSeam` | `src/bifrost_flex_query/worker/retry.py:33-54` | A marker occurs in the joined text exactly when it occurs in one of the parts: none straddles the separator. |
| `Retry.ClassifyAcrossSeam` | `src/bifrost_flex_query/worker/retry.py:61-73` | Classifying the joined text gives the worse of the two categories. |
| `Retry.ClassifyByTheTable` | `src/bifrost_flex_query/worker/retry.py:28-73` | Each category in IB's numbers and words, and which of them goes first. |
| `Retry.JoinIsSummarized` | `src/bifrost_flex_query/worker/retry.py:141-154` | For every list of messages, classifying their "; " join equals summarising them. |
| `Retry.JoinedCodes` | `src/bifrost_flex_query/worker/retry.py:56-58` | The codes of a joined list are exactly the codes of its members. |
| `Retry.PartialFailureIsSummarized` | `src/bifrost_flex_query/worker/handlers.py:21-31` | The prefix a partial failure gets changes nothing: the worker classifies the worst of the errors. |
| `Retry.PolicyFromConfig` | `src/bifrost_flex_query/worker/retry.py:77-97` | Every delay is the configured number or its default, never below 30 seconds, and any other value falls back. |
| `Retry.PlanIsSound` | `src/bifrost_flex_query/worker/retry.py:114-138` | A retry is planned only with attempts to spare and for a category that may be retried, waits exactly its own category's delay, at least the floor, and cools the queue exactly for a throttle. |
| `Cron.IterCronFires` | `src/bifrost_flex_query/scheduler/cronutil.py:64-79` | The minute-by-minute loop returns the scan's list. |
| `Cron.ScanExact` | `src/bifrost_flex_query/scheduler/cronutil.py:48-79` | That list is strictly increasing and holds exactly the matching minutes. |
| `Cron.FiresExact` | `src/bifrost_flex_query/scheduler/cronutil.py:64-79` | Started off the minute it holds exactly the matches in [start, end), none lost. |
| `Cron.PreviousFireIsLast` | `src/bifrost_flex_query/scheduler/cronutil.py:90-95` | previous_fire is the last match before its argument within the horizon, None exactly when there is none. |
| `Cron.NextFiresAreFirst` | `src/bifrost_flex_query/scheduler/cronutil.py:82-87` | next_fires are the first matches from a minute on, and nothing earlier is left out from there. |
| `Cron.NoFireBetween` | `src/bifrost_flex_query/scheduler/cronutil.py:82-95` | On a full minute no match lies strictly between it and either answer. |
| `Cron.SkippedFire` | `src/bifrost_flex_query/scheduler/cronutil.py:82-87` | Off the minute next_fires passes over exactly one instant, the next full minute. |
| `Cron.WeeklyFire` | `src/bifrost_flex_query/scheduler/cronutil.py:48-79` | With a fixed offset, fields that can be met are met in every seven days. |
| `Cron.WeeklyBound` | `src/bifrost_flex_query/scheduler/cronutil.py:82-95` | previous_fire exists and next_fires is not empty exactly when the fields admit a minute, an hour and a weekday in range. |
| `CronText.ParseField` | `src/bifrost_flex_query/scheduler/cronutil.py:27-34` | The loop over the comma parts yields their union, or a ValueError exactly when a part does not parse. |
| `CronText.ParseCron` | `src/bifrost_flex_query/scheduler/cronutil.py:37-45` | Five words give the three fields; any other line, or a field that does not parse, is a ValueError. |
| `CronText.IntOfSigned` | `src/bifrost_flex_query/scheduler/cronutil.py:14-24` | A sign in front of a number is read, and no digits at all is a ValueError. |
| `CronText.FieldMeans` | `src/bifrost_flex_query/scheduler/cronutil.py:14-34` | A written field parses exactly when no step is 0, to the values its parts allow in range. |
| `CronText.WordsOfSpread` | `src/bifrost_flex_query/scheduler/cronutil.py:37-38` | Splitting a line gives back the words it was put together from, whatever the whitespace between them. |
| `CronText.LineFires` | `src/bifrost_flex_query/scheduler/cronutil.py:14-57` | A written line parses exactly when no step is 0, and its plan fires exactly in the minutes its three fields allow; day and month never matter. |
| `CronText.WrittenLine` | `src/bifrost_flex_query/scheduler/cronutil.py:37-45` | A written line is never taken for an empty one: it is read as its plan, or refused exactly when a step is 0. |
| `Catchup.NewestPerKind` | `src/bifrost_flex_query/worker/catchup.py:54-65` | The newest creation time per kind decides exactly whether a job was created since any instant. |
| `Catchup.MissedListExact` | `src/bifrost_flex_query/worker/catchup.py:21-51` | Missed are exactly the slots whose last fire is older than the grace, at most a day old, and without a job since; each once. |
| `Catchup.GraceSec` | `src/bifrost_flex_query/scheduler/daily.py:73-78` | The grace period is the configured number or 2700 seconds, and at least 300. |
| `Catchup.PlannedFromText` | `src/bifrost_flex_query/worker/catchup.py:36-40` | From the written cron line of a slot to its last planned fire: the latest minute of the lookback that the line allows, none exactly when there is none. |
| `Catchup.MissedSlots` | `src/bifrost_flex_query/worker/catchup.py:21-51` | The loop with its early exits returns that list, or a ValueError exactly when some slot's cron line does not parse. |
| `Catchup.CatchupIdentityIsTheDay` | `src/bifrost_flex_query/scheduler/daily.py:97-111` | A catch-up job has the identity of its day and nothing else. |
| `Catchup.AfterInsertsCovers` | `src/bifrost_flex_query/worker/catchup.py:68-95` | A list of inserts looks after every listed slot, keeps every row and adds nothing else. |
| `Catchup.CatchupMissedSlots` | `src/bifrost_flex_query/worker/catchup.py:68-95` | Afterwards every overdue slot has a job since its fire or an active job of the day, and only catch-up jobs were added; with a plan that does not parse nothing is. |
| `Windows.SplitWindow` | `src/bifrost_flex_query/orchestration/transactions.py:100-110` | The loop returns the chunk list; an inverted window is passed on as it is. |
| `Windows.ChunksAreConsecutive` | `src/bifrost_flex_query/orchestration/transactions.py:100-110` | The chunks are nonempty, at most the span long, follow each other day by day and begin and end with the window. |
| `Windows.ChunksPartition` | `src/bifrost_flex_query/orchestration/transactions.py:100-110` | Every day of the window lies in exactly one chunk, and no other day in any. |
| `Windows.ChunksAreFewest` | `src/bifrost_flex_query/orchestration/transactions.py:100-110` | No cover of the window by windows of that span is smaller. |
| `Windows.ChunksAreAccepted` | `src/bifrost_flex_query/client/flex_client.py:125-132` | The 366-day check of a request never refuses a chunk. |
| `Windows.TransactionsWindow` | `src/bifrost_flex_query/orchestration/transactions.py:78-97` | The window ends yesterday and starts at the earliest of the accounts' last days and the default days, or at the initial days. |
| `Windows.WindowReachesBack` | `src/bifrost_flex_query/orchestration/transactions.py:78-97` | It reaches back to every counted account's last stored day and no further than the earliest of them or the default days. |
| `CashFetch.FetchChunk` | `src/bifrost_flex_query/orchestration/transactions.py:267-297` | One chunk's requests as the code sends them, with the widened request only where it is allowed. |
| `CashFetch.ChunkReplyIs` | `src/bifrost_flex_query/orchestration/transactions.py:267-297` | A chunk is answered, broken or failed exactly as IB's answers to its one or two requests say, with those rows or those texts. |
| `CashFetch.FetchAll` | `src/bifrost_flex_query/orchestration/transactions.py:189-204` | The entry by chunk loop gathers exactly the rows and labelled errors of its requests, up to an exception. |
| `CashFetch.EntriesRecorded` | `src/bifrost_flex_query/orchestration/transactions.py:189-204` | A run that ends has every failure with a text among its errors, and no error without its failure. |
| `CashFetch.EntriesHold` | `src/bifrost_flex_query/orchestration/transactions.py:189-204` | The rows of a run that ends are exactly those of IB's answers. |
| `CashFetch.EntriesDie` | `src/bifrost_flex_query/orchestration/transactions.py:189-204` | A run is ended by an exception exactly when some request raised one, and carries such a one's text. |
| `CashFetch.FailureSpeaks` | `src/bifrost_flex_query/orchestration/transactions.py:267-297` | A chunk that fails has a text that is not blank, alone or under its label. |
| `CashFetch.DoneExactly` | `src/bifrost_flex_query/worker/handlers.py:21-31` | The handler returns exactly when IB answered every query and every chunk of it and the rows it sent, if any, were written; it reports that many. |
| `CashFetch.DoneMeansComplete` | `src/bifrost_flex_query/worker/handlers.py:101-134` | A queued attempt returns exactly when it is complete in that sense, its connection opened and the freshness row was written; nothing is assumed of IB's error texts. |
| `CashFetch.SilentFailureIsDone` | `src/bifrost_flex_query/orchestration/transactions.py:189-204` | What that rests on: the loop itself takes a failure with an empty text for none, and the attempt would be done with nothing fetched. |
| `CashRuns.LastDatesOf` | `src/bifrost_flex_query/orchestration/transactions.py:47-75` | The date read for a counted account is its last stored day. |
| `CashRuns.LastDatesExactly` | `src/bifrost_flex_query/orchestration/transactions.py:47-75` | A date is read for exactly the accounts with stored rows that have executions, or for all of them when no account has any. |
| `CashRuns.EarlierDaysComeToo` | `src/bifrost_flex_query/orchestration/transactions.py:177-221` | If no chunk with days past the stored ones fails before one that answers, a run that brings a day brings every earlier day of its window that is not stored. |
| `CashRuns.RunKeepsGapless` | `src/bifrost_flex_query/orchestration/transactions.py:78-97` | One more run, whatever fails in it, leaves no gap below the account's last stored day. |
| `CashRuns.FirstRunIsGapless` | `src/bifrost_flex_query/orchestration/transactions.py:177-221` | The run that first stores the account stores it without a gap from the window's start. |
| `CashRuns.NoLostCashDay` | `src/bifrost_flex_query/orchestration/transactions.py:177-221` | Over any sequence of scheduled runs every IB row between the first window's start and the last stored day is stored, as long as in each run no chunk with days past the stored ones fails before one that answers. |
| `CashRuns.OneChunkIsSafe` | `src/bifrost_flex_query/orchestration/transactions.py:182-188` | A window of one chunk meets that condition whatever fails. |
| `CashHoles.ReachesBack` | `src/bifrost_flex_query/orchestration/transactions.py:78-97` | A window starts at or before a day exactly when a counted account lags that far behind or the default days reach it; with no counted row stored, when the initial days do. |
| `CashHoles.HoleStays` | `src/bifrost_flex_query/orchestration/transactions.py:78-97` | A hole every stored account has got past stays one over any number of later runs whose default days do not reach it. |
| `CashHoles.HoleFillsWhenReached` | `src/bifrost_flex_query/orchestration/transactions.py:177-221` | If nothing fails any more, a missing row is stored exactly once some run's window reaches its day. |
| `CashHoles.OlderFailureLosesADay` | `src/bifrost_flex_query/orchestration/transactions.py:78-97` | For every window, first or later, and every pattern that breaks that condition, some ledger loses a day that no number of later runs stores as long as their default days do not reach it. |
| `Trades.FetchWithFallback` | `src/bifrost_flex_query/orchestration/trades.py:38-110` | At most three requests, one when fallback is off; the first non-empty answer is the result, and an empty one only if every request answered empty. |
| `Trades.ChainIs` | `src/bifrost_flex_query/orchestration/trades.py:38-110` | A query is answered or broken exactly as IB's answers to its one to three requests say, with the rows of the first that brought any. |
| `Trades.RowsSpan` | `src/bifrost_flex_query/orchestration/utils.py:9-39` | The first and last dated day of the rows; undated rows do not count. |
| `Trades.FetchQueries` | `src/bifrost_flex_query/orchestration/trades.py:186-222` | A count per query, a span per answered query and an error per failed one; the spans together span all the rows. |
| `Trades.GatherRows` | `src/bifrost_flex_query/orchestration/trades.py:186-222` | The rows gathered are exactly those of the answered queries. |
| `Trades.GatherErrors` | `src/bifrost_flex_query/orchestration/trades.py:186-222` | The errors are exactly those of the failed queries, under their names. |
| `Trades.GatherCounts` | `src/bifrost_flex_query/orchestration/trades.py:186-222` | A count per query: its rows, or -1 when it failed. |
| `Trades.GatherDies` | `src/bifrost_flex_query/orchestration/trades.py:221-222` | The loop is ended by the first query that raised something other than a refusal. |
| `Trades.DataSpan` | `src/bifrost_flex_query/orchestration/trades.py:242-264` | The range put together from the queries' spans is the range of all the rows. |
| `Trades.DoneExactly` | `src/bifrost_flex_query/orchestration/trades.py:224-240` | The handler returns exactly when every query answered and the rows there were got written. |
| `Trades.DoneMeansComplete` | `src/bifrost_flex_query/worker/handlers.py:101-134` | A queued trades attempt returns exactly when it is complete, its connection opened and the freshness row was written. |
| `Trades.TradesWindowReach` | `src/bifrost_flex_query/orchestration/trades.py:163-184` | The trades window ends yesterday, starts the default days behind the newest trade or the initial days back, and is refused exactly when it spans over 366 days. |
| `Trades.RefusedRunFails` | `src/bifrost_flex_query/orchestration/trades.py:186-240` | A run whose window is refused fails and writes nothing, whatever IB would answer. |
| `FlexClient.SpanErrorIsFinal` | `src/bifrost_flex_query/client/flex_client.py:125-137` | The refusal of an over-long range is not one the fallback reacts to. |
| `Trades.LongOutageIsNeverDone` | `src/bifrost_flex_query/orchestration/trades.py:163-222` | Once a trades window is refused, no later automatic run is ever done and the newest stored trade stays where it is, over any sequence of runs whose days settings do not shrink. |
| `Statement.GetStatement` | `src/bifrost_flex_query/client/flex_client.py:197-228` | The first report among 24 polls, or the last reason when there is none; another exception ends it at once. |
| `Statement.GivingUpKeepsTheCode` | `src/bifrost_flex_query/client/flex_client.py:197-228` | Giving up is classified as what IB last said, and as transient when that says nothing worse. |
| `FlexClient.MessageSpeaks` | `src/bifrost_flex_query/client/flex_client.py:110-160` | None of the errors a fetch raises has a blank text. |
| `FlexClient.SendFailureIsItsReason` | `src/bifrost_flex_query/client/flex_client.py:142-149` | A request that could not be sent has the category of its reason. |
| `FlexClient.RefusalShowsItsCode` | `src/bifrost_flex_query/client/flex_client.py:150-156` | The code IB refuses a request with is among those the worker reads from the error. |
| `FlexClient.RefusalIsItsCode` | `src/bifrost_flex_query/worker/retry.py:61-73` | A refusal with 1018 is a throttle; one with a configuration or not-ready code is never taken for something milder. |
| `Handlers.SpokenKeepsNonBlank` | `src/bifrost_flex_query/worker/handlers.py:21-31` | Exactly the errors that are not blank count. |
| `Handlers.ManualAgreesWithWorker` | `src/bifrost_flex_query/api/manual_ops.py:43-62` | A manual run is done by the worker's criterion, except that a missing ok entry counts against it. |
| `Handlers.PartialFailureCategory` | `src/bifrost_flex_query/worker/handlers.py:21-31` | An attempt with failed queries is classified as the worst of their errors. |
| `Refusals.CashFailureCategory` | `src/bifrost_flex_query/worker/handlers.py:21-31` | A cash attempt of which some chunk was refused, nothing else going wrong, raises a text of the worst category among IB's refusals, also when no row came in. |
| `Refusals.TradesFailureCategory` | `src/bifrost_flex_query/worker/handlers.py:21-31` | The same for a trades attempt and the refusals its queries report. |
| `Refusals.CashSetupFailure` | `src/bifrost_flex_query/orchestration/transactions.py:145-168` | An error before the first request is raised as it is, missing credentials as a configuration error. |
| `Refusals.CashBreakIsRaised` | `src/bifrost_flex_query/orchestration/transactions.py:256-258` | An exception of a request is raised as it is. |
| `Refusals.CashWriteFailure` | `src/bifrost_flex_query/orchestration/transactions.py:221-258` | A write that raises is raised as it is. |
| `Refusals.TradesSetupFailure` | `src/bifrost_flex_query/orchestration/trades.py:120-162` | An error before the first request is raised as it is, missing credentials as a configuration error. |
| `Refusals.TradesBreakIsRaised` | `src/bifrost_flex_query/orchestration/trades.py:221-222` | An exception of a query's request is raised as it is. |
| `Refusals.TradesWriteFailure` | `src/bifrost_flex_query/orchestration/trades.py:292-398` | What raises behind the fetch is raised as it is. |
| `Refusals.MiddleRefusalIsDropped` | `src/bifrost_flex_query/orchestration/trades.py:72-110` | With fallback on, a refusal of the query default goes unreported when the dated request was refused before it. |
| `Handlers.ManualFailureCategory` | `src/bifrost_flex_query/api/manual_ops.py:43-62` | A failed manual run has the category a queued attempt with the same answer has, whether all or some queries failed. |
| `Diagnose.AssessKind` | `src/bifrost_flex_query/ops/diagnose.py:169-298` | The verdict, its time and its actions for every status; "queued" exactly when the queue would claim the newest job, an offered run-now enabled exactly when it would be accepted. |
| `Diagnose.NewestIsLatest` | `src/bifrost_flex_query/api/ops.py:44-52` | With ids in order of creation, the newest row alone tells whether a job was created since an instant. |
| `Diagnose.MissedAgreesWithCatchup` | `src/bifrost_flex_query/ops/diagnose.py:142-152` | "missed" exactly when the catch-up would list the slot and its newest job is absent or done. |
| `Diagnose.ReachableCheckAgrees` | `src/bifrost_flex_query/ops/diagnose.py:142-298` | The same on every reachable queue whose inserts did not overlap. |
| `Diagnose.OverlapParts` | `src/bifrost_flex_query/ops/diagnose.py:142-152` | Without any order of ids: a listed slot is never overlooked, and the check says missed alone exactly when the newest id is a done job from before an overdue fire while an older id came since. |
| `Diagnose.Worst` | `src/bifrost_flex_query/ops/diagnose.py:301-305` | The worst verdict there is; unknown exactly for none. |
| `Diagnose.WorstIsOverall` | `src/bifrost_flex_query/ops/diagnose.py:301-305` | The overall verdict has no more urgent one beside it, from failed down to idle. |
| `Diagnose.NextStepFits` | `src/bifrost_flex_query/ops/diagnose.py:376-398` | The next step finds the verdict it names and speaks of such a kind, with that kind's time. |
| `Diagnose.Diagnose` | `src/bifrost_flex_query/ops/diagnose.py:401-440` | The overall verdict is the worst kind's, attention only for failed checks beside ok or idle, and the next step fits it. |
| `HttpMetrics.Histogram.Observe` | `src/bifrost_flex_query/api/http_metrics.py:73-79` | One more observation, with the bucket counters still telling the observations. |
| `HttpMetrics.Histogram.Render` | `src/bifrost_flex_query/api/http_metrics.py:81-93` | Each rendered bucket counts the observations at or below its bound, buckets never fall and end at the count. |
| `HttpMetrics.BumpTallies` | `src/bifrost_flex_query/api/http_metrics.py:73-79` | Bumping the first bucket that can hold a value keeps every cumulative count right. |
| `HttpMetrics.CoarseSumsToFine` | `src/bifrost_flex_query/api/http_metrics.py:109-123` | At any bound the per-(handler, method) counts add up to the count over all timed observations. |
| `HttpMetrics.RequestsSumToCount` | `src/bifrost_flex_query/api/http_metrics.py:109-123` | For a timed handler the request counters summed over status equal the number of its observations. |
| `HttpMetrics.BucketsIncrease` | `src/bifrost_flex_query/api/http_metrics.py:48-52` | Both bucket lists increase, and the coarse bounds are among the fine ones. |
| `HttpMetrics.Metrics.Observe` | `src/bifrost_flex_query/api/http_metrics.py:109-123` | An observation is recorded once, with its method folded and its status classed, or not at all. |
| `HttpMetrics.Metrics.Reset` | `src/bifrost_flex_query/api/http_metrics.py:103-107` | A reset forgets every observation. |
| `HttpMetrics.Metrics.CoarseAgreesWithFine` | `src/bifrost_flex_query/api/http_metrics.py:109-123` | In every state the observations of the labelled histograms add up to the fine one's at any bound. |
| `HttpMetrics.Metrics.RenderedBucketsAgree` | `src/bifrost_flex_query/api/http_metrics.py:81-123` | The printed counters agree: the labelled buckets at 0.1, 0.5 and 1.0 seconds add up to the fine histogram's bucket of the same bound. |
| `HttpMetrics.Metrics.RequestsAgreeWithCount` | `src/bifrost_flex_query/api/http_metrics.py:109-123` | In every state the counters of a timed (handler, method) sum to its histogram's count. |
| `Settings.WritesMerge` | `src/bifrost_flex_query/orchestration/config_rw.py:256-289` | Under any interleaving of writers' reads and upserts each half reads back as the last value committed for it, or what it was before. |
| `Settings.WriteRangeDays` | `src/bifrost_flex_query/orchestration/config_rw.py:256-289` | One writer: the given halves are written, the other keeps what is effective at its upsert, even if the row changed since its read. |

## Left out

- PostgreSQL itself: every committed statement is one atomic step at one clock reading, although a
  statement that calls clock_timestamp() twice reads the clock twice. Database, worker and API read
  one clock. A row inserted by the API is dated by the begin of its transaction, one inserted by the
  catch-up by its commit.
- A second worker: mark_done, mark_retry and mark_failed do not check the status they overwrite, so
  the budget and uniqueness results are for the one deployed worker
  (`k8s/base/deployment-worker.yaml:9-11`).
- The six tries of WorkerDb.call: a statement may be repeated any number of times, and giving up is a
  crash, which allows more runs than the code does.
- WorkerLoop.Loop.Turn: loses no connection inside a turn, and takes API requests only while an attempt
  is under way; repeated and forgotten statements, and requests at any other moment, are steps of the
  state machine of `Worker`, where the results about them are proved.
- Collisions of payload_hash: the identity of a job is its payload without the execution knobs.
- Job rows whose kind is blank. What strip() and lower() make of a slot's name is a parameter.
- The result JSON, updated_at, heartbeats, freshness rows and the deletion of old jobs.
- How a day becomes text: an as_of day is a day number.
- A manual run whose outcome could not be written: its row stays running until it is stale.
- Zone offsets that are no whole number of minutes, and daylight saving for the weekly bound, which is
  proved for fixed offsets.
- Texts of more than 4300 digits, which int() refuses; which characters beyond 0-9 are digits is a
  parameter.
- The XML of IB's answers, the mapping of their fields, and the requests themselves: an answer is any
  list of rows, a rejection or another exception.
- The writers of executions and cash transactions: an upsert stores all rows or none; the rows it skips
  for a missing account, id or date are not told apart.
- Configuration files, environment, authorisation, routing, Redis, the health server and the text form
  of the metrics.
- HttpMetrics: seconds are reals, so the rounding of a sum and NaN are not modelled.
- The account query rows that write_flex_config replaces beside the range days.
- The wording of headlines and details, coverage, data age and the single checks of the self-check,
  which are one flag: whether all of them passed.
- The fixed texts of the two fetches' answers are shortened; the client's error texts are whole.
- Dates given by the caller of a manual run, which only choose the window that is asked for.
