/** worker/loop.py: one turn of run_forever, and why it is a path of the state machine. */
module WorkerLoop {
  import opened Prelude
  import opened Queue
  import opened Catchup
  import opened Retry
  import opened Worker
  import opened Runs

  /** What dispatch did: it returned, or raised with this text. */
  datatype Outcome = Returned | Raised(message: string)

  ghost function Last(ws: seq<World>): World
    requires ws != []
  {
    ws[|ws| - 1]
  }

  lemma Extend(c: Config, ws: seq<World>, es: seq<Event>, e: Event)
    requires Run(c, ws, es) && Enabled(c, Last(ws), e)
    ensures Run(c, ws + [Step(c, Last(ws), e)], es + [e])
  {
    var ws', es' := ws + [Step(c, Last(ws), e)], es + [e];
    forall i | 0 <= i < |es'| ensures Enabled(c, ws'[i], es'[i]) && ws'[i + 1] == Step(c, ws'[i], es'[i]) {
      if i < |es| {
        assert es'[i] == es[i] && ws'[i] == ws[i] && ws'[i + 1] == ws[i + 1];
      }
    }
  }

  /** One more step. */
  lemma Then(c: Config, ws: seq<World>, es: seq<Event>, e: Event) returns (ws': seq<World>, es': seq<Event>)
    requires Run(c, ws, es) && Enabled(c, Last(ws), e)
    ensures ws' == ws + [Step(c, Last(ws), e)] && es' == es + [e]
    ensures Run(c, ws', es') && ws'[0] == ws[0] && Last(ws') == Step(c, Last(ws), e)
  {
    Extend(c, ws, es, e);
    ws', es' := ws + [Step(c, Last(ws), e)], es + [e];
  }

  /** A run-now request that passes its check and clears the wait right after. */
  lemma RunNowPath(c: Config, ws: seq<World>, es: seq<Event>, id: nat, force: bool)
    returns (ws': seq<World>, es': seq<Event>)
    requires Run(c, ws, es) && Numbered(Last(ws)) && Enabled(c, Last(ws), RunNowCheck(id, force))
    ensures Run(c, ws', es') && ws'[0] == ws[0] && es' == es + [RunNowCheck(id, force), RunNowClear(id)]
    ensures Last(ws') == Last(ws).(rows := WaitCleared(Last(ws).rows, id))
  {
    ws', es' := Then(c, ws, es, RunNowCheck(id, force));
    ws', es' := Then(c, ws', es', RunNowClear(id));
  }

  /** An enqueue of a job that is not active. */
  lemma EnqueuePath(c: Config, ws: seq<World>, es: seq<Event>, slot: string, payload: Payload)
    returns (ws': seq<World>, es': seq<Event>)
    requires Run(c, ws, es) && Numbered(Last(ws)) && slot in SLOTS
    requires !HasActive(Last(ws).rows, slot, IdentityOf(WithDay(payload, Last(ws).now)))
    ensures Run(c, ws', es') && ws'[0] == ws[0]
    ensures es' == es + [Event.Enqueue(slot, payload, Last(ws).now, Last(ws).now)]
    ensures var w := Last(ws);
      var job := SlotJob(c.schedule.slots, slot, payload, w.now, w.now);
      Last(ws') == w.(rows := w.rows[w.lastId + 1 := job], lastId := w.lastId + 1)
  {
    ws', es' := Then(c, ws, es, Event.Enqueue(slot, payload, Last(ws).now, Last(ws).now));
  }

  /** A claim. */
  lemma ClaimPath(c: Config, w: World, id: nat) returns (ws: seq<World>, es: seq<Event>)
    requires Numbered(w) && w.phase.Polling? && IsNext(w.rows, w.now, id)
    ensures Run(c, ws, es) && ws[0] == w && es == [Claim(id, true)]
    ensures var rows := Claimed(w.rows, id, w.now);
      Last(ws) == w.(rows := rows, phase := Working(id, rows[id].attempts, rows[id].maxAttempts))
  {
    ws, es := Then(c, [w], [], Claim(id, true));
  }

  /** The start of a manual run, and its end. */
  lemma ManualPath(c: Config, ws: seq<World>, es: seq<Event>, kind: string, payload: Payload)
    returns (ws': seq<World>, es': seq<Event>)
    requires Run(c, ws, es) && Numbered(Last(ws))
    ensures Run(c, ws', es') && ws'[0] == ws[0] && es <= es'
    ensures var w := Last(ws);
      Last(ws') == w.(rows := w.rows[w.lastId + 1 := ManualJob(kind, payload, w.now)], lastId := w.lastId + 1,
                      manual := w.manual + {w.lastId + 1}, openRuns := w.openRuns + {w.lastId + 1})
  {
    ws', es' := Then(c, ws, es, ManualStart(kind, payload, Last(ws).now));
  }

  lemma FinishPath(c: Config, ws: seq<World>, es: seq<Event>, id: nat, ok: bool, category: Category)
    returns (ws': seq<World>, es': seq<Event>)
    requires Run(c, ws, es) && Numbered(Last(ws)) && id in Last(ws).openRuns
    ensures Run(c, ws', es') && ws'[0] == ws[0] && es <= es'
    ensures var w := Last(ws);
      Last(ws') == w.(rows := if ok then MarkedDone(w.rows, id, w.now)
                              else MarkedFailed(w.rows, id, w.now, Some(CategoryName(category))),
                      openRuns := w.openRuns - {id})
  {
    ws', es' := Then(c, ws, es, ManualFinish(id, ok, category));
  }

  predicate Numbered(w: World) {
    forall id :: id in w.rows ==> id <= w.lastId
  }

  lemma InsertStep(c: Config, w: World)
    requires Numbered(w) && w.phase.CatchInserting? && w.phase.todo != []
    ensures var m := w.phase.todo[0];
      var after := AfterInsert(c.schedule, w.rows, w.lastId, m, w.now);
      && Step(c, w, CatchInsert(true)) ==
         w.(rows := after.0, lastId := after.1,
            phase := if |w.phase.todo| == 1 then POLL else CatchInserting(w.phase.todo[1..]))
      && Numbered(Step(c, w, CatchInsert(true)))
  {
    CatchupIdentityIsTheDay(w.phase.todo[0], w.now);
  }

  /** The inserts of a catch-up call, one step each, end where AfterInserts says. */
  lemma {:induction false} CatchupPath(c: Config, ws: seq<World>, es: seq<Event>)
    returns (ws': seq<World>, es': seq<Event>)
    requires Run(c, ws, es) && Numbered(Last(ws)) && Last(ws).phase.CatchInserting? && Last(ws).phase.todo != []
    ensures Run(c, ws', es') && ws'[0] == ws[0] && es <= es'
    ensures var w := Last(ws);
      var after := AfterInserts(c.schedule, w.rows, w.lastId, w.phase.todo, w.now);
      Last(ws') == w.(rows := after.0, lastId := after.1, phase := POLL)
    decreases |Last(ws).phase.todo|
  {
    var w := Last(ws);
    InsertStep(c, w);
    ws', es' := Then(c, ws, es, CatchInsert(true));
    if |w.phase.todo| > 1 {
      ws', es' := CatchupPath(c, ws', es');
    }
  }

  /** The reclaim of an idle poll, a little later. */
  lemma ReclaimPath(c: Config, ws: seq<World>, es: seq<Event>, wait: nat) returns (ws': seq<World>, es': seq<Event>)
    requires Run(c, ws, es) && Numbered(Last(ws)) && Last(ws).phase.Reclaiming?
    ensures Run(c, ws', es') && ws'[0] == ws[0] && IdleReclaim(true) in es'
    ensures var w := Last(ws);
      Last(ws') == w.(rows := Reclaimed(w.rows, w.now + wait, c.staleSec, c.requeueSec), now := w.now + wait,
                      phase := if c.catchupEnabled then CatchReading else POLL)
  {
    ws', es' := Then(c, ws, es, Tick(wait));
    ws', es' := Then(c, ws', es', IdleReclaim(true));
    assert es'[|es'| - 1] == IdleReclaim(true);
  }

  /** A whole catch-up: the read and its inserts, or giving up on a plan that does not parse. */
  lemma CheckPath(c: Config, ws: seq<World>, es: seq<Event>) returns (ws': seq<World>, es': seq<Event>)
    requires Run(c, ws, es) && Numbered(Last(ws)) && Last(ws).phase.CatchReading?
    ensures Run(c, ws', es') && ws'[0] == ws[0] && es <= es'
    ensures var w := Last(ws);
      var after := AfterInserts(c.schedule, w.rows, w.lastId, MissedList(c.schedule, w.rows, w.now, SLOTS), w.now);
      Last(ws') ==
      if PlansReadable(c.schedule) then w.(rows := after.0, lastId := after.1, phase := POLL) else w.(phase := POLL)
  {
    var e := if PlansReadable(c.schedule) then CatchRead else CatchGiveUp;
    ws', es' := Then(c, ws, es, e);
    if Last(ws').phase.CatchInserting? {
      ws', es' := CatchupPath(c, ws', es');
    }
  }

  /** The table after a failed attempt has been saved. */
  ghost function AfterFailure(t: Table, job: nat, plan: Plan, now: int): Table {
    match plan
    case Final(cat) => MarkedFailed(t, job, now, Some(CategoryName(cat)))
    case Again(cat, delay, cooldown) =>
      var retried := MarkedRetry(t, job, now, CategoryName(cat), delay);
      if cooldown != 0 then Deferred(retried, now, cooldown, Some(job)) else retried
  }

  /** A failed attempt on the table, column by column: with an attempt left and no configuration error the
      job waits its category's delay, and for a throttle every other pending job waits as long too;
      otherwise it has failed. */
  ghost predicate FailureSaved(was: Table, t: Table, job: nat, category: Category, attempts: int, maxAttempts: int,
                               p: Policy, now: int) {
    && t.Keys == was.Keys && job in was
    && (category == Category.Config || attempts >= maxAttempts ==>
          t[job] == was[job].(status := Failed, category := Some(Named(category)), finishedAt := Some(now)))
    && (category == NotReady && attempts < maxAttempts ==>
      Waits(was[job], t[job], "not_ready", now + p.notReady * SECOND))
    && (category == Throttled && attempts < maxAttempts ==>
      Waits(was[job], t[job], "throttled", now + p.throttled * SECOND))
    && (category == Transient && attempts < maxAttempts ==>
      Waits(was[job], t[job], "transient", now + p.transient * SECOND))
    && (category == Unknown && attempts < maxAttempts ==> Waits(was[job], t[job], "unknown", now + p.unknown * SECOND))
    && forall k :: k in was && k != job ==>
         t[k] ==
           if category == Throttled && attempts < maxAttempts && was[k].status == Pending
           then was[k].(notBefore := Some(Max(if was[k].notBefore.Some? then was[k].notBefore.value else now,
                                             now + p.throttled * SECOND)))
           else was[k]
  }

  predicate Waits(a: Job, b: Job, category: string, until: int) {
    b == a.(status := Pending, notBefore := Some(until), category := Some(category), finishedAt := None)
  }

  /** The words of ErrorCategory. */
  function Named(category: Category): (name: string)
    ensures name in {"not_ready", "throttled", "config", "transient", "unknown"}
    ensures name == CategoryName(category)
  {
    if category == NotReady then "not_ready"
    else if category == Throttled then "throttled"
    else if category == Category.Config then "config"
    else if category == Transient then "transient"
    else "unknown"
  }

  lemma PlannedFailureIsSaved(t: Table, job: nat, category: Category, attempts: int, maxAttempts: int, p: Policy,
                              now: int)
    requires job in t && Floored(p)
    ensures FailureSaved(t, AfterFailure(t, job, PlanRetry(category, attempts, maxAttempts, p), now),
                         job, category, attempts, maxAttempts, p, now)
  {
    PlanIsSound(category, attempts, maxAttempts, p);
  }

  /** From a planned retry to its saved row and, for a throttle, the cooled queue. */
  lemma RetryPath(c: Config, ws: seq<World>, es: seq<Event>) returns (ws': seq<World>, es': seq<Event>)
    requires Run(c, ws, es) && Last(ws).phase.SavingRetry? && Numbered(Last(ws)) && forall e :: e in es ==> !e.SaveDone?
    ensures Run(c, ws', es') && ws'[0] == ws[0] && forall e :: e in es' ==> !e.SaveDone?
    ensures var w := Last(ws);
      var plan := Again(w.phase.category, w.phase.delay, w.phase.cooldown);
      Last(ws') == w.(rows := AfterFailure(w.rows, w.phase.id, plan, w.now), phase := POLL)
  {
    ws', es' := Then(c, ws, es, SaveRetry(true));
    if Last(ws').phase.Cooling? {
      ws', es' := Then(c, ws', es', Cool(true));
    }
  }

  /** The steps from a failed attempt to its saved plan. */
  lemma FailurePath(c: Config, w: World, category: Category) returns (ws: seq<World>, es: seq<Event>)
    requires Numbered(w) && w.phase.Working?
    ensures Run(c, ws, es) && ws[0] == w && forall e :: e in es ==> !e.SaveDone?
    ensures var plan := PlanRetry(category, w.phase.attempts, w.phase.maxAttempts, c.policy);
      Last(ws) == w.(rows := AfterFailure(w.rows, w.phase.id, plan, w.now), phase := POLL)
  {
    ws, es := Then(c, [w], [], AttemptFailed(category));
    if Last(ws).phase.SavingFailed? {
      ws, es := Then(c, ws, es, SaveFailed(true));
    } else {
      ws, es := RetryPath(c, ws, es);
    }
  }

  /** What the API can be asked for; a finished manual run brings its outcome. */
  datatype Request =
    | Enqueue(slot: string, payload: Payload)
    | RunNow(id: nat, force: bool)
    | Manual(kind: string, payload: Payload)
    | Finish(id: nat, ok: bool, category: Category)

  /** Every job that was running too long is running no more. */
  ghost predicate NoneStale(was: Table, t: Table, staleSec: int, now: int) {
    forall k :: k in was && was[k].status == Running && Since(was[k]) + Max(60, staleSec) * SECOND < now ==>
      k in t && t[k].status != Running
  }

  function Since(j: Job): int {
    if j.startedAt.Some? then j.startedAt.value else j.createdAt
  }

  lemma NoneStaleGrows(was: Table, t: Table, more: Table, staleSec: int, now: int)
    requires NoneStale(was, t, staleSec, now) && Grows(t, more)
    ensures NoneStale(was, more, staleSec, now)
  {
  }

  /** Every overdue slot has a job since its fire or an active job of the day. */
  ghost predicate AllCovered(s: Schedule, t: Table, now: int) {
    forall slot :: slot in SLOTS && OverdueAt(s, slot, now) ==> Covered(t, MissedAt(s, slot, now))
  }

  datatype Timed = Timed(request: Request, at: int)

  /** The table and its last id after one request, column by column. */
  ghost predicate Served(s: map<string, SlotConfig>, was: Table, wasLast: nat, t: Table, last: nat, r: Request,
                         at: int) {
    match r
    case Enqueue(slot, payload) =>
      if slot !in {"flex-trades", "flex-transactions"} || HasActive(was, slot, IdentityOf(WithDay(payload, at)))
      then t == was && last == wasLast
      else
        && last == wasLast + 1 && t.Keys == was.Keys + {last} && (forall k :: k in was && k != last ==> t[k] == was[k])
        && IsSlotRow(t[last], s, slot, payload, at, at)
    case RunNow(id, force) =>
      && last == wasLast
      && t == if id in was && was[id].status == Pending
                 && (force || was[id].category != Some("throttled")
                     || was[id].notBefore.None? || was[id].notBefore.value <= at)
              then was[id := was[id].(notBefore := None)] else was
    case Manual(kind, payload) => last == wasLast + 1 && t == was[last := ManualJob(kind, payload, at)]
    case Finish(id, ok, category) =>
      && last == wasLast
      && t == if id !in was then was
              else if ok then was[id := was[id].(status := Done, category := None, finishedAt := Some(at))]
              else was[id := was[id].(status := Failed, category := Some(Named(category)), finishedAt := Some(at))]
  }

  type Stored = (Table, nat)

  /** The tables between the requests of a sequence. */
  ghost predicate AllServed(s: map<string, SlotConfig>, ts: seq<Stored>, rs: seq<Timed>) {
    && |ts| == |rs| + 1
    && forall i {:trigger rs[i]} :: 0 <= i < |rs| ==>
         Served(s, ts[i].0, ts[i].1, ts[i + 1].0, ts[i + 1].1, rs[i].request, rs[i].at)
  }

  lemma OneMoreServed(s: map<string, SlotConfig>, ts: seq<Stored>, rs: seq<Timed>, r: Timed, t: Stored)
    requires AllServed(s, ts, rs) && Served(s, ts[|rs|].0, ts[|rs|].1, t.0, t.1, r.request, r.at)
    ensures AllServed(s, ts + [t], rs + [r])
  {
    var ts', rs' := ts + [t], rs + [r];
    forall i | 0 <= i < |rs'|
      ensures Served(s, ts'[i].0, ts'[i].1, ts'[i + 1].0, ts'[i + 1].1, rs'[i].request, rs'[i].at)
    {
      if i < |rs| {
        assert rs'[i] == rs[i] && ts'[i] == ts[i] && ts'[i + 1] == ts[i + 1];
      }
    }
  }

  /** The requests come one after the other between two instants. */
  predicate InTurn(requests: seq<Timed>, first: int, last: int) {
    if requests == [] then first <= last
    else first <= requests[0].at && InTurn(requests[1..], requests[0].at, last)
  }

  /** Each run that finishes is an open one, and finishes once. */
  predicate FinishesOpenRuns(requests: seq<Timed>, open: set<nat>) {
    requests == [] ||
      if requests[0].request.Finish?
      then requests[0].request.id in open && FinishesOpenRuns(requests[1..], open - {requests[0].request.id})
      else FinishesOpenRuns(requests[1..], open)
  }

  lemma {:induction false} MoreOpenRuns(requests: seq<Timed>, open: set<nat>, more: set<nat>)
    requires FinishesOpenRuns(requests, open) && open <= more
    ensures FinishesOpenRuns(requests, more)
  {
    if requests != [] {
      if requests[0].request.Finish? {
        MoreOpenRuns(requests[1..], open - {requests[0].request.id}, more - {requests[0].request.id});
      } else {
        MoreOpenRuns(requests[1..], open, more);
      }
    }
  }

  class Loop {
    const config: Config
    const digits: DigitTable
    const table: JobTable
    var idleTicks: int
    var jobsDone: nat
    var jobsFailed: nat
    var jobsRetried: nat
    var staleReclaimed: nat
    var catchups: nat

    constructor (config: Config, digits: DigitTable, table: JobTable)
      ensures this.config == config && this.digits == digits && this.table == table && idleTicks == 0
      ensures jobsDone == jobsFailed == jobsRetried == staleReclaimed == catchups == 0
    {
      this.config := config;
      this.digits := digits;
      this.table := table;
      idleTicks, jobsDone, jobsFailed, jobsRetried, staleReclaimed, catchups := 0, 0, 0, 0, 0, 0;
    }

    /** The world as the queue stands, around an API state `api`. */
    ghost function View(api: World, now: int, phase: Phase): World
      reads this, table
    {
      api.(rows := table.rows, lastId := table.lastId, now := now, phase := phase)
    }

    /** Before the first poll: what a process that died left running too long is put back or failed. */
    method Startup(ghost api: World, now: int) returns (ghost ws: seq<World>, ghost es: seq<Event>)
      requires GoodConfig(config) && table.Valid() && idleTicks == 0
      modifies this`staleReclaimed, table
      ensures table.Valid()
      ensures Run(config, ws, es) && ws[0] == old(View(api, now, Starting)) && Last(ws) == View(api, now, POLL)
      ensures NoneStale(old(table.rows), table.rows, config.staleSec, now)
    {
      ws, es := Then(config, [View(api, now, Starting)], [], StartupReclaim(true));
      var reclaimed := table.ReclaimStaleRunning(now, config.staleSec, config.requeueSec);
      staleReclaimed := |reclaimed|;
    }

    /** The table is that of world `w`. */
    ghost predicate Shows(w: World)
      reads this, table
    {
      w.rows == table.rows && w.lastId == table.lastId
    }

    /** An idle poll, the clock read for it, for the reclaim and for the catch-up: every
        `reclaimEvery` of them also reclaims and catches up. */
    method Idle(ghost api: World, now: int, atReclaim: int, atCatchup: int)
      returns (ghost ws: seq<World>, ghost es: seq<Event>, ghost end: int)
      requires GoodConfig(config) && table.Valid() && now <= atReclaim <= atCatchup
      requires NothingRunnable(table.rows, now)
      modifies this, table
      ensures table.Valid()
      ensures Run(config, ws, es) && ws[0] == old(View(api, now, Polling(idleTicks)))
      ensures now <= end <= atCatchup && Last(ws) == View(api, end, Polling(idleTicks))
      ensures old(idleTicks) + 1 < Max(1, config.reclaimEvery) ==>
                idleTicks == old(idleTicks) + 1 && table.rows == old(table.rows) && es == [ClaimNothing]
      ensures old(idleTicks) + 1 >= Max(1, config.reclaimEvery) ==>
                && idleTicks == 0 && IdleReclaim(true) in es
                && NoneStale(old(table.rows), table.rows, config.staleSec, atReclaim)
                && (config.catchupEnabled && PlansReadable(config.schedule) ==>
                      AllCovered(config.schedule, table.rows, atCatchup))
      ensures (jobsDone, jobsFailed, jobsRetried) == old((jobsDone, jobsFailed, jobsRetried))
    {
      ws, es, end := [View(api, now, Polling(idleTicks))], [], now;
      ws, es := Then(config, ws, es, ClaimNothing);
      idleTicks := idleTicks + 1;
      if idleTicks >= Max(1, config.reclaimEvery) {
        idleTicks := 0;
        ws, es, end := Tidy(api, now, atReclaim, atCatchup, ws, es);
      }
    }

    /** The idle poll that is due: the reclaim and, unless it is switched off, the catch-up. */
    method Tidy(ghost api: World, now: int, atReclaim: int, atCatchup: int, ghost ws: seq<World>, ghost es: seq<Event>)
      returns (ghost ws': seq<World>, ghost es': seq<Event>, ghost end: int)
      requires GoodConfig(config) && table.Valid() && now <= atReclaim <= atCatchup && idleTicks == 0
      requires Run(config, ws, es) && Last(ws) == View(api, now, Reclaiming)
      modifies this`staleReclaimed, this`catchups, table
      ensures table.Valid()
      ensures Run(config, ws', es') && ws'[0] == ws[0] && IdleReclaim(true) in es'
      ensures atReclaim <= end <= atCatchup && Last(ws') == View(api, end, POLL)
      ensures NoneStale(old(table.rows), table.rows, config.staleSec, atReclaim)
      ensures config.catchupEnabled && PlansReadable(config.schedule) ==>
                AllCovered(config.schedule, table.rows, atCatchup)
    {
      ws', es' := ReclaimPath(config, ws, es, atReclaim - now);
      end := atReclaim;
      var more := table.ReclaimStaleRunning(atReclaim, config.staleSec, config.requeueSec);
      staleReclaimed := staleReclaimed + |more|;
      assert NoneStale(old(table.rows), table.rows, config.staleSec, atReclaim);
      if config.catchupEnabled {
        ghost var reclaimed := table.rows;
        ws', es' := CheckUp(api, atReclaim, atCatchup, ws', es');
        NoneStaleGrows(old(table.rows), reclaimed, table.rows, config.staleSec, atReclaim);
        end := atCatchup;
      }
    }

    /** The catch-up call; a plan that does not parse is logged and given up on. */
    method CheckUp(ghost api: World, before: int, now: int, ghost ws: seq<World>, ghost es: seq<Event>)
      returns (ghost ws': seq<World>, ghost es': seq<Event>)
      requires GoodConfig(config) && table.Valid() && before <= now && idleTicks == 0
      requires Run(config, ws, es) && Last(ws) == View(api, before, CatchReading)
      modifies this`catchups, table
      ensures table.Valid()
      ensures Run(config, ws', es') && ws'[0] == ws[0] && Last(ws') == View(api, now, POLL)
      ensures es <= es' && Grows(old(table.rows), table.rows)
      ensures PlansReadable(config.schedule) ==> AllCovered(config.schedule, table.rows, now)
    {
      ws', es' := Then(config, ws, es, Tick(now - before));
      ws', es' := CheckPath(config, ws', es');
      var caught := CatchupMissedSlots(table, config.schedule, now);
      if caught.Some? {
        catchups := catchups + |caught.value|;
      }
    }

    /** The attempt raised: classify, plan, and save what the plan says. */
    method SettleFailure(ghost api: World, job: nat, attempts: int, maxAttempts: int, message: string, now: int)
      returns (ghost ws: seq<World>, ghost es: seq<Event>)
      requires GoodConfig(config) && table.Valid() && idleTicks == 0
      modifies this`jobsRetried, this`jobsFailed, table
      ensures table.Valid()
      ensures Run(config, ws, es) && ws[0] == old(View(api, now, Working(job, attempts, maxAttempts)))
      ensures Last(ws) == View(api, now, POLL)
      ensures forall e :: e in es ==> !e.SaveDone?
      ensures job in old(table.rows) ==>
                FailureSaved(old(table.rows), table.rows, job, Classify(digits, message), attempts, maxAttempts,
                             config.policy, now)
      ensures table.rows == AfterFailure(old(table.rows), job,
        PlanRetry(Classify(digits, message), attempts, maxAttempts, config.policy), now)
      ensures jobsRetried + jobsFailed == old(jobsRetried + jobsFailed) + 1
      ensures var plan := PlanRetry(Classify(digits, message), attempts, maxAttempts, config.policy);
              jobsRetried == old(jobsRetried) + (if plan.Again? then 1 else 0)
    {
      var category := Classify(digits, message);
      if job in table.rows {
        PlannedFailureIsSaved(table.rows, job, category, attempts, maxAttempts, config.policy, now);
      }
      ws, es := FailurePath(config, View(api, now, Working(job, attempts, maxAttempts)), category);
      match PlanRetry(category, attempts, maxAttempts, config.policy) {
        case Again(cat, delay, cooldown) =>
          table.MarkRetry(job, now, CategoryName(cat), delay);
          if cooldown != 0 {
            var deferred := table.DeferPending(now, cooldown, Some(job));
          }
          jobsRetried := jobsRetried + 1;
        case Final(cat) =>
          table.MarkFailed(job, now, Some(CategoryName(cat)));
          jobsFailed := jobsFailed + 1;
      }
    }

    /** The attempt is over: save what it came to. */
    method Settle(ghost api: World, job: nat, attempts: int, maxAttempts: int, outcome: Outcome, now: int)
      returns (ghost ws: seq<World>, ghost es: seq<Event>)
      requires GoodConfig(config) && table.Valid() && idleTicks == 0
      modifies this, table
      ensures table.Valid() && idleTicks == 0
      ensures Run(config, ws, es) && ws[0] == old(View(api, now, Working(job, attempts, maxAttempts)))
      ensures Last(ws) == View(api, now, POLL)
      ensures outcome.Returned? <==> SaveDone(true) in es
      ensures outcome.Returned? ==> table.rows == MarkedDone(old(table.rows), job, now)
      ensures outcome.Raised? && job in old(table.rows) ==>
                FailureSaved(old(table.rows), table.rows, job, Classify(digits, outcome.message), attempts, maxAttempts,
                             config.policy, now)
      ensures outcome.Raised? ==>
                table.rows == AfterFailure(old(table.rows), job,
                  PlanRetry(Classify(digits, outcome.message), attempts, maxAttempts, config.policy), now)
      ensures outcome.Returned? ==>
                jobsDone == old(jobsDone) + 1 && jobsFailed == old(jobsFailed) && jobsRetried == old(jobsRetried)
      ensures outcome.Raised? ==>
                jobsDone == old(jobsDone) && jobsRetried + jobsFailed == old(jobsRetried + jobsFailed) + 1
      ensures outcome.Raised? ==>
                var plan := PlanRetry(Classify(digits, outcome.message), attempts, maxAttempts, config.policy);
                jobsRetried == old(jobsRetried) + (if plan.Again? then 1 else 0)
    {
      match outcome {
        case Returned =>
          ws, es := [View(api, now, Working(job, attempts, maxAttempts))], [];
          ws, es := Then(config, ws, es, AttemptOk);
          ws, es := Then(config, ws, es, SaveDone(true));
          table.MarkDone(job, now);
          jobsDone := jobsDone + 1;
        case Raised(message) =>
          ws, es := SettleFailure(api, job, attempts, maxAttempts, message, now);
      }
    }

    /** POST /flex/ingest/enqueue; a refused or deduplicated one is no step. */
    method ServeEnqueue(ghost ws: seq<World>, ghost es: seq<Event>, slot: string, payload: Payload, now: int)
      returns (ghost ws': seq<World>, ghost es': seq<Event>)
      requires table.Valid() && Run(config, ws, es) && Shows(Last(ws)) && Last(ws).now == now
      modifies table
      ensures table.Valid() && Run(config, ws', es') && ws'[0] == ws[0] && es <= es' && Shows(Last(ws'))
      ensures Last(ws').now == now && Last(ws').phase == Last(ws).phase
      ensures Last(ws').openRuns >= Last(ws).openRuns
      ensures Served(config.schedule.slots, old(table.rows), old(table.lastId), table.rows, table.lastId,
        Request.Enqueue(slot, payload), now)
    {
      ws', es' := ws, es;
      SlotJobIsSlotRow(config.schedule.slots, slot, payload, now, now);
      var answer := table.EnqueueSlot(config.schedule.slots, (name: string) => name, slot, payload, now, now);
      if answer.Inserted? {
        ws', es' := EnqueuePath(config, ws, es, slot, payload);
      }
    }

    /** POST /flex/ingest/jobs/{id}/run-now; a refused one is no step. */
    method ServeRunNow(ghost ws: seq<World>, ghost es: seq<Event>, id: nat, force: bool, now: int)
      returns (ghost ws': seq<World>, ghost es': seq<Event>)
      requires table.Valid() && Run(config, ws, es) && Shows(Last(ws)) && Last(ws).now == now
      modifies table
      ensures table.Valid() && Run(config, ws', es') && ws'[0] == ws[0] && es <= es' && Shows(Last(ws'))
      ensures Last(ws').now == now && Last(ws').phase == Last(ws).phase
      ensures Last(ws').openRuns >= Last(ws).openRuns
      ensures Served(config.schedule.slots, old(table.rows), old(table.lastId), table.rows, table.lastId,
        RunNow(id, force), now)
    {
      ws', es' := ws, es;
      var answer := table.RunJobNow(id, now, force);
      if answer.Cleared? {
        ws', es' := RunNowPath(config, ws, es, id, force);
      }
    }

    /** The row of a manual run that starts. */
    method ServeManual(ghost ws: seq<World>, ghost es: seq<Event>, kind: string, payload: Payload, now: int)
      returns (ghost ws': seq<World>, ghost es': seq<Event>)
      requires table.Valid() && Run(config, ws, es) && Shows(Last(ws)) && Last(ws).now == now
      modifies table
      ensures table.Valid() && Run(config, ws', es') && ws'[0] == ws[0] && es <= es' && Shows(Last(ws'))
      ensures Last(ws').now == now && Last(ws').phase == Last(ws).phase
      ensures Last(ws').openRuns >= Last(ws).openRuns
      ensures Served(config.schedule.slots, old(table.rows), old(table.lastId), table.rows, table.lastId,
        Manual(kind, payload), now)
    {
      ws', es' := ManualPath(config, ws, es, kind, payload);
      var id := table.InsertManualJob(kind, payload, now);
    }

    /** The row of a manual run that ends. */
    method ServeFinish(ghost ws: seq<World>, ghost es: seq<Event>, id: nat, ok: bool, category: Category, now: int)
      returns (ghost ws': seq<World>, ghost es': seq<Event>)
      requires table.Valid() && Run(config, ws, es) && Shows(Last(ws)) && Last(ws).now == now
      requires id in Last(ws).openRuns
      modifies table
      ensures table.Valid() && Run(config, ws', es') && ws'[0] == ws[0] && es <= es' && Shows(Last(ws'))
      ensures Last(ws').now == now && Last(ws').phase == Last(ws).phase
      ensures Last(ws').openRuns == Last(ws).openRuns - {id}
      ensures table.rows == if ok then MarkedDone(old(table.rows), id, now)
                            else MarkedFailed(old(table.rows), id, now, Some(CategoryName(category)))
      ensures Served(config.schedule.slots, old(table.rows), old(table.lastId), table.rows, table.lastId,
        Finish(id, ok, category), now)
    {
      ws', es' := FinishPath(config, ws, es, id, ok, category);
      if ok {
        table.MarkDone(id, now);
      } else {
        table.MarkFailed(id, now, Some(CategoryName(category)));
      }
    }

    /** The API serves one request, in one transaction or, for run-now, its check and its UPDATE. */
    method Serve(ghost ws: seq<World>, ghost es: seq<Event>, r: Request, at: int)
      returns (ghost ws': seq<World>, ghost es': seq<Event>)
      requires table.Valid() && Run(config, ws, es) && Shows(Last(ws)) && Last(ws).now <= at
      requires r.Finish? ==> r.id in Last(ws).openRuns
      modifies table
      ensures table.Valid() && Run(config, ws', es') && ws'[0] == ws[0] && es <= es' && Shows(Last(ws'))
      ensures Last(ws').now == at && Last(ws').phase == Last(ws).phase
      ensures Last(ws').openRuns >= Last(ws).openRuns - (if r.Finish? then {r.id} else {})
      ensures r.Finish? ==>
                table.rows == if r.ok then MarkedDone(old(table.rows), r.id, at)
                              else MarkedFailed(old(table.rows), r.id, at, Some(CategoryName(r.category)))
      ensures Served(config.schedule.slots, old(table.rows), old(table.lastId), table.rows, table.lastId, r, at)
    {
      ws', es' := Then(config, ws, es, Tick(at - Last(ws).now));
      match r {
        case Enqueue(slot, payload) => ws', es' := ServeEnqueue(ws', es', slot, payload, at);
        case RunNow(id, force) => ws', es' := ServeRunNow(ws', es', id, force, at);
        case Manual(kind, payload) => ws', es' := ServeManual(ws', es', kind, payload, at);
        case Finish(id, ok, category) => ws', es' := ServeFinish(ws', es', id, ok, category, at);
      }
    }

    /** The requests that come in while an attempt is under way; `ts` are the tables between them. */
    method ServeAll(ghost ws: seq<World>, ghost es: seq<Event>, requests: seq<Timed>, until: int)
      returns (ghost ws': seq<World>, ghost es': seq<Event>, ghost ts: seq<Stored>)
      requires table.Valid() && Run(config, ws, es) && Shows(Last(ws))
      requires InTurn(requests, Last(ws).now, until) && FinishesOpenRuns(requests, Last(ws).openRuns)
      modifies table
      ensures table.Valid() && Run(config, ws', es') && ws'[0] == ws[0] && es <= es' && Shows(Last(ws'))
      ensures Last(ws').now == until && Last(ws').phase == Last(ws).phase
      ensures AllServed(config.schedule.slots, ts, requests)
      ensures ts[0] == (old(table.rows), old(table.lastId)) && ts[|requests|] == (table.rows, table.lastId)
    {
      ws', es', ts := ws, es, [(table.rows, table.lastId)];
      for n := 0 to |requests|
        invariant table.Valid() && Run(config, ws', es') && ws'[0] == ws[0] && es <= es' && Shows(Last(ws'))
        invariant InTurn(requests[n..], Last(ws').now, until) && Last(ws').phase == Last(ws).phase
        invariant FinishesOpenRuns(requests[n..], Last(ws').openRuns)
        invariant AllServed(config.schedule.slots, ts, requests[..n])
        invariant ts[0] == (old(table.rows), old(table.lastId)) && ts[n] == (table.rows, table.lastId)
      {
        var rest := requests[n..];
        assert rest[0] == requests[n] && rest[1..] == requests[n + 1..];
        ws', es' := ServeNext(ws', es', rest, until);
        OneMoreServed(config.schedule.slots, ts, requests[..n], requests[n], (table.rows, table.lastId));
        ts := ts + [(table.rows, table.lastId)];
        assert requests[..n] + [requests[n]] == requests[..n + 1];
      }
      assert requests[..|requests|] == requests;
      ws', es' := Then(config, ws', es', Tick(until - Last(ws').now));
    }

    /** The first of the requests that are left. */
    method ServeNext(ghost ws: seq<World>, ghost es: seq<Event>, requests: seq<Timed>, ghost until: int)
      returns (ghost ws': seq<World>, ghost es': seq<Event>)
      requires table.Valid() && Run(config, ws, es) && Shows(Last(ws)) && requests != []
      requires InTurn(requests, Last(ws).now, until) && FinishesOpenRuns(requests, Last(ws).openRuns)
      modifies table
      ensures table.Valid() && Run(config, ws', es') && ws'[0] == ws[0] && es <= es' && Shows(Last(ws'))
      ensures InTurn(requests[1..], Last(ws').now, until) && Last(ws').phase == Last(ws).phase
      ensures FinishesOpenRuns(requests[1..], Last(ws').openRuns)
      ensures Served(config.schedule.slots, old(table.rows), old(table.lastId), table.rows, table.lastId,
                     requests[0].request, requests[0].at)
    {
      ghost var open := Last(ws).openRuns;
      if requests[0].request.Finish? {
        open := open - {requests[0].request.id};
      }
      assert FinishesOpenRuns(requests[1..], open);
      ws', es' := Serve(ws, es, requests[0].request, requests[0].at);
      MoreOpenRuns(requests[1..], open, Last(ws').openRuns);
    }

    /** The claimed job's attempt, with any API requests meanwhile, up to its saved outcome. */
    method Work(ghost ws: seq<World>, ghost es: seq<Event>, job: nat, attempts: int, maxAttempts: int, outcome: Outcome,
                requests: seq<Timed>, then_: int)
      returns (ghost ws': seq<World>, ghost es': seq<Event>, ghost ts: seq<Stored>)
      requires GoodConfig(config) && table.Valid() && idleTicks == 0
      requires Run(config, ws, es) && Shows(Last(ws)) && Last(ws).phase == Working(job, attempts, maxAttempts)
      requires InTurn(requests, Last(ws).now, then_) && FinishesOpenRuns(requests, Last(ws).openRuns)
      modifies this, table
      ensures table.Valid() && idleTicks == 0
      ensures Run(config, ws', es') && ws'[0] == ws[0] && es <= es'
      ensures Shows(Last(ws')) && Last(ws').phase == POLL && Last(ws').now == then_
      ensures jobsDone == old(jobsDone) + if outcome.Returned? then 1 else 0
      ensures AllServed(config.schedule.slots, ts, requests) && ts[0] == (old(table.rows), old(table.lastId))
      ensures outcome.Returned? ==> table.rows == MarkedDone(ts[|requests|].0, job, then_)
      ensures outcome.Raised? && job in ts[|requests|].0 ==>
                FailureSaved(ts[|requests|].0, table.rows, job, Classify(digits, outcome.message), attempts,
                             maxAttempts, config.policy, then_)
    {
      ws', es', ts := ServeAll(ws, es, requests, then_);
      ghost var atEnd := Last(ws');
      assert atEnd == View(atEnd, then_, Working(job, attempts, maxAttempts));
      ghost var ws1, es1 := Settle(atEnd, job, attempts, maxAttempts, outcome, then_);
      Glue(config, ws', es', ws1, es1);
      ws', es' := ws' + ws1[1..], es' + es1;
      assert Last(ws') == Last(ws1);
    }

    /** The outcome of a job claimed in `was`, on the table it was saved into: done, or as its failure is. */
    ghost predicate Saved(was: Table, before: Table, after: Table, job: nat, outcome: Outcome, now: int)
      reads this
      requires job in was
    {
      && (outcome.Returned? ==> after == MarkedDone(before, job, now))
      && (outcome.Raised? && job in before ==>
            FailureSaved(before, after, job, Classify(digits, outcome.message), was[job].attempts + 1,
                         was[job].maxAttempts, config.policy, now))
    }

    /** The poll that found job `job` in `was`: from its claim to its saved outcome. */
    method TakeJob(ghost api: World, job: nat, outcome: Outcome, requests: seq<Timed>, now: int, then_: int,
                   ghost was: Table, ghost ticks: int)
      returns (ghost ws: seq<World>, ghost es: seq<Event>, ghost ts: seq<Stored>)
      requires GoodConfig(config) && table.Valid() && idleTicks == 0 && now <= then_
      requires IsNext(was, now, job) && table.rows == Claimed(was, job, now)
      requires Numbered(View(api, now, POLL))
      requires InTurn(requests, now, then_) && FinishesOpenRuns(requests, api.openRuns)
      modifies this, table
      ensures table.Valid() && idleTicks == 0
      ensures Run(config, ws, es) && ws[0] == old(View(api, now, Polling(ticks))).(rows := was)
      ensures Shows(Last(ws)) && Last(ws).phase == POLL && Last(ws).now == then_
      ensures jobsDone == old(jobsDone) + if outcome.Returned? then 1 else 0
      ensures es != [] && es[0] == Claim(job, true)
      ensures AllServed(config.schedule.slots, ts, requests) && ts[0].0 == Claimed(was, job, now)
      ensures Saved(was, ts[|requests|].0, table.rows, job, outcome, then_)
    {
      ghost var start := View(api, now, Polling(ticks)).(rows := was);
      var attempts, maxAttempts := table.rows[job].attempts, table.rows[job].maxAttempts;
      assert Numbered(start) by {
        forall id | id in was ensures id <= table.lastId {
          assert id in View(api, now, POLL).rows;
        }
      }
      ws, es := ClaimPath(config, start, job);
      ws, es, ts := Work(ws, es, job, attempts, maxAttempts, outcome, requests, then_);
    }

    /** One turn of the loop: claimed at `now`, with any API requests during the attempt, and settled at
        `then_`; or idle with its reclaim at `mid` and its catch-up at `then_`. It is a run of the state
        machine from polling back to polling. */
    method Turn(ghost api: World, outcome: Outcome, requests: seq<Timed>, now: int, mid: int, then_: int)
      returns (ghost ws: seq<World>, ghost es: seq<Event>, ghost ts: seq<Stored>)
      requires GoodConfig(config) && table.Valid() && now <= mid <= then_
      requires Inv(config, View(api, now, Polling(idleTicks)))
      requires InTurn(requests, now, then_) && FinishesOpenRuns(requests, api.openRuns)
      modifies this, table
      ensures table.Valid()
      ensures Run(config, ws, es) && ws[0] == old(View(api, now, Polling(idleTicks)))
      ensures Shows(Last(ws)) && Last(ws).phase == Polling(idleTicks) && now <= Last(ws).now <= then_
      ensures jobsDone ==
                old(jobsDone) + if !NothingRunnable(old(table.rows), now) && outcome.Returned? then 1 else 0
      ensures !NothingRunnable(old(table.rows), now) ==>
                && idleTicks == 0 && es != [] && es[0].Claim? && IsNext(old(table.rows), now, es[0].id)
                && AllServed(config.schedule.slots, ts, requests)
                && ts[0].0 == Claimed(old(table.rows), es[0].id, now)
                && Saved(old(table.rows), ts[|requests|].0, table.rows, es[0].id, outcome, then_)
      ensures Inv(config, Last(ws))
    {
      ghost var was, ticks := table.rows, idleTicks;
      var claimed := table.ClaimNext(now);
      ts := [];
      if claimed.None? {
        ghost var end;
        ws, es, end := Idle(api, now, mid, then_);
        assert Last(ws) == View(api, end, Polling(idleTicks));
      } else {
        idleTicks := 0;
        ws, es, ts := TakeJob(api, claimed.value, outcome, requests, now, then_, was, ticks);
      }
      RunKeepsInv(config, ws, es, |es|);
    }
  }

  /** Two runs of which one starts where the other ends are one run. */
  lemma Glue(c: Config, ws: seq<World>, es: seq<Event>, ws': seq<World>, es': seq<Event>)
    requires Run(c, ws, es) && Run(c, ws', es') && Last(ws) == ws'[0]
    ensures Run(c, ws + ws'[1..], es + es')
  {
    var all, events := ws + ws'[1..], es + es';
    forall i | 0 <= i < |events| ensures Enabled(c, all[i], events[i]) && all[i + 1] == Step(c, all[i], events[i]) {
      if i < |es| {
        assert events[i] == es[i] && all[i] == ws[i] && all[i + 1] == ws[i + 1];
      } else {
        var k := i - |es|;
        assert events[i] == es'[k] && all[i] == ws'[k] && all[i + 1] == ws'[k + 1];
      }
    }
  }
}
