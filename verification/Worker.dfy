/** The queue with its one worker (worker/loop.py) and the API beside it, as a state machine.

    Every step is one committed statement, one decision of the worker, or time passing.
    `back` says whether the worker saw the commit return: when it did not, WorkerDb.call
    reconnects and runs the same statement again, so the phase does not move on. A statement lost
    before its commit is no step, except that a catch-up starts over (CatchLost). */
module Worker {
  import opened Prelude
  import opened Queue
  import opened Catchup
  import opened Retry

  datatype Config = Config(
    staleSec: int, requeueSec: int, reclaimEvery: int, catchupEnabled: bool, policy: Policy, schedule: Schedule)

  predicate GoodConfig(c: Config) {
    && Floored(c.policy)
    && forall slot :: slot in SLOTS ==> AttemptBudget(SlotOf(c.schedule.slots, slot)) >= 1
  }

  datatype Phase =
    | Down
    | Starting
    | Polling(idle: int)
    | Reclaiming
    | CatchReading
    | CatchInserting(todo: seq<Missed>)
    | Working(id: nat, attempts: int, maxAttempts: int)
    | SavingDone(id: nat)
    | SavingRetry(id: nat, category: Category, delay: int, cooldown: int)
    | SavingFailed(id: nat, category: Category)
    | Cooling(id: nat, delay: int)

  datatype World = World(
    rows: Table,
    lastId: nat,
    now: int,
    phase: Phase,
    manual: set<nat>,        // every row insert_manual_job wrote
    openRuns: set<nat>,      // those whose request has not finished yet
    clears: multiset<nat>)   // run-now requests between their check and their UPDATE

  datatype Event =
    | Tick(span: nat)
    | Crash
    | Start
    | StartupReclaim(back: bool)
    | Claim(id: nat, back: bool)
    | ClaimNothing
    | IdleReclaim(back: bool)
    | CatchRead
    | CatchInsert(back: bool)
    | CatchLost
    | CatchGiveUp
    | AttemptOk
    | AttemptFailed(category: Category)
    | SaveDone(back: bool)
    | SaveRetry(back: bool)
    | SaveFailed(back: bool)
    | Cool(back: bool)
    | Enqueue(slot: string, payload: Payload, asked: int, began: int)
    | ManualStart(kind: string, payload: Payload, began: int)
    | ManualFinish(id: nat, ok: bool, category: Category)
    | RunNowCheck(id: nat, force: bool)
    | RunNowClear(id: nat)

  function CategoryName(c: Category): string {
    match c
    case Throttled => "throttled"
    case Config => "config"
    case NotReady => "not_ready"
    case Transient => "transient"
    case Unknown => "unknown"
  }

  ghost predicate Enabled(c: Config, w: World, e: Event) {
    match e
    case Tick(_) => true
    case Crash => !w.phase.Down?
    case Start => w.phase.Down?
    case StartupReclaim(_) => w.phase.Starting?
    case Claim(id, _) => w.phase.Polling? && IsNext(w.rows, w.now, id)
    case ClaimNothing => w.phase.Polling? && NothingRunnable(w.rows, w.now)
    case IdleReclaim(_) => w.phase.Reclaiming?
    case CatchRead => w.phase.CatchReading? && PlansReadable(c.schedule)
    case CatchInsert(_) => w.phase.CatchInserting? && w.phase.todo != []
    case CatchLost => w.phase.CatchInserting?
    case CatchGiveUp => w.phase.CatchReading? || w.phase.CatchInserting?
    case AttemptOk => w.phase.Working?
    case AttemptFailed(_) => w.phase.Working?
    case SaveDone(_) => w.phase.SavingDone?
    case SaveRetry(_) => w.phase.SavingRetry?
    case SaveFailed(_) => w.phase.SavingFailed?
    case Cool(_) => w.phase.Cooling?
    case Enqueue(slot, _, asked, began) => slot in SLOTS && asked <= began <= w.now
    case ManualStart(_, _, began) => began <= w.now
    case ManualFinish(id, _, _) => id in w.openRuns
    case RunNowCheck(id, force) => id in w.rows && RunNowAllowed(w.rows[id], w.now, force)
    case RunNowClear(id) => id in w.clears
  }

  const POLL := Polling(0)

  /** The table after INSERT ... ON CONFLICT DO NOTHING of a slot job in a transaction begun at `began`. */
  ghost function Enqueued(c: Config, w: World, slot: string, payload: Payload, asked: int, began: int): Table {
    if HasActive(w.rows, slot, IdentityOf(WithDay(payload, asked))) then w.rows
    else w.rows[w.lastId + 1 := SlotJob(c.schedule.slots, slot, payload, asked, began)]
  }

  ghost function RowsAfter(c: Config, w: World, e: Event): Table
    requires Enabled(c, w, e)
  {
    match e
    case StartupReclaim(_) => Reclaimed(w.rows, w.now, c.staleSec, c.requeueSec)
    case Claim(id, _) => Claimed(w.rows, id, w.now)
    case IdleReclaim(_) => Reclaimed(w.rows, w.now, c.staleSec, c.requeueSec)
    case CatchInsert(_) => Enqueued(c, w, w.phase.todo[0].slot, CatchupPayload(w.phase.todo[0]), w.now, w.now)
    case SaveDone(_) => MarkedDone(w.rows, w.phase.id, w.now)
    case SaveRetry(_) => MarkedRetry(w.rows, w.phase.id, w.now, CategoryName(w.phase.category), w.phase.delay)
    case SaveFailed(_) => MarkedFailed(w.rows, w.phase.id, w.now, Some(CategoryName(w.phase.category)))
    case Cool(_) => Deferred(w.rows, w.now, w.phase.delay, Some(w.phase.id))
    case Enqueue(slot, payload, asked, began) => Enqueued(c, w, slot, payload, asked, began)
    case ManualStart(kind, payload, began) => w.rows[w.lastId + 1 := ManualJob(kind, payload, began)]
    case ManualFinish(id, ok, category) =>
      if ok then MarkedDone(w.rows, id, w.now) else MarkedFailed(w.rows, id, w.now, Some(CategoryName(category)))
    case RunNowClear(id) => WaitCleared(w.rows, id)
    case _ => w.rows
  }

  ghost function PhaseAfter(c: Config, w: World, e: Event): Phase
    requires Enabled(c, w, e)
  {
    match e
    case Crash => Down
    case Start => Starting
    case StartupReclaim(back) => if back then POLL else w.phase
    case Claim(id, back) => if back then Working(id, w.rows[id].attempts + 1, w.rows[id].maxAttempts) else w.phase
    case ClaimNothing => if w.phase.idle + 1 >= Max(1, c.reclaimEvery) then Reclaiming else Polling(w.phase.idle + 1)
    case IdleReclaim(back) => if !back then w.phase else if c.catchupEnabled then CatchReading else POLL
    case CatchRead =>
      var todo := MissedList(c.schedule, w.rows, w.now, SLOTS);
      if todo == [] then POLL else CatchInserting(todo)
    case CatchInsert(back) =>
      if !back then CatchReading else if |w.phase.todo| == 1 then POLL else CatchInserting(w.phase.todo[1..])
    case CatchLost => CatchReading
    case CatchGiveUp => POLL
    case AttemptOk => SavingDone(w.phase.id)
    case AttemptFailed(category) =>
      (match PlanRetry(category, w.phase.attempts, w.phase.maxAttempts, c.policy)
       case Final(cat) => SavingFailed(w.phase.id, cat)
       case Again(cat, delay, cooldown) => SavingRetry(w.phase.id, cat, delay, cooldown))
    case SaveDone(back) => if back then POLL else w.phase
    case SaveRetry(back) =>
      if !back then w.phase else if w.phase.cooldown != 0 then Cooling(w.phase.id, w.phase.cooldown) else POLL
    case SaveFailed(back) => if back then POLL else w.phase
    case Cool(back) => if back then POLL else w.phase
    case _ => w.phase
  }

  ghost function Step(c: Config, w: World, e: Event): World
    requires Enabled(c, w, e)
  {
    var rows := RowsAfter(c, w, e);
    World(
      rows,
      if w.lastId + 1 in rows then w.lastId + 1 else w.lastId,
      if e.Tick? then w.now + e.span else w.now,
      PhaseAfter(c, w, e),
      if e.ManualStart? then w.manual + {w.lastId + 1} else w.manual,
      if e.ManualStart? then w.openRuns + {w.lastId + 1}
      else if e.ManualFinish? then w.openRuns - {e.id}
      else w.openRuns,
      if e.RunNowCheck? then w.clears + multiset{e.id}
      else if e.RunNowClear? then w.clears - multiset{e.id}
      else w.clears)
  }

  // The invariant ---------------------------------------------------------------

  predicate RowOk(j: Job, now: int) {
    && 0 <= j.attempts <= j.maxAttempts && 1 <= j.maxAttempts
    && (j.status.Pending? ==> j.attempts < j.maxAttempts)
    && (j.status.Running? ==> 1 <= j.attempts && j.startedAt.Some?)
    && j.createdAt <= now
    && (j.startedAt.Some? ==> j.startedAt.value <= now)
  }

  predicate ManualOk(j: Job) {
    j.identity.None? && j.attempts == 1 && j.maxAttempts == 1 && !j.status.Pending?
  }

  ghost predicate TableOk(w: World) {
    && (forall id :: id in w.rows ==> id <= w.lastId && RowOk(w.rows[id], w.now))
    && UniqueActive(w.rows)
    && w.openRuns <= w.manual
    && (forall id :: id in w.manual ==> id in w.rows && ManualOk(w.rows[id]))
  }

  predicate InHand(w: World, id: nat) {
    id in w.rows && id !in w.manual
  }

  predicate DistinctSlots(todo: seq<Missed>) {
    forall i, j :: 0 <= i < j < |todo| ==> todo[i].slot != todo[j].slot
  }

  ghost predicate PhaseOk(c: Config, w: World) {
    match w.phase
    case Working(id, attempts, maxAttempts) =>
      && InHand(w, id) && w.rows[id].status.Running?
      && w.rows[id].attempts == attempts && w.rows[id].maxAttempts == maxAttempts
    case SavingDone(id) => InHand(w, id) && (w.rows[id].status.Running? || w.rows[id].status.Done?)
    case SavingRetry(id, _, delay, cooldown) =>
      && InHand(w, id) && (w.rows[id].status.Running? || w.rows[id].status.Pending?)
      && w.rows[id].startedAt.Some? && 1 <= w.rows[id].attempts < w.rows[id].maxAttempts
      && delay >= FLOOR && (cooldown == 0 || cooldown == delay)
    case SavingFailed(id, _) => InHand(w, id) && (w.rows[id].status.Running? || w.rows[id].status.Failed?)
    case Cooling(id, delay) => InHand(w, id) && delay >= FLOOR
    case CatchInserting(todo) =>
      && DistinctSlots(todo)
      && forall m :: m in todo ==> m.slot in SLOTS && m.planned <= w.now
    case _ => true
  }

  ghost predicate Inv(c: Config, w: World) {
    TableOk(w) && PhaseOk(c, w)
  }

  /** An empty table, no worker yet. */
  predicate Init(w: World) {
    w.rows == map[] && w.phase.Down? && w.manual == {} && w.openRuns == {} && w.clears == multiset{}
  }

  lemma InitInv(c: Config, w: World)
    requires Init(w)
    ensures Inv(c, w)
  {
  }

  /** What any one step may do to a row that exists. */
  ghost predicate RowStep(e: Event, id: nat, a: Job, b: Job) {
    && b.kind == a.kind && b.identity == a.identity && b.maxAttempts == a.maxAttempts && b.createdAt == a.createdAt
    && b.attempts == a.attempts + (if e.Claim? && e.id == id then 1 else 0)
    && (Active(b) ==> Active(a))
    && (!(e.Claim? && e.id == id) ==> b.startedAt == a.startedAt)
  }

  predicate Inserts(e: Event) {
    e.CatchInsert? || e.Enqueue? || e.ManualStart?
  }

  /** When the transaction of an inserting step began, which dates its row. */
  function Began(w: World, e: Event): int
    requires Inserts(e)
  {
    if e.CatchInsert? then w.now else e.began
  }

  /** A row a step adds. */
  ghost predicate FreshRow(c: Config, w: World, e: Event, id: nat, j: Job) {
    && id == w.lastId + 1 && Inserts(e) && j.createdAt == Began(w, e) <= w.now
    && (e.ManualStart? ==> j == ManualJob(e.kind, e.payload, e.began))
    && (!e.ManualStart? ==>
          && j.status.Pending? && j.attempts == 0 && j.maxAttempts >= 1 && j.startedAt.None?
          && j.identity.Some? && !HasActive(w.rows, j.kind, j.identity.value))
  }

  /** Rows are never deleted, keep who they are, and count exactly their claims. */
  ghost predicate RowsStep(c: Config, w: World, e: Event, w': World) {
    && (forall id :: id in w.rows ==> id in w'.rows && RowStep(e, id, w.rows[id], w'.rows[id]))
    && (forall id :: id in w'.rows && id !in w.rows ==> FreshRow(c, w, e, id, w'.rows[id]))
    && (w'.lastId == w.lastId || (w'.lastId == w.lastId + 1 && w'.lastId in w'.rows))
    && (forall id :: id in w'.rows ==> id <= w'.lastId)
    && w.now <= w'.now && w.manual <= w'.manual
  }

  lemma EnqueuedIsFresh(c: Config, w: World, e: Event, slot: string, payload: Payload, asked: int)
    requires GoodConfig(c) && slot in SLOTS && (e.Enqueue? || e.CatchInsert?) && Began(w, e) <= w.now
    requires forall id :: id in w.rows ==> id <= w.lastId
    ensures var rows := Enqueued(c, w, slot, payload, asked, Began(w, e));
      && (forall id :: id in w.rows ==> id in rows && rows[id] == w.rows[id])
      && (forall id :: id in rows && id !in w.rows ==> FreshRow(c, w, e, id, rows[id]))
      && (forall id :: id in rows ==> id <= w.lastId + 1)
      && (rows == w.rows <==> w.lastId + 1 !in rows)
      && (rows == w.rows <==> HasActive(w.rows, slot, IdentityOf(WithDay(payload, asked))))
  {
    var rows := Enqueued(c, w, slot, payload, asked, Began(w, e));
    if !HasActive(w.rows, slot, IdentityOf(WithDay(payload, asked))) {
      assert w.lastId + 1 in rows && w.lastId + 1 !in w.rows;
    }
  }

  /** A step that adds no row treats each row there is as one step may. */
  lemma StepRow(c: Config, w: World, e: Event, id: nat)
    requires Inv(c, w) && Enabled(c, w, e) && !Inserts(e) && id in w.rows
    ensures id in RowsAfter(c, w, e) && RowStep(e, id, w.rows[id], RowsAfter(c, w, e)[id])
  {
  }

  lemma UpdateRows(c: Config, w: World, e: Event)
    requires Inv(c, w) && Enabled(c, w, e) && !Inserts(e)
    ensures RowsAfter(c, w, e).Keys == w.rows.Keys
    ensures RowsStep(c, w, e, Step(c, w, e))
  {
    var rows := RowsAfter(c, w, e);
    assert rows.Keys == w.rows.Keys;
    forall id | id in w.rows ensures RowStep(e, id, w.rows[id], rows[id]) {
      StepRow(c, w, e, id);
    }
  }

  lemma EnqueueRows(c: Config, w: World, e: Event)
    requires GoodConfig(c) && Inv(c, w) && Enabled(c, w, e) && e.Enqueue?
    ensures RowsStep(c, w, e, Step(c, w, e))
  {
    EnqueuedIsFresh(c, w, e, e.slot, e.payload, e.asked);
  }

  lemma CatchupRows(c: Config, w: World, e: Event)
    requires GoodConfig(c) && Inv(c, w) && Enabled(c, w, e) && e.CatchInsert?
    ensures RowsStep(c, w, e, Step(c, w, e))
  {
    assert w.phase.todo[0] in w.phase.todo;
    EnqueuedIsFresh(c, w, e, w.phase.todo[0].slot, CatchupPayload(w.phase.todo[0]), w.now);
  }

  lemma ManualRows(c: Config, w: World, e: Event)
    requires Inv(c, w) && Enabled(c, w, e) && e.ManualStart?
    ensures RowsStep(c, w, e, Step(c, w, e))
  {
  }

  lemma StepRows(c: Config, w: World, e: Event)
    requires GoodConfig(c) && Inv(c, w) && Enabled(c, w, e)
    ensures RowsStep(c, w, e, Step(c, w, e))
  {
    if e.Enqueue? {
      EnqueueRows(c, w, e);
    } else if e.CatchInsert? {
      CatchupRows(c, w, e);
    } else if e.ManualStart? {
      ManualRows(c, w, e);
    } else {
      UpdateRows(c, w, e);
    }
  }

  lemma RowsKeepUnique(c: Config, w: World, e: Event, w': World)
    requires UniqueActive(w.rows) && RowsStep(c, w, e, w')
    ensures UniqueActive(w'.rows)
  {
    forall i, k | && i in w'.rows && k in w'.rows && i != k
                  && Active(w'.rows[i]) && Active(w'.rows[k]) && w'.rows[i].identity.Some?
      ensures !SameIdentity(w'.rows[k], w'.rows[i].kind, w'.rows[i].identity.value)
    {
      if i in w.rows && k in w.rows {
        assert RowStep(e, i, w.rows[i], w'.rows[i]) && RowStep(e, k, w.rows[k], w'.rows[k]);
      } else if i in w.rows {
        assert RowStep(e, i, w.rows[i], w'.rows[i]) && FreshRow(c, w, e, k, w'.rows[k]);
        assert SameIdentity(w.rows[i], w'.rows[i].kind, w'.rows[i].identity.value);
      } else if k in w.rows {
        assert RowStep(e, k, w.rows[k], w'.rows[k]) && FreshRow(c, w, e, i, w'.rows[i]);
      }
    }
  }

  /** No later transition can ever hit the unique index. */
  lemma StepKeepsUnique(c: Config, w: World, e: Event)
    requires GoodConfig(c) && Inv(c, w) && Enabled(c, w, e)
    ensures UniqueActive(Step(c, w, e).rows)
  {
    StepRows(c, w, e);
    RowsKeepUnique(c, w, e, Step(c, w, e));
  }

  lemma StepKeepsRowOk(c: Config, w: World, e: Event, id: nat)
    requires Inv(c, w) && Enabled(c, w, e) && !Inserts(e) && id in w.rows && id in RowsAfter(c, w, e)
    ensures RowOk(RowsAfter(c, w, e)[id], w.now)
  {
  }

  lemma StepKeepsRowsOk(c: Config, w: World, e: Event)
    requires GoodConfig(c) && Inv(c, w) && Enabled(c, w, e)
    ensures forall id :: id in Step(c, w, e).rows ==> RowOk(Step(c, w, e).rows[id], Step(c, w, e).now)
  {
    StepRows(c, w, e);
    var w' := Step(c, w, e);
    forall id | id in w'.rows ensures RowOk(w'.rows[id], w'.now) {
      if id !in w.rows {
        assert FreshRow(c, w, e, id, w'.rows[id]);
      } else if Inserts(e) {
        InsertsTouchNone(c, w, e, id);
      } else {
        StepKeepsRowOk(c, w, e, id);
      }
    }
  }

  lemma InsertsTouchNone(c: Config, w: World, e: Event, id: nat)
    requires Inv(c, w) && Enabled(c, w, e) && Inserts(e) && id in w.rows
    ensures id in RowsAfter(c, w, e) && RowsAfter(c, w, e)[id] == w.rows[id]
  {
  }

  lemma ManualRowStays(c: Config, w: World, e: Event, id: nat)
    requires Inv(c, w) && Enabled(c, w, e) && id in w.manual
    ensures id in RowsAfter(c, w, e) && ManualOk(RowsAfter(c, w, e)[id])
  {
  }

  lemma StepKeepsManual(c: Config, w: World, e: Event)
    requires GoodConfig(c) && Inv(c, w) && Enabled(c, w, e)
    ensures var w' := Step(c, w, e);
      w'.openRuns <= w'.manual && forall id :: id in w'.manual ==> id in w'.rows && ManualOk(w'.rows[id])
  {
    forall id | id in w.manual ensures id in RowsAfter(c, w, e) && ManualOk(RowsAfter(c, w, e)[id]) {
      ManualRowStays(c, w, e, id);
    }
  }

  /** A job the worker has in hand keeps its status but for the worker's own steps. */
  lemma InHandStays(c: Config, w: World, e: Event, id: nat)
    requires Inv(c, w) && Enabled(c, w, e) && InHand(w, id)
    requires PhaseAfter(c, w, e) == w.phase && HoldsJob(w.phase) && w.phase.id == id
    ensures InHand(Step(c, w, e), id)
    ensures var a, b := w.rows[id], RowsAfter(c, w, e)[id];
      && b.attempts == a.attempts && b.maxAttempts == a.maxAttempts && b.startedAt == a.startedAt
      && (b.status == a.status
          || (w.phase.SavingDone? && b.status.Done?)
          || (w.phase.SavingRetry? && b.status.Pending?)
          || (w.phase.SavingFailed? && b.status.Failed?))
  {
  }

  predicate HoldsJob(p: Phase) {
    p.Working? || p.SavingDone? || p.SavingRetry? || p.SavingFailed? || p.Cooling?
  }

  lemma CatchupKeepsPhase(c: Config, w: World, e: Event)
    requires GoodConfig(c) && Inv(c, w) && Enabled(c, w, e) && (e.CatchRead? || e.CatchInsert?)
    ensures PhaseOk(c, Step(c, w, e))
  {
    if e.CatchRead? {
      MissedListExact(c.schedule, w.rows, w.now, SLOTS);
    }
  }

  /** A worker's own step into a phase that holds a job. */
  lemma MoveKeepsPhase(c: Config, w: World, e: Event)
    requires GoodConfig(c) && Inv(c, w) && Enabled(c, w, e)
    requires PhaseAfter(c, w, e) != w.phase && HoldsJob(PhaseAfter(c, w, e))
    ensures PhaseOk(c, Step(c, w, e))
  {
    if e.AttemptFailed? {
      PlanIsSound(e.category, w.phase.attempts, w.phase.maxAttempts, c.policy);
    }
  }

  lemma StepKeepsPhase(c: Config, w: World, e: Event)
    requires GoodConfig(c) && Inv(c, w) && Enabled(c, w, e)
    ensures PhaseOk(c, Step(c, w, e))
  {
    if e.CatchRead? || e.CatchInsert? {
      CatchupKeepsPhase(c, w, e);
    } else if HoldsJob(PhaseAfter(c, w, e)) {
      if PhaseAfter(c, w, e) == w.phase {
        InHandStays(c, w, e, w.phase.id);
      } else {
        MoveKeepsPhase(c, w, e);
      }
    }
  }

  /** Every step of the worker, the API, a lost connection or a crash keeps the invariant. */
  lemma StepKeepsInv(c: Config, w: World, e: Event)
    requires GoodConfig(c) && Inv(c, w) && Enabled(c, w, e)
    ensures Inv(c, Step(c, w, e))
  {
    StepRows(c, w, e);
    StepKeepsUnique(c, w, e);
    StepKeepsRowsOk(c, w, e);
    StepKeepsManual(c, w, e);
    StepKeepsPhase(c, w, e);
  }
}
