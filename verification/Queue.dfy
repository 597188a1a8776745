/** The job table of schema/ddl.py and every statement that changes it (worker/claim.py,
    scheduler/enqueue.py, scheduler/daily.py, api/ingest.py). */
module Queue {
  import opened Prelude

  datatype Status = Pending | Running | Done | Failed

  /** A payload value; an ISO day text stands as its day number. */
  datatype Json = Flag(on: bool) | Text(text: string) | Day(day: int)

  type Payload = map<string, Json>

  datatype Job = Job(
    kind: string,
    payload: Payload,
    identity: Option<Payload>,  // what payload_hash digests; None on a manual row
    priority: int,
    status: Status,
    attempts: int,
    maxAttempts: int,
    notBefore: Option<int>,
    createdAt: int,
    startedAt: Option<int>,
    finishedAt: Option<int>,
    category: Option<string>)

  type Table = map<nat, Job>

  predicate Active(j: Job) {
    j.status.Pending? || j.status.Running?
  }

  predicate SameIdentity(j: Job, kind: string, identity: Payload) {
    j.kind == kind && j.identity == Some(identity)
  }

  /** No two active rows share (kind, payload_hash): the partial unique index. */
  ghost predicate UniqueActive(t: Table) {
    forall i, k :: i in t && k in t && i != k && Active(t[i]) && Active(t[k]) && t[i].identity.Some? ==>
      !SameIdentity(t[k], t[i].kind, t[i].identity.value)
  }

  // claim_next ------------------------------------------------------------------

  predicate Runnable(j: Job, now: int) {
    j.status.Pending? && (j.notBefore.None? || j.notBefore.value <= now)
  }

  /** ORDER BY priority DESC, created_at ASC, id ASC. */
  predicate Before(t: Table, i: nat, k: nat)
    requires i in t && k in t
  {
    || t[i].priority > t[k].priority
    || (t[i].priority == t[k].priority
        && (t[i].createdAt < t[k].createdAt || (t[i].createdAt == t[k].createdAt && i < k)))
  }

  ghost predicate IsNext(t: Table, now: int, id: nat) {
    && id in t && Runnable(t[id], now)
    && forall k :: k in t && k != id && Runnable(t[k], now) ==> Before(t, id, k)
  }

  ghost predicate NothingRunnable(t: Table, now: int) {
    forall k :: k in t ==> !Runnable(t[k], now)
  }

  function ClaimedRow(j: Job, now: int): Job {
    j.(status := Running, attempts := j.attempts + 1, startedAt := Some(now), notBefore := None)
  }

  function Claimed(t: Table, id: nat, now: int): Table
    requires id in t
  {
    t[id := ClaimedRow(t[id], now)]
  }

  // reclaim_stale_running ---------------------------------------------------------

  function StaleAfter(staleSec: int): int {
    Max(60, staleSec) * SECOND
  }

  predicate Stale(j: Job, now: int, staleSec: int) {
    && j.status.Running?
    && (if j.startedAt.Some? then j.startedAt.value else j.createdAt) < now - StaleAfter(staleSec)
  }

  function ReclaimedRow(j: Job, now: int, requeueSec: int): Job {
    if j.attempts < j.maxAttempts
    then j.(status := Pending, notBefore := Some(now + Max(0, requeueSec) * SECOND), finishedAt := None,
            category := Some("stale"))
    else j.(status := Failed, notBefore := None, finishedAt := Some(now), category := Some("stale"))
  }

  function Reclaimed(t: Table, now: int, staleSec: int, requeueSec: int): Table {
    map id | id in t :: if Stale(t[id], now, staleSec) then ReclaimedRow(t[id], now, requeueSec) else t[id]
  }

  // mark_done, mark_retry, mark_failed, defer_pending ------------------------------

  function MarkedDone(t: Table, id: nat, now: int): Table {
    if id in t then t[id := t[id].(status := Done, category := None, finishedAt := Some(now))] else t
  }

  function MarkedRetry(t: Table, id: nat, now: int, category: string, delaySec: int): Table {
    if id in t
    then t[id := t[id].(status := Pending, notBefore := Some(now + delaySec * SECOND), category := Some(category),
                        finishedAt := None)]
    else t
  }

  function MarkedFailed(t: Table, id: nat, now: int, category: Option<string>): Table {
    if id in t then t[id := t[id].(status := Failed, category := category, finishedAt := Some(now))] else t
  }

  function DeferredRow(j: Job, now: int, delaySec: int): Job {
    var current := if j.notBefore.Some? then j.notBefore.value else now;
    j.(notBefore := Some(Max(current, now + delaySec * SECOND)))
  }

  predicate Deferrable(t: Table, id: nat, exclude: Option<nat>) {
    id in t && t[id].status.Pending? && exclude != Some(id)
  }

  function Deferred(t: Table, now: int, delaySec: int, exclude: Option<nat>): Table {
    map id | id in t :: if Deferrable(t, id, exclude) then DeferredRow(t[id], now, delaySec) else t[id]
  }

  /** run_job_now refuses a row that is not pending, and one cooling down unless forced. */
  predicate RunNowAllowed(j: Job, now: int, force: bool) {
    && j.status.Pending?
    && (j.category == Some("throttled") && j.notBefore.Some? && j.notBefore.value > now ==> force)
  }

  /** run_job_now's UPDATE: only a row still pending loses its wait. */
  function WaitCleared(t: Table, id: nat): Table {
    if id in t && t[id].status.Pending? then t[id := t[id].(notBefore := None)] else t
  }

  // insert_job, insert_manual_job ---------------------------------------------------

  ghost predicate HasActive(t: Table, kind: string, identity: Payload) {
    exists k :: k in t && Active(t[k]) && SameIdentity(t[k], kind, identity)
  }

  function NewJob(kind: string, payload: Payload, identity: Payload, priority: int, maxAttempts: int, now: int): Job {
    Job(kind, payload, Some(identity), priority, Pending, 0, maxAttempts, None, now, None, None, None)
  }

  function ManualJob(kind: string, payload: Payload, now: int): Job {
    Job(kind, map["manual" := Flag(true)] + payload, None, 0, Running, 1, 1, None, now, Some(now), None, None)
  }

  // enqueue_slot ----------------------------------------------------------------------

  const SLOTS := ["flex-trades", "flex-transactions"]
  const DEFAULT_SLOT_MAX_ATTEMPTS := 8
  const EXECUTION_KEYS := {"fallback", "catchup"}

  /** A slot of schedule.yaml; a missing number reads as 0. */
  datatype SlotConfig = SlotConfig(cron: string, priority: int, maxAttempts: int)

  const NO_SLOT := SlotConfig("", 0, 0)

  /** strip() and lower() of a slot's name, whose Unicode side is left open: the names themselves
      are in lower case already. */
  type SlotKey = f: string -> string | forall k :: 0 <= k < |SLOTS| ==> f(SLOTS[k]) == SLOTS[k] witness (s: string) => s

  function SlotOf(slots: map<string, SlotConfig>, slot: string): SlotConfig {
    if slot in slots then slots[slot] else NO_SLOT
  }

  function AttemptBudget(s: SlotConfig): int {
    if s.maxAttempts == 0 then DEFAULT_SLOT_MAX_ATTEMPTS else s.maxAttempts
  }

  /** A payload without a day takes the UTC day of the moment it is asked for. */
  function WithDay(payload: Payload, asked: int): Payload {
    if "as_of" in payload then payload else payload["as_of" := Day(UtcDay(asked))]
  }

  function IdentityOf(body: Payload): Payload {
    body - EXECUTION_KEYS
  }

  function QueuedBody(body: Payload): Payload {
    if "fallback" in body then body else body["fallback" := Flag(false)]
  }

  function SlotJob(slots: map<string, SlotConfig>, slot: string, payload: Payload, asked: int, now: int): Job {
    var body := WithDay(payload, asked);
    var s := SlotOf(slots, slot);
    NewJob(slot, QueuedBody(body), IdentityOf(body), s.priority, AttemptBudget(s), now)
  }

  /** A queued slot job, column by column: the schedule's priority and budget (8 when it has none), the
      payload with its day and, unless it says otherwise, no fallback, and the payload without its two
      knobs as identity. */
  ghost predicate IsSlotRow(j: Job, slots: map<string, SlotConfig>, slot: string, payload: Payload, asked: int,
                            now: int) {
    && j.kind == slot && j.status == Pending && j.attempts == 0 && j.createdAt == now
    && j.notBefore == None && j.startedAt == None && j.finishedAt == None && j.category == None
    && j.priority == (if slot in slots then slots[slot].priority else 0)
    && j.maxAttempts == (if slot in slots && slots[slot].maxAttempts != 0 then slots[slot].maxAttempts else 8)
    && (forall k :: k in j.payload <==> k in payload || k == "as_of" || k == "fallback")
    && (forall k :: k in payload ==> j.payload[k] == payload[k])
    && ("as_of" !in payload ==> j.payload["as_of"] == Day(asked / DAY))
    && ("fallback" !in payload ==> j.payload["fallback"] == Flag(false))
    && j.identity.Some?
    && (forall k :: k in j.identity.value <==> k in j.payload && k != "fallback" && k != "catchup")
    && forall k :: k in j.identity.value ==> j.identity.value[k] == j.payload[k]
  }

  lemma SlotJobIsSlotRow(slots: map<string, SlotConfig>, slot: string, payload: Payload, asked: int, now: int)
    ensures IsSlotRow(SlotJob(slots, slot, payload, asked, now), slots, slot, payload, asked, now)
  {
  }

  /** Execution knobs never make a different job, anything else always does. */
  lemma KnobsAreNotIdentity(a: Payload, b: Payload)
    ensures IdentityOf(a) == IdentityOf(b) <==>
      forall k :: k !in EXECUTION_KEYS ==> (k in a <==> k in b) && (k in a ==> a[k] == b[k])
    ensures IdentityOf(QueuedBody(a)) == IdentityOf(a)
  {
    if IdentityOf(a) == IdentityOf(b) {
      forall k | k !in EXECUTION_KEYS ensures (k in a <==> k in b) && (k in a ==> a[k] == b[k]) {
        assert k in a <==> k in IdentityOf(a);
        assert k in b <==> k in IdentityOf(b);
        assert k in a ==> a[k] == IdentityOf(a)[k];
      }
    }
  }

  datatype RunNowAnswer = NotFound | NotPending(status: Status) | CoolingDown(until: int) | Cleared(was: Option<int>)

  datatype Enqueued = UnknownSlot | Deduped | Inserted(id: nat)

  /** The table as one connection sees it; every method is one committed transaction. */
  class JobTable {
    var rows: Table
    var lastId: nat

    ghost predicate Valid()
      reads this
    {
      forall id :: id in rows ==> id <= lastId
    }

    constructor ()
      ensures Valid() && rows == map[]
    {
      rows := map[];
      lastId := 0;
    }

    /** claim_next. The clauses below IsNext and Claimed say the same of the columns themselves: a pending
        row whose wait is over, none with a higher priority, then none older, then none with a smaller id. */
    method ClaimNext(now: int) returns (job: Option<nat>)
      requires Valid()
      modifies this
      ensures Valid() && lastId == old(lastId)
      ensures job.None? ==> NothingRunnable(old(rows), now) && rows == old(rows)
      ensures job.Some? ==> IsNext(old(rows), now, job.value) && rows == Claimed(old(rows), job.value, now)
      ensures job.None? <==>
        forall k :: k in old(rows) ==>
          !(old(rows)[k].status == Pending && (old(rows)[k].notBefore.None? || old(rows)[k].notBefore.value <= now))
      ensures job.Some? ==>
        && job.value in old(rows)
        && var j := old(rows)[job.value];
        && j.status == Pending && (j.notBefore.None? || j.notBefore.value <= now)
        && rows == old(rows)[job.value :=
             j.(status := Running, attempts := j.attempts + 1, startedAt := Some(now), notBefore := None)]
        && forall k :: k in old(rows) ==>
             old(rows)[k].status == Pending && (old(rows)[k].notBefore.None? || old(rows)[k].notBefore.value <= now) ==>
               && old(rows)[k].priority <= j.priority
               && (old(rows)[k].priority == j.priority ==> j.createdAt <= old(rows)[k].createdAt)
               && (old(rows)[k].priority == j.priority && old(rows)[k].createdAt == j.createdAt ==> job.value <= k)
    {
      var todo := rows.Keys;
      job := None;
      while todo != {}
        invariant todo <= rows.Keys
        invariant job.None? ==> forall k :: k in rows && k !in todo ==> !Runnable(rows[k], now)
        invariant job.Some? ==> job.value in rows && job.value !in todo && Runnable(rows[job.value], now)
        invariant job.Some? ==> forall k :: k in rows && k !in todo && k != job.value && Runnable(rows[k], now) ==>
                                  Before(rows, job.value, k)
        decreases todo
      {
        var id :| id in todo;
        todo := todo - {id};
        if Runnable(rows[id], now) {
          if job.None? || Before(rows, id, job.value) {
            job := Some(id);
          }
        }
      }
      if job.Some? {
        rows := rows[job.value := ClaimedRow(rows[job.value], now)];
      }
    }

    method ReclaimStaleRunning(now: int, staleSec: int, requeueSec: int) returns (ids: set<nat>)
      requires Valid()
      modifies this
      ensures Valid() && lastId == old(lastId)
      ensures rows == Reclaimed(old(rows), now, staleSec, requeueSec)
      ensures ids == set id | id in old(rows) && Stale(old(rows)[id], now, staleSec)
      ensures forall k :: k in ids <==>
        && k in old(rows)
        && var j := old(rows)[k];
           && j.status == Running
           && (if j.startedAt.Some? then j.startedAt.value else j.createdAt) + Max(60, staleSec) * SECOND < now
      ensures rows.Keys == old(rows).Keys && forall k :: k in old(rows) ==>
        var j := old(rows)[k];
        rows[k] ==
          if k !in ids then j
          else if j.attempts < j.maxAttempts
          then j.(status := Pending, notBefore := Some(now + Max(0, requeueSec) * SECOND), finishedAt := None,
                  category := Some("stale"))
          else j.(status := Failed, notBefore := None, finishedAt := Some(now), category := Some("stale"))
    {
      ids := set id | id in rows && Stale(rows[id], now, staleSec);
      rows := map id | id in rows :: if id in ids then ReclaimedRow(rows[id], now, requeueSec) else rows[id];
    }

    method MarkDone(id: nat, now: int)
      requires Valid()
      modifies this
      ensures Valid() && lastId == old(lastId) && rows == MarkedDone(old(rows), id, now)
      ensures rows == if id !in old(rows) then old(rows)
        else old(rows)[id := old(rows)[id].(status := Done, category := None, finishedAt := Some(now))]
    {
      if id in rows {
        rows := rows[id := rows[id].(status := Done, category := None, finishedAt := Some(now))];
      }
    }

    method MarkRetry(id: nat, now: int, category: string, delaySec: int)
      requires Valid()
      modifies this
      ensures Valid() && lastId == old(lastId) && rows == MarkedRetry(old(rows), id, now, category, delaySec)
      ensures rows == if id !in old(rows) then old(rows)
        else old(rows)[id := old(rows)[id].(
               status := Pending, notBefore := Some(now + delaySec * SECOND), category := Some(category),
                 finishedAt := None)]
    {
      if id in rows {
        rows := rows[id := rows[id].(status := Pending, notBefore := Some(now + delaySec * SECOND),
                                     category := Some(category), finishedAt := None)];
      }
    }

    method MarkFailed(id: nat, now: int, category: Option<string>)
      requires Valid()
      modifies this
      ensures Valid() && lastId == old(lastId) && rows == MarkedFailed(old(rows), id, now, category)
      ensures rows == if id !in old(rows) then old(rows)
        else old(rows)[id := old(rows)[id].(status := Failed, category := category, finishedAt := Some(now))]
    {
      if id in rows {
        rows := rows[id := rows[id].(status := Failed, category := category, finishedAt := Some(now))];
      }
    }

    method DeferPending(now: int, delaySec: int, exclude: Option<nat>) returns (ids: set<nat>)
      requires Valid()
      modifies this
      ensures Valid() && lastId == old(lastId)
      ensures rows == Deferred(old(rows), now, delaySec, exclude)
      ensures ids == set id | id in old(rows) && Deferrable(old(rows), id, exclude)
      ensures forall k :: k in ids <==> k in old(rows) && old(rows)[k].status == Pending && exclude != Some(k)
      ensures rows.Keys == old(rows).Keys && forall k :: k in old(rows) ==>
        var j, until := old(rows)[k], now + delaySec * SECOND;
        rows[k] ==
          if k !in ids then j
          else j.(notBefore := Some(Max(if j.notBefore.Some? then j.notBefore.value else now, until)))
    {
      ids := set id | id in rows && Deferrable(rows, id, exclude);
      rows := map id | id in rows :: if id in ids then DeferredRow(rows[id], now, delaySec) else rows[id];
    }

    /** insert_job: a new id, or None exactly when the same job is already active. */
    method InsertJob(kind: string, payload: Payload, identity: Payload, priority: int, maxAttempts: int, now: int)
      returns (id: Option<nat>)
      requires Valid()
      modifies this
      ensures Valid()
      ensures id.None? <==> HasActive(old(rows), kind, identity)
      ensures id.None? ==> rows == old(rows) && lastId == old(lastId)
      ensures id.Some? ==> id.value == lastId && lastId == old(lastId) + 1 && id.value !in old(rows)
      ensures id.Some? ==> rows == old(rows)[id.value := NewJob(kind, payload, identity, priority, maxAttempts, now)]
      ensures id.None? <==>
        exists k :: k in old(rows) && old(rows)[k].kind == kind && old(rows)[k].identity == Some(identity)
          && (old(rows)[k].status == Pending || old(rows)[k].status == Running)
      ensures id.Some? ==>
        rows[id.value] == Job(kind, payload, Some(identity), priority, Pending, 0, maxAttempts, None, now, None, None,
          None)
    {
      if exists k :: k in rows && Active(rows[k]) && SameIdentity(rows[k], kind, identity) {
        return None;
      }
      lastId := lastId + 1;
      rows := rows[lastId := NewJob(kind, payload, identity, priority, maxAttempts, now)];
      id := Some(lastId);
    }

    method InsertManualJob(kind: string, payload: Payload, now: int) returns (id: nat)
      requires Valid()
      modifies this
      ensures Valid() && id == lastId == old(lastId) + 1 && id !in old(rows)
      ensures rows == old(rows)[id := ManualJob(kind, payload, now)]
      ensures rows[id] ==
        Job(kind, rows[id].payload, None, 0, Running, 1, 1, None, now, Some(now), None, None)
      ensures forall k :: k in rows[id].payload <==> k == "manual" || k in payload
      ensures forall k :: k in payload ==> rows[id].payload[k] == payload[k]
      ensures "manual" !in payload ==> rows[id].payload["manual"] == Flag(true)
    {
      lastId := lastId + 1;
      id := lastId;
      rows := rows[id := ManualJob(kind, payload, now)];
    }

    /** run_job_now: the check and, when it passes, the UPDATE; a cleared job is runnable from then on. */
    method RunJobNow(id: nat, now: int, force: bool) returns (r: RunNowAnswer)
      requires Valid()
      modifies this
      ensures Valid() && lastId == old(lastId)
      ensures r.Cleared? <==> id in old(rows) && RunNowAllowed(old(rows)[id], now, force)
      ensures r.Cleared? ==> rows == WaitCleared(old(rows), id) && r.was == old(rows)[id].notBefore
      ensures r.Cleared? ==> forall t :: Runnable(rows[id], t)
      ensures r.Cleared? ==> rows == old(rows)[id := old(rows)[id].(notBefore := None)]
      ensures !r.Cleared? ==> rows == old(rows)
      ensures r.NotFound? <==> id !in old(rows)
      ensures r.NotPending? ==> r.status == old(rows)[id].status && !r.status.Pending?
      ensures r.CoolingDown? ==> old(rows)[id].notBefore == Some(r.until) && r.until > now && !force
    {
      if id !in rows {
        return NotFound;
      }
      var j := rows[id];
      if !j.status.Pending? {
        return NotPending(j.status);
      }
      if j.category == Some("throttled") && j.notBefore.Some? && j.notBefore.value > now && !force {
        return CoolingDown(j.notBefore.value);
      }
      rows := rows[id := j.(notBefore := None)];
      return Cleared(j.notBefore);
    }

    /** enqueue_slot: an unknown slot is an error, a job already active is not queued twice. */
    method EnqueueSlot(slots: map<string, SlotConfig>, slotKey: SlotKey, slot: string, payload: Payload, asked: int,
                       now: int)
      returns (r: Enqueued)
      requires Valid()
      modifies this
      ensures Valid()
      ensures r.UnknownSlot? <==> slotKey(slot) !in SLOTS
      ensures r.UnknownSlot? <==> slotKey(slot) != "flex-trades" && slotKey(slot) != "flex-transactions"
      ensures r.Deduped? <==>
        slotKey(slot) in SLOTS && HasActive(old(rows), slotKey(slot), IdentityOf(WithDay(payload, asked)))
      ensures !r.Inserted? ==> rows == old(rows) && lastId == old(lastId)
      ensures r.Inserted? ==> r.id == lastId && lastId == old(lastId) + 1 && r.id !in old(rows)
      ensures r.Inserted? ==> rows == old(rows)[r.id := SlotJob(slots, slotKey(slot), payload, asked, now)]
      ensures r.Inserted? ==> IsSlotRow(rows[r.id], slots, slotKey(slot), payload, asked, now)
    {
      var key := slotKey(slot);
      if key !in SLOTS {
        return UnknownSlot;
      }
      var s := SlotOf(slots, key);
      var body := payload;
      if "as_of" !in body {
        body := body["as_of" := Day(UtcDay(asked))];
      }
      var identity := map k | k in body && k !in EXECUTION_KEYS :: body[k];
      assert identity == IdentityOf(body);
      if "fallback" !in body {
        body := body["fallback" := Flag(false)];
      }
      SlotJobIsSlotRow(slots, key, payload, asked, now);
      var id := InsertJob(key, body, identity, s.priority, AttemptBudget(s), now);
      r := match id case None => Deduped case Some(n) => Inserted(n);
    }
  }
}
