/** What the queue does not promise: whom a throttle's cooldown leaves out, and when a second enqueue
    of a day is a second job. */
module Limits {
  import opened Prelude
  import opened Cron
  import opened Queue
  import opened Catchup
  import opened Retry
  import opened Worker
  import opened Runs
  import opened WorkerLoop

  // The cooldown --------------------------------------------------------------------------

  /** The deferral leaves nothing runnable before it is over but, perhaps, the throttled job. */
  lemma CoolPath(c: Config, w: World, t: int) returns (ws: seq<World>, es: seq<Event>)
    requires Inv(c, w) && w.phase.Cooling? && t < w.now + w.phase.delay * SECOND
    ensures Run(c, ws, es) && ws[0] == w && es == [Cool(true)]
    ensures Last(ws) == w.(rows := Last(ws).rows, phase := POLL) && Last(ws).rows.Keys == w.rows.Keys
    ensures Last(ws).rows[w.phase.id] == w.rows[w.phase.id]
    ensures forall k :: k in w.rows ==> Restful(w.rows[k], Last(ws).rows[k])
    ensures forall k :: k in w.rows && k != w.phase.id ==> !Runnable(Last(ws).rows[k], t)
  {
    ws, es := Then(c, [w], [], Cool(true));
  }

  /** A deferral changes the wait of a pending row and nothing else. */
  predicate Restful(a: Job, b: Job) {
    b == a || (a.status.Pending? && b == a.(notBefore := b.notBefore))
  }

  /** A job enqueued right after the cooldown was written can be claimed at once. */
  lemma LateJobSkipsCooldown(c: Config, w: World, slot: string, payload: Payload)
    returns (ws: seq<World>, es: seq<Event>)
    requires Inv(c, w) && w.phase.Cooling? && slot in SLOTS
    requires !Runnable(w.rows[w.phase.id], w.now)
    requires !HasActive(w.rows, slot, IdentityOf(WithDay(payload, w.now)))
    ensures Run(c, ws, es) && ws[0] == w && es == [Cool(true), Event.Enqueue(slot, payload, w.now, w.now)]
    ensures Last(ws).now == w.now && Last(ws).lastId !in w.rows && Enabled(c, Last(ws), Claim(Last(ws).lastId, true))
  {
    ws, es := CoolPath(c, w, w.now);
    var cooled := Last(ws);
    forall k | k in cooled.rows
      ensures !(Active(cooled.rows[k]) && SameIdentity(cooled.rows[k], slot, IdentityOf(WithDay(payload, w.now))))
    {
      assert Restful(w.rows[k], cooled.rows[k]);
    }
    ws, es := EnqueuePath(c, ws, es, slot, payload);
  }

  /** So can a deferred job, after a run-now that nobody forced: the request looks at the row's own
      category only, and a deferral does not set it. */
  lemma RunNowSkipsCooldown(c: Config, w: World, id: nat) returns (ws: seq<World>, es: seq<Event>)
    requires Inv(c, w) && w.phase.Cooling? && !Runnable(w.rows[w.phase.id], w.now)
    requires id in w.rows && id != w.phase.id
    requires w.rows[id].status.Pending? && w.rows[id].category != Some(CategoryName(Throttled))
    ensures Run(c, ws, es) && ws[0] == w && es == [Cool(true), RunNowCheck(id, false), RunNowClear(id)]
    ensures Last(ws).now == w.now && Enabled(c, Last(ws), Claim(id, true))
  {
    ws, es := CoolPath(c, w, w.now);
    assert Restful(w.rows[id], Last(ws).rows[id]);
    ws, es := RunNowPath(c, ws, es, id, false);
  }

  /** And so can an orphan: a job left running by a crash or a lost claim is not deferred, and once it is
      stale the reclaim gives it the reclaim's own wait, after which it is claimed while the token
      still cools. */
  lemma OrphanSkipsCooldown(c: Config, w: World, id: nat, wait: nat) returns (ws: seq<World>, es: seq<Event>)
    requires Inv(c, w) && w.phase.Cooling? && id in w.rows && id != w.phase.id
    requires w.rows[id].status.Running? && w.rows[id].attempts < w.rows[id].maxAttempts
    requires forall k :: k in w.rows && k != id ==> !w.rows[k].status.Running?
    requires Stale(w.rows[id], w.now + wait, c.staleSec)
    requires wait + Max(0, c.requeueSec) * SECOND < w.phase.delay * SECOND
    requires !Runnable(w.rows[w.phase.id], w.now + wait + Max(0, c.requeueSec) * SECOND)
    ensures Run(c, ws, es) && ws[0] == w && es != [] && es[0] == Cool(true)
    ensures Last(ws).now < w.now + w.phase.delay * SECOND && Enabled(c, Last(ws), Claim(id, true))
  {
    var pause := Max(0, c.requeueSec) * SECOND;
    ws, es := CoolPath(c, w, w.now + wait + pause);
    var cooled := Last(ws);
    OrphanIsNext(c, w, cooled.rows, id, wait);
    ws, es := RestartPath(c, ws, es, wait, pause);
    PollTakesTheNext(c, Last(ws), id, true);
  }

  lemma OrphanIsNext(c: Config, w: World, cooled: Table, id: nat, wait: nat)
    requires w.phase.Cooling? && id in w.rows && id != w.phase.id && cooled.Keys == w.rows.Keys
    requires w.rows[id].status.Running? && w.rows[id].attempts < w.rows[id].maxAttempts
    requires forall k :: k in w.rows && k != id ==> !w.rows[k].status.Running?
    requires Stale(w.rows[id], w.now + wait, c.staleSec)
    requires forall k :: k in w.rows ==> Restful(w.rows[k], cooled[k])
    requires forall k :: k in w.rows && k != id ==> !Runnable(cooled[k], w.now + wait + Max(0, c.requeueSec) * SECOND)
    ensures IsNext(Reclaimed(cooled, w.now + wait, c.staleSec, c.requeueSec),
                   w.now + wait + Max(0, c.requeueSec) * SECOND, id)
  {
    forall k | k in cooled ensures cooled[k].status == w.rows[k].status && (k == id ==> cooled[k] == w.rows[k]) {
      assert Restful(w.rows[k], cooled[k]);
    }
  }

  /** The process is restarted after `wait` and polls after `pause` more. */
  lemma RestartPath(c: Config, ws: seq<World>, es: seq<Event>, wait: nat, pause: nat)
    returns (ws': seq<World>, es': seq<Event>)
    requires Run(c, ws, es) && es != [] && Last(ws).phase == POLL && Numbered(Last(ws))
    ensures Run(c, ws', es') && ws'[0] == ws[0] && es' != [] && es'[0] == es[0]
    ensures var w := Last(ws);
      Last(ws') == w.(rows := Reclaimed(w.rows, w.now + wait, c.staleSec, c.requeueSec), now := w.now + wait + pause)
  {
    ws', es' := Then(c, ws, es, Crash);
    ws', es' := Then(c, ws', es', Start);
    ws', es' := Then(c, ws', es', Tick(wait));
    ws', es' := Then(c, ws', es', StartupReclaim(true));
    ws', es' := Then(c, ws', es', Tick(pause));
  }

  /** A throttle on the last attempt cools nothing: the job fails, no other row is touched. */
  lemma LastThrottleCoolsNothing(c: Config, w: World)
    requires Inv(c, w) && w.phase.Working? && w.phase.attempts == w.phase.maxAttempts
    ensures var failed := Step(c, w, AttemptFailed(Throttled));
      && Enabled(c, failed, SaveFailed(true))
      && var w' := Step(c, failed, SaveFailed(true));
      && w'.phase == POLL && w'.rows.Keys == w.rows.Keys
      && forall k :: k in w.rows && k != w.phase.id ==> w'.rows[k] == w.rows[k]
  {
  }

  // A day enqueued twice ---------------------------------------------------------------------

  /** Nothing in the payload but execution knobs. */
  predicate OnlyKnobs(payload: Payload) {
    payload.Keys <= EXECUTION_KEYS
  }

  /** An enqueue that names no day does nothing exactly when a job of its UTC day is active. */
  lemma DaylessEnqueue(c: Config, w: World, slot: string, payload: Payload, asked: int, began: int)
    requires Inv(c, w) && Enabled(c, w, Event.Enqueue(slot, payload, asked, began)) && OnlyKnobs(payload)
    ensures Step(c, w, Event.Enqueue(slot, payload, asked, began)) == w <==>
      HasActive(w.rows, slot, DayIdentity(UtcDay(asked)))
  {
    assert IdentityOf(WithDay(payload, asked)) == DayIdentity(UtcDay(asked));
    assert w.lastId + 1 !in w.rows;
  }

  /** So beside a catch-up's active job it does nothing when the local day of the planned fire is the UTC
      day of the enqueue, and adds a second active job when they differ and the UTC day has none. */
  lemma EnqueueBesideCatchup(c: Config, w: World, slot: string, t: int, payload: Payload, asked: int, began: int)
    requires Inv(c, w) && Enabled(c, w, Event.Enqueue(slot, payload, asked, began)) && OnlyKnobs(payload)
    requires PlannedLast(c.schedule, slot, t).Some?
    requires HasActive(w.rows, slot, CatchupIdentity(MissedAt(c.schedule, slot, t)))
    ensures var sameDay := LocalDay(c.schedule.zone, PlannedLast(c.schedule, slot, t).value) == UtcDay(asked);
      var w' := Step(c, w, Event.Enqueue(slot, payload, asked, began));
      && (sameDay ==> w' == w)
      && (!sameDay && !HasActive(w.rows, slot, DayIdentity(UtcDay(asked))) ==>
            && w'.lastId == w.lastId + 1 && Active(w'.rows[w'.lastId]) && w'.rows[w'.lastId].kind == slot
            && HasActive(w'.rows, slot, CatchupIdentity(MissedAt(c.schedule, slot, t))))
  {
    var m := MissedAt(c.schedule, slot, t);
    DaylessEnqueue(c, w, slot, payload, asked, began);
    assert IdentityOf(WithDay(payload, asked)) == DayIdentity(UtcDay(asked));
    var k :| k in w.rows && Active(w.rows[k]) && SameIdentity(w.rows[k], slot, CatchupIdentity(m));
    var w' := Step(c, w, Event.Enqueue(slot, payload, asked, began));
    assert k in w'.rows && w'.rows[k] == w.rows[k];
  }

  /** They differ every evening: four hours behind UTC, a fire at 06:30 and an enqueue at 20:31 of the
      same local day fall on one local and on two different UTC days. */
  lemma EveningIsAnotherDay(day: int)
    ensures var zone: Zone := _ => -240;
      var planned, asked := (1440 * day + 390 + 240) * MINUTE, (1440 * day + 1231 + 240) * MINUTE;
      && LocalDay(zone, planned) == day && LocalDay(zone, asked) == day && UtcDay(asked) == day + 1
      && planned < asked < planned + DAY
  {
  }

  /** And deduplication ends with the job: once the day's job is done, enqueueing the day adds a second one. */
  lemma DoneDayIsQueuedAgain(c: Config, w: World, slot: string, payload: Payload)
    requires GoodConfig(c) && Inv(c, w) && w.phase.SavingDone? && slot in SLOTS
    requires w.rows[w.phase.id].status.Running?
    requires SameIdentity(w.rows[w.phase.id], slot, IdentityOf(WithDay(payload, w.now)))
    ensures Step(c, w, Event.Enqueue(slot, payload, w.now, w.now)) == w
    ensures var w' := Step(c, Step(c, w, SaveDone(true)), Event.Enqueue(slot, payload, w.now, w.now));
      w'.lastId == w.lastId + 1 && w'.rows[w'.lastId].status.Pending?
  {
    var identity := IdentityOf(WithDay(payload, w.now));
    var id := w.phase.id;
    assert Active(w.rows[id]);
    var saved := Step(c, w, SaveDone(true));
    forall k | k in saved.rows ensures !(Active(saved.rows[k]) && SameIdentity(saved.rows[k], slot, identity)) {
      if k != id {
        assert saved.rows[k] == w.rows[k];
      }
    }
    assert !HasActive(saved.rows, slot, identity);
  }
}
