/** worker/catchup.py: planned slots that came and went without a job. */
module Catchup {
  import opened Prelude
  import opened Cron
  import opened Queue
  import Retry
  import CronText

  /** The scheduler's settings; `read` is what parsing makes of a slot's cron text (CronText.LineOf). */
  datatype Schedule = Schedule(
    slots: map<string, SlotConfig>, read: string -> CronLine, zone: Zone, grace: Retry.Setting)

  function LineAt(s: Schedule, slot: string): CronLine {
    s.read(SlotOf(s.slots, slot).cron)
  }

  const DEFAULT_GRACE := 2700

  /** catchup_grace_sec. */
  function GraceSec(raw: Retry.Setting): (sec: int)
    ensures sec >= 300
    ensures raw.Number? && raw.n >= 300 ==> sec == raw.n
    ensures !raw.Number? ==> sec == 2700
  {
    match raw
    case Number(n) => Max(300, n)
    case _ => DEFAULT_GRACE
  }

  datatype Missed = Missed(slot: string, planned: int, asOf: int)

  function LocalDay(z: Zone, t: int): int {
    (t / MINUTE + z(t / MINUTE)) / 1440
  }

  function PlannedLast(s: Schedule, slot: string, now: int): Option<int> {
    match LineAt(s, slot)
    case Line(f) => PreviousFire(f, s.zone, now)
    case _ => None
  }

  /** The schedule reads its cron texts as parse_cron does. */
  ghost predicate ReadsCron(s: Schedule, d: Retry.DigitTable) {
    forall text {:trigger s.read(text)} :: s.read(text) == CronText.LineOf(d, text)
  }

  /** From the text of a slot to its last planned fire: the latest minute within the horizon that the
      written minute, hour and weekday allow, and none exactly when there is no such minute. */
  lemma PlannedFromText(s: Schedule, d: Retry.DigitTable, slot: string, p: CronText.Plan, gaps: seq<string>, now: int)
    requires ReadsCron(s, d) && CronText.ReadsDecimal(d) && CronText.IsPlan(p) && |gaps| == 6 && CronText.Spaced(gaps)
    requires SlotOf(s.slots, slot).cron == CronText.Spread(CronText.PlanWords(p), gaps)
    requires CronText.Written(p.minute) && CronText.Written(p.hour) && CronText.Written(p.dow)
    ensures match PlannedLast(s, slot, now)
      case None => forall t :: now - HORIZON <= t < now ==> !DueOn(s.zone, p, t)
      case Some(t0) =>
        && now - HORIZON <= t0 < now && DueOn(s.zone, p, t0)
        && forall t :: t0 < t < now ==> !DueOn(s.zone, p, t)
  {
    CronText.WrittenLine(d, p, gaps, s.zone);
    var f := LineAt(s, slot).fields;
    PreviousFireIsLast(f, s.zone, now);
    assert forall t :: Fire(f, s.zone, t) <==> DueOn(s.zone, p, t);
  }

  /** A full minute whose local reading the written plan allows. */
  predicate DueOn(z: Zone, p: CronText.Plan, t: int) {
    Aligned(t) && CronText.Due(p.minute, p.hour, p.dow, t / MINUTE + z(t / MINUTE))
  }

  /** No slot has a cron line that fails to parse. */
  predicate PlansReadable(s: Schedule) {
    forall k :: 0 <= k < |SLOTS| ==> !LineAt(s, SLOTS[k]).BadLine?
  }

  /** The planned fire is past its grace period and not older than a day. */
  predicate Overdue(s: Schedule, planned: int, now: int) {
    GraceSec(s.grace) * SECOND <= now - planned <= DAY
  }

  /** The slot's last planned fire before `t` is overdue at `t`. */
  predicate OverdueAt(s: Schedule, slot: string, t: int) {
    PlannedLast(s, slot, t).Some? && Overdue(s, PlannedLast(s, slot, t).value, t)
  }

  /** A job of this kind was created at or after `since`. */
  ghost predicate CreatedSince(t: Table, kind: string, since: int) {
    exists id :: id in t && t[id].kind == kind && t[id].createdAt >= since
  }

  /** What missed_slots says of one slot on the queue `t`. */
  ghost predicate IsMissed(s: Schedule, t: Table, slot: string, now: int) {
    OverdueAt(s, slot, now) && !CreatedSince(t, slot, PlannedLast(s, slot, now).value)
  }

  function MissedAt(s: Schedule, slot: string, now: int): Missed
    requires PlannedLast(s, slot, now).Some?
  {
    var planned := PlannedLast(s, slot, now).value;
    Missed(slot, planned, LocalDay(s.zone, planned))
  }

  ghost function MissedList(s: Schedule, t: Table, now: int, slots: seq<string>): seq<Missed> {
    if slots == [] then []
    else (if IsMissed(s, t, slots[0], now) then [MissedAt(s, slots[0], now)] else [])
         + MissedList(s, t, now, slots[1..])
  }

  lemma {:induction false} MissedListExact(s: Schedule, t: Table, now: int, slots: seq<string>)
    requires forall i, j :: 0 <= i < j < |slots| ==> slots[i] != slots[j]
    ensures var list := MissedList(s, t, now, slots);
      && (forall m :: m in list <==> m.slot in slots && IsMissed(s, t, m.slot, now) && m == MissedAt(s, m.slot, now))
      && (forall i, j :: 0 <= i < j < |list| ==> list[i].slot != list[j].slot)
  {
    if slots != [] {
      MissedListExact(s, t, now, slots[1..]);
      var rest := MissedList(s, t, now, slots[1..]);
      assert forall i :: 0 <= i < |rest| ==> rest[i] in rest && rest[i].slot in slots[1..];
    }
  }

  /** _newest_job_per_kind. */
  method NewestPerKind(t: Table) returns (newest: map<string, int>)
    ensures forall kind, since :: CreatedSince(t, kind, since) <==> kind in newest && newest[kind] >= since
  {
    newest := map[];
    var todo := t.Keys;
    while todo != {}
      invariant todo <= t.Keys
      invariant forall id :: id in t && id !in todo ==> t[id].kind in newest && newest[t[id].kind] >= t[id].createdAt
      invariant forall kind :: kind in newest ==>
        exists id :: id in t && t[id].kind == kind && t[id].createdAt == newest[kind]
      decreases todo
    {
      var id :| id in todo;
      todo := todo - {id};
      var j := t[id];
      if j.kind !in newest || newest[j.kind] < j.createdAt {
        newest := newest[j.kind := j.createdAt];
      }
    }
  }

  lemma MissedListNext(s: Schedule, t: Table, now: int, k: nat, found: seq<Missed>)
    requires k < |SLOTS|
    ensures (if IsMissed(s, t, SLOTS[k], now) then found + [MissedAt(s, SLOTS[k], now)] else found)
            + MissedList(s, t, now, SLOTS[k + 1..])
            == found + MissedList(s, t, now, SLOTS[k..])
  {
    assert SLOTS[k..][0] == SLOTS[k] && SLOTS[k..][1..] == SLOTS[k + 1..];
  }

  /** missed_slots; None is the ValueError of a line that does not parse. */
  method MissedSlots(s: Schedule, now: int, jobsSince: map<string, int>, ghost t: Table)
    returns (out: Option<seq<Missed>>)
    requires forall kind, since :: CreatedSince(t, kind, since) <==> kind in jobsSince && jobsSince[kind] >= since
    ensures out.None? <==> !PlansReadable(s)
    ensures out.Some? ==> out.value == MissedList(s, t, now, SLOTS)
  {
    var list: seq<Missed> := [];
    for k := 0 to |SLOTS|
      invariant forall i :: 0 <= i < k ==> !LineAt(s, SLOTS[i]).BadLine?
      invariant list + MissedList(s, t, now, SLOTS[k..]) == MissedList(s, t, now, SLOTS)
    {
      var slot := SLOTS[k];
      MissedListNext(s, t, now, k, list);
      var cron := LineAt(s, slot);
      if cron.NoLine? {
        continue;
      }
      if cron.BadLine? {
        return None;
      }
      var planned := PreviousFire(cron.fields, s.zone, now);
      if planned.None? {
        continue;
      }
      var age := now - planned.value;
      if age < GraceSec(s.grace) * SECOND || age > DAY {
        continue;
      }
      if slot in jobsSince && jobsSince[slot] >= planned.value {
        continue;
      }
      list := list + [Missed(slot, planned.value, LocalDay(s.zone, planned.value))];
    }
    return Some(list);
  }

  function CatchupPayload(m: Missed): Payload {
    map["as_of" := Day(m.asOf), "catchup" := Flag(true)]
  }

  /** The identity of a job that is for a day and nothing else. */
  function DayIdentity(day: int): Payload {
    map["as_of" := Day(day)]
  }

  function CatchupIdentity(m: Missed): Payload {
    DayIdentity(m.asOf)
  }

  lemma CatchupIdentityIsTheDay(m: Missed, asked: int)
    ensures IdentityOf(WithDay(CatchupPayload(m), asked)) == CatchupIdentity(m)
  {
  }

  /** The queue after one catch-up insert, and after a list of them. */
  ghost function AfterInsert(s: Schedule, t: Table, lastId: nat, m: Missed, now: int): (Table, nat) {
    if HasActive(t, m.slot, CatchupIdentity(m)) then (t, lastId)
    else (t[lastId + 1 := SlotJob(s.slots, m.slot, CatchupPayload(m), now, now)], lastId + 1)
  }

  ghost function AfterInserts(s: Schedule, t: Table, lastId: nat, todo: seq<Missed>, now: int): (Table, nat)
    decreases |todo|
  {
    if todo == [] then (t, lastId)
    else
      var after := AfterInsert(s, t, lastId, todo[0], now);
      AfterInserts(s, after.0, after.1, todo[1..], now)
  }

  /** The slot is looked after: a job since its fire, or the same day's job still active. */
  ghost predicate Covered(t: Table, m: Missed) {
    CreatedSince(t, m.slot, m.planned) || HasActive(t, m.slot, CatchupIdentity(m))
  }

  /** Rows only come, and come last. */
  ghost predicate Grows(was: Table, t: Table) {
    forall id :: id in was ==> id in t && t[id] == was[id]
  }

  lemma ActiveStays(was: Table, t: Table, kind: string, identity: Payload)
    requires Grows(was, t)
    ensures HasActive(was, kind, identity) ==> HasActive(t, kind, identity)
  {
    if HasActive(was, kind, identity) {
      var k :| k in was && Active(was[k]) && SameIdentity(was[k], kind, identity);
      assert k in t && t[k] == was[k];
    }
  }

  lemma CoveredStays(was: Table, t: Table, m: Missed)
    requires Grows(was, t) && Covered(was, m)
    ensures Covered(t, m)
  {
    if CreatedSince(was, m.slot, m.planned) {
      var id :| id in was && was[id].kind == m.slot && was[id].createdAt >= m.planned;
      assert id in t && t[id].kind == m.slot && t[id].createdAt >= m.planned;
    } else {
      ActiveStays(was, t, m.slot, CatchupIdentity(m));
    }
  }

  /** The body of the insert loop; true when the slot got a job. */
  method CatchUp(table: JobTable, s: Schedule, m: Missed, now: int) returns (enqueued: bool)
    requires table.Valid() && m.slot in SLOTS
    modifies table
    ensures table.Valid()
    ensures (table.rows, table.lastId) == AfterInsert(s, old(table.rows), old(table.lastId), m, now)
    ensures enqueued <==> table.lastId == old(table.lastId) + 1
    ensures !enqueued <==> table.lastId == old(table.lastId)
    ensures enqueued ==>
      && table.lastId in table.rows
      && var j := table.rows[table.lastId];
      && j.kind == m.slot && j.status == Pending && j.createdAt == now
      && j.payload == map["as_of" := Day(m.asOf), "catchup" := Flag(true), "fallback" := Flag(false)]
      && j.identity == Some(map["as_of" := Day(m.asOf)])
  {
    CatchupIdentityIsTheDay(m, now);
    var r := table.EnqueueSlot(s.slots, (name: string) => name, m.slot, CatchupPayload(m), now, now);
    enqueued := r.Inserted?;
  }

  /** Every row of `t` that is not in `was` is the catch-up job of one of `done`. */
  ghost predicate OnlyCatchups(s: Schedule, was: Table, t: Table, done: seq<Missed>, now: int) {
    forall id :: id in t && id !in was ==>
      exists m :: m in done && t[id] == SlotJob(s.slots, m.slot, CatchupPayload(m), now, now)
  }

  /** A list of inserts looks after every listed slot, keeps every row, and adds nothing else. */
  lemma {:induction false} AfterInsertsCovers(s: Schedule, t: Table, lastId: nat, todo: seq<Missed>, now: int)
    requires forall id :: id in t ==> id <= lastId
    requires forall m :: m in todo ==> m.planned <= now
    ensures var after := AfterInserts(s, t, lastId, todo, now).0;
      Grows(t, after) && OnlyCatchups(s, t, after, todo, now) && forall m :: m in todo ==> Covered(after, m)
    decreases |todo|
  {
    if todo != [] {
      var m := todo[0];
      var one := AfterInsert(s, t, lastId, m, now);
      InsertCovers(s, t, lastId, m, now);
      AfterInsertsCovers(s, one.0, one.1, todo[1..], now);
      var after := AfterInserts(s, t, lastId, todo, now).0;
      CoveredStays(one.0, after, m);
      forall id | id in after && id !in t
        ensures exists x :: x in todo && after[id] == SlotJob(s.slots, x.slot, CatchupPayload(x), now, now)
      {
        if id in one.0 {
          assert m in todo && after[id] == one.0[id];
        } else {
          var x :| x in todo[1..] && after[id] == SlotJob(s.slots, x.slot, CatchupPayload(x), now, now);
          assert x in todo;
        }
      }
    }
  }

  lemma InsertCovers(s: Schedule, t: Table, lastId: nat, m: Missed, now: int)
    requires forall id :: id in t ==> id <= lastId
    requires m.planned <= now
    ensures var after := AfterInsert(s, t, lastId, m, now);
      && Grows(t, after.0) && Covered(after.0, m) && (forall id :: id in after.0 ==> id <= after.1)
      && forall id :: id in after.0 && id !in t ==> after.0[id] == SlotJob(s.slots, m.slot, CatchupPayload(m), now, now)
  {
    var after := AfterInsert(s, t, lastId, m, now);
    if !HasActive(t, m.slot, CatchupIdentity(m)) {
      assert after.0[after.1].kind == m.slot && after.0[after.1].createdAt >= m.planned;
    }
  }

  /** catchup_missed_slots: None, and nothing inserted, for a plan that does not parse; otherwise every
      slot whose fire is overdue is looked after, and nothing but catch-up jobs of missed slots was added. */
  method CatchupMissedSlots(table: JobTable, s: Schedule, now: int) returns (done: Option<seq<Missed>>)
    requires table.Valid()
    modifies table
    ensures table.Valid()
    ensures done.None? <==> !PlansReadable(s)
    ensures done.None? ==> table.rows == old(table.rows) && table.lastId == old(table.lastId)
    ensures done.Some? ==>
              (table.rows, table.lastId) ==
              AfterInserts(s, old(table.rows), old(table.lastId), MissedList(s, old(table.rows), now, SLOTS), now)
    ensures done.Some? ==> |done.value| == table.lastId - old(table.lastId)
    ensures Grows(old(table.rows), table.rows)
    ensures done.Some? ==> OnlyCatchups(s, old(table.rows), table.rows, MissedList(s, old(table.rows), now, SLOTS), now)
    ensures done.Some? ==>
              forall slot :: slot in SLOTS && OverdueAt(s, slot, now) ==> Covered(table.rows, MissedAt(s, slot, now))
  {
    ghost var before := table.rows;
    var newest := NewestPerKind(table.rows);
    var missed := MissedSlots(s, now, newest, table.rows);
    if missed.None? {
      return None;
    }
    MissedListExact(s, before, now, SLOTS);
    AfterInsertsCovers(s, before, table.lastId, missed.value, now);
    var list := CatchUpAll(table, s, missed.value, now);
    EveryOverdueSlotCovered(s, before, table.rows, missed.value, now);
    return Some(list);
  }

  /** The loop over the missed slots. */
  method CatchUpAll(table: JobTable, s: Schedule, missed: seq<Missed>, now: int) returns (done: seq<Missed>)
    requires table.Valid() && forall m :: m in missed ==> m.slot in SLOTS
    modifies table
    ensures table.Valid()
    ensures (table.rows, table.lastId) == AfterInserts(s, old(table.rows), old(table.lastId), missed, now)
    ensures |done| == table.lastId - old(table.lastId)
  {
    done := [];
    for k := 0 to |missed|
      invariant table.Valid() && |done| == table.lastId - old(table.lastId)
      invariant AfterInserts(s, table.rows, table.lastId, missed[k..], now) ==
                AfterInserts(s, old(table.rows), old(table.lastId), missed, now)
    {
      var m := missed[k];
      assert m in missed;
      assert missed[k..][0] == m && missed[k..][1..] == missed[k + 1..];
      var enqueued := CatchUp(table, s, m, now);
      if enqueued {
        done := done + [m];
      }
    }
  }

  lemma EveryOverdueSlotCovered(s: Schedule, was: Table, t: Table, missed: seq<Missed>, now: int)
    requires Grows(was, t) && missed == MissedList(s, was, now, SLOTS)
    requires forall m :: m in missed ==> Covered(t, m)
    ensures forall slot :: slot in SLOTS && OverdueAt(s, slot, now) ==> Covered(t, MissedAt(s, slot, now))
  {
    MissedListExact(s, was, now, SLOTS);
    forall slot | slot in SLOTS && OverdueAt(s, slot, now)
      ensures Covered(t, MissedAt(s, slot, now))
    {
      var m := MissedAt(s, slot, now);
      if IsMissed(s, was, slot, now) {
        assert m in missed;
      } else {
        CoveredStays(was, t, m);
      }
    }
  }
}
