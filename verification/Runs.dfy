/** Whole runs of the queue: any interleaving of worker, API, lost connections and crashes. */
module Runs {
  import opened Prelude
  import opened Queue
  import opened Catchup
  import opened Retry
  import opened Worker

  /** `es` leads through the states `ws`. */
  ghost predicate Run(c: Config, ws: seq<World>, es: seq<Event>) {
    && |ws| == |es| + 1
    && forall i {:trigger es[i]} :: 0 <= i < |es| ==> Enabled(c, ws[i], es[i]) && ws[i + 1] == Step(c, ws[i], es[i])
  }

  ghost predicate GoodRun(c: Config, ws: seq<World>, es: seq<Event>) {
    GoodConfig(c) && Run(c, ws, es) && Inv(c, ws[0])
  }

  lemma {:induction false} RunKeepsInv(c: Config, ws: seq<World>, es: seq<Event>, n: nat)
    requires GoodRun(c, ws, es) && n < |ws|
    ensures Inv(c, ws[n])
  {
    if n > 0 {
      RunKeepsInv(c, ws, es, n - 1);
      var e := es[n - 1];
      StepKeepsInv(c, ws[n - 1], e);
    }
  }

  /** Reachable from an empty table and no worker. */
  lemma ReachableIsSafe(c: Config, ws: seq<World>, es: seq<Event>, n: nat)
    requires GoodConfig(c) && Run(c, ws, es) && Init(ws[0]) && n < |ws|
    ensures UniqueActive(ws[n].rows)
    ensures forall id :: id in ws[n].rows ==>
      var j := ws[n].rows[id];
      && j.attempts <= j.maxAttempts
      && (j.status.Pending? ==> j.attempts < j.maxAttempts)
      && (j.status.Running? ==> 1 <= j.attempts)
  {
    InitInv(c, ws[0]);
    RunKeepsInv(c, ws, es, n);
  }

  /** Between two moments of a run a row stays, keeps who it is, never wakes up again, and
      time does not go back. */
  lemma {:induction false} RowPersists(c: Config, ws: seq<World>, es: seq<Event>, i: nat, k: nat, id: nat)
    requires GoodRun(c, ws, es) && i <= k < |ws| && id in ws[i].rows
    ensures id in ws[k].rows && ws[i].now <= ws[k].now && ws[i].manual <= ws[k].manual
    ensures ws[k].rows[id].kind == ws[i].rows[id].kind && ws[k].rows[id].createdAt == ws[i].rows[id].createdAt
    ensures ws[k].rows[id].maxAttempts == ws[i].rows[id].maxAttempts
    ensures ws[i].rows[id].attempts <= ws[k].rows[id].attempts
    ensures Active(ws[k].rows[id]) ==> Active(ws[i].rows[id])
    decreases k - i
  {
    if i < k {
      RowPersists(c, ws, es, i, k - 1, id);
      RunKeepsInv(c, ws, es, k - 1);
      var e := es[k - 1];
      StepRows(c, ws[k - 1], e);
      assert RowStep(e, id, ws[k - 1].rows[id], ws[k].rows[id]);
    }
  }

  lemma {:induction false} TimeMovesOn(c: Config, ws: seq<World>, es: seq<Event>, i: nat, k: nat)
    requires GoodRun(c, ws, es) && i <= k < |ws|
    ensures ws[i].now <= ws[k].now
    decreases k - i
  {
    if i < k {
      TimeMovesOn(c, ws, es, i, k - 1);
      RunKeepsInv(c, ws, es, k - 1);
      var e := es[k - 1];
      StepRows(c, ws[k - 1], e);
    }
  }

  /** Ids come in the order of creation. */
  ghost predicate IdsOrdered(t: Table) {
    forall i, k :: i in t && k in t && i <= k ==> t[i].createdAt <= t[k].createdAt
  }

  /** If the step adds a row, its transaction began after every row there is was created. */
  ghost predicate InsertsInOrder(w: World, e: Event, w': World) {
    w'.lastId > w.lastId && Inserts(e) ==> forall id :: id in w.rows ==> w.rows[id].createdAt <= Began(w, e)
  }

  lemma RowsWereIdsOrdered(c: Config, w: World, e: Event, w': World)
    requires RowsStep(c, w, e, w') && (forall id :: id in w.rows ==> id <= w.lastId) && IdsOrdered(w'.rows)
    ensures IdsOrdered(w.rows) && InsertsInOrder(w, e, w')
  {
    forall i, k | i in w.rows && k in w.rows && i <= k ensures w.rows[i].createdAt <= w.rows[k].createdAt {
      assert RowStep(e, i, w.rows[i], w'.rows[i]) && RowStep(e, k, w.rows[k], w'.rows[k]);
    }
    if w'.lastId > w.lastId && Inserts(e) {
      assert w'.lastId !in w.rows && FreshRow(c, w, e, w'.lastId, w'.rows[w'.lastId]);
      forall id | id in w.rows ensures w.rows[id].createdAt <= Began(w, e) {
        assert RowStep(e, id, w.rows[id], w'.rows[id]);
      }
    }
  }

  lemma RowsStayIdsOrdered(c: Config, w: World, e: Event, w': World)
    requires RowsStep(c, w, e, w') && (forall id :: id in w.rows ==> id <= w.lastId)
    requires IdsOrdered(w.rows) && InsertsInOrder(w, e, w')
    ensures IdsOrdered(w'.rows)
  {
    forall id | id in w'.rows ensures if id in w.rows then w'.rows[id].createdAt == w.rows[id].createdAt
                                      else Inserts(e) && id == w.lastId + 1 && w'.rows[id].createdAt == Began(w, e)
    {
      if id in w.rows {
        assert RowStep(e, id, w.rows[id], w'.rows[id]);
      } else {
        assert FreshRow(c, w, e, id, w'.rows[id]);
      }
    }
    assert forall id :: id in w.rows ==> id <= w.lastId;
  }

  lemma RunOrdersIds(c: Config, ws: seq<World>, es: seq<Event>, n: nat)
    requires GoodRun(c, ws, es) && n < |es|
    ensures IdsOrdered(ws[n + 1].rows) <==> IdsOrdered(ws[n].rows) && InsertsInOrder(ws[n], es[n], ws[n + 1])
  {
    RunKeepsInv(c, ws, es, n);
    var e := es[n];
    StepRows(c, ws[n], e);
    if IdsOrdered(ws[n + 1].rows) {
      RowsWereIdsOrdered(c, ws[n], e, ws[n + 1]);
    } else if IdsOrdered(ws[n].rows) && InsertsInOrder(ws[n], e, ws[n + 1]) {
      RowsStayIdsOrdered(c, ws[n], e, ws[n + 1]);
    }
  }

  /** Ids come in the order of creation exactly as long as no row was inserted by a transaction that
      began before an earlier row was created. */
  lemma {:induction false} IdsStayOrdered(c: Config, ws: seq<World>, es: seq<Event>, n: nat)
    requires GoodConfig(c) && Run(c, ws, es) && Init(ws[0]) && n < |ws|
    ensures IdsOrdered(ws[n].rows) <==>
      forall m {:trigger es[m]} :: 0 <= m < n ==> InsertsInOrder(ws[m], es[m], ws[m + 1])
  {
    if n > 0 {
      IdsStayOrdered(c, ws, es, n - 1);
      InitInv(c, ws[0]);
      RunOrdersIds(c, ws, es, n - 1);
    }
  }

  // The attempt budget ------------------------------------------------------------

  /** How often job `id` is claimed in the first `n` steps. */
  function Claims(es: seq<Event>, n: nat, id: nat): nat
    requires n <= |es|
  {
    if n == 0 then 0
    else Claims(es, n - 1, id) + (if es[n - 1].Claim? && es[n - 1].id == id then 1 else 0)
  }

  function AttemptsOf(t: Table, id: nat): int {
    if id in t then t[id].attempts else 0
  }

  /** `attempts` counts the claims of a job, lost ones included; a manual row starts at one. */
  lemma {:induction false} AttemptsCountClaims(c: Config, ws: seq<World>, es: seq<Event>, n: nat, id: nat)
    requires GoodRun(c, ws, es) && n <= |es|
    requires id !in ws[n].manual || id in ws[0].rows
    ensures AttemptsOf(ws[n].rows, id) == AttemptsOf(ws[0].rows, id) + Claims(es, n, id)
  {
    if n > 0 {
      RunKeepsInv(c, ws, es, n - 1);
      var e := es[n - 1];
      StepRows(c, ws[n - 1], e);
      AttemptsCountClaims(c, ws, es, n - 1, id);
      if id in ws[n - 1].rows {
        assert RowStep(e, id, ws[n - 1].rows[id], ws[n].rows[id]);
      } else if id in ws[n].rows {
        assert FreshRow(c, ws[n - 1], e, id, ws[n].rows[id]);
        NotThereNotClaimed(c, ws, es, n - 1, id);
        NeverThereBefore(c, ws, es, n - 1, id);
      }
    }
  }

  lemma {:induction false} NeverThereBefore(c: Config, ws: seq<World>, es: seq<Event>, n: nat, id: nat)
    requires GoodRun(c, ws, es) && n <= |es| && id !in ws[n].rows
    ensures id !in ws[0].rows
  {
    if id in ws[0].rows {
      RowPersists(c, ws, es, 0, n, id);
    }
  }

  /** No job is ever claimed more often than its budget. */
  lemma ClaimsWithinBudget(c: Config, ws: seq<World>, es: seq<Event>, id: nat)
    requires GoodRun(c, ws, es) && id in ws[|es|].rows
    ensures AttemptsOf(ws[0].rows, id) + Claims(es, |es|, id) <= ws[|es|].rows[id].maxAttempts
  {
    var n := |es|;
    RunKeepsInv(c, ws, es, n);
    if id !in ws[n].manual || id in ws[0].rows {
      AttemptsCountClaims(c, ws, es, n, id);
    } else {
      ManualNeverClaimed(c, ws, es, n, id);
    }
  }

  /** A manual row never becomes pending, so the worker never claims it. */
  lemma {:induction false} ManualNeverClaimed(c: Config, ws: seq<World>, es: seq<Event>, n: nat, id: nat)
    requires GoodRun(c, ws, es) && n <= |es| && id in ws[n].manual
    ensures id in ws[n].rows && !ws[n].rows[id].status.Pending?
    ensures Claims(es, n, id) == 0
  {
    RunKeepsInv(c, ws, es, n);
    if n > 0 {
      var e := es[n - 1];
      RunKeepsInv(c, ws, es, n - 1);
      StepRows(c, ws[n - 1], e);
      if id in ws[n - 1].manual {
        ManualNeverClaimed(c, ws, es, n - 1, id);
      } else {
        assert id !in ws[n - 1].rows;
        NotThereNotClaimed(c, ws, es, n - 1, id);
      }
    }
  }

  lemma {:induction false} NotThereNotClaimed(c: Config, ws: seq<World>, es: seq<Event>, n: nat, id: nat)
    requires GoodRun(c, ws, es) && n <= |es| && id !in ws[n].rows
    ensures Claims(es, n, id) == 0
  {
    if n > 0 {
      var e := es[n - 1];
      RunKeepsInv(c, ws, es, n - 1);
      StepRows(c, ws[n - 1], e);
      NotThereNotClaimed(c, ws, es, n - 1, id);
    }
  }

  // A measure on all claims ---------------------------------------------------------

  /** Attempts left over all the rows of `ids`. */
  ghost function Left(t: Table, ids: set<nat>): int
    requires ids <= t.Keys
  {
    if ids == {} then 0
    else var id :| id in ids; t[id].maxAttempts - t[id].attempts + Left(t, ids - {id})
  }

  lemma {:induction false} LeftWithout(t: Table, ids: set<nat>, x: nat)
    requires ids <= t.Keys && x in ids
    ensures Left(t, ids) == t[x].maxAttempts - t[x].attempts + Left(t, ids - {x})
    decreases ids
  {
    var id :| id in ids && Left(t, ids) == t[id].maxAttempts - t[id].attempts + Left(t, ids - {id});
    if id != x {
      LeftWithout(t, ids - {id}, x);
      LeftWithout(t, ids - {x}, id);
      assert ids - {id} - {x} == ids - {x} - {id};
    }
  }

  lemma {:induction false} LeftSame(t: Table, u: Table, ids: set<nat>)
    requires ids <= t.Keys && ids <= u.Keys
    requires forall id :: id in ids ==> t[id].maxAttempts - t[id].attempts == u[id].maxAttempts - u[id].attempts
    ensures Left(t, ids) == Left(u, ids)
    decreases ids
  {
    if ids != {} {
      var id :| id in ids;
      LeftWithout(t, ids, id);
      LeftWithout(u, ids, id);
      LeftSame(t, u, ids - {id});
    }
  }

  lemma {:induction false} LeftIsNonnegative(t: Table, ids: set<nat>)
    requires ids <= t.Keys && forall id :: id in ids ==> t[id].attempts <= t[id].maxAttempts
    ensures Left(t, ids) >= 0
    decreases ids
  {
    if ids != {} {
      var id :| id in ids;
      LeftWithout(t, ids, id);
      LeftIsNonnegative(t, ids - {id});
    }
  }

  function AllClaims(es: seq<Event>, n: nat): nat
    requires n <= |es|
  {
    if n == 0 then 0 else AllClaims(es, n - 1) + (if es[n - 1].Claim? then 1 else 0)
  }

  /** The attempts a step grants: those of the row it adds, none for a manual one. */
  function Grant(w: World, w': World): int {
    if w'.lastId > w.lastId && w'.lastId in w'.rows
    then w'.rows[w'.lastId].maxAttempts - w'.rows[w'.lastId].attempts
    else 0
  }

  function Granted(ws: seq<World>, n: nat): int
    requires n < |ws|
  {
    if n == 0 then 0 else Granted(ws, n - 1) + Grant(ws[n - 1], ws[n])
  }

  lemma LeftAfterClaim(t: Table, u: Table, id: nat)
    requires id in t && u.Keys == t.Keys
    requires u[id].maxAttempts - u[id].attempts == t[id].maxAttempts - t[id].attempts - 1
    requires forall k :: k in t && k != id ==> u[k].maxAttempts - u[k].attempts == t[k].maxAttempts - t[k].attempts
    ensures Left(u, u.Keys) + 1 == Left(t, t.Keys)
  {
    LeftWithout(t, t.Keys, id);
    LeftWithout(u, t.Keys, id);
    LeftSame(t, u, t.Keys - {id});
  }

  lemma LeftAfterInsert(t: Table, u: Table, id: nat)
    requires id !in t && u.Keys == t.Keys + {id}
    requires forall k :: k in t ==> u[k].maxAttempts - u[k].attempts == t[k].maxAttempts - t[k].attempts
    ensures Left(u, u.Keys) == Left(t, t.Keys) + u[id].maxAttempts - u[id].attempts
  {
    LeftWithout(u, u.Keys, id);
    assert u.Keys - {id} == t.Keys;
    LeftSame(t, u, t.Keys);
  }

  lemma RowsKeys(c: Config, w: World, e: Event, w': World)
    requires RowsStep(c, w, e, w') && forall id :: id in w.rows ==> id <= w.lastId
    ensures w'.rows.Keys == if w'.lastId > w.lastId then w.rows.Keys + {w'.lastId} else w.rows.Keys
    ensures w'.lastId > w.lastId ==> w'.lastId !in w.rows && !e.Claim?
  {
    forall id | id in w'.rows && id !in w.rows ensures id == w.lastId + 1 && !e.Claim? {
      assert FreshRow(c, w, e, id, w'.rows[id]);
    }
  }

  lemma RowsSpendClaims(c: Config, w: World, e: Event, w': World)
    requires RowsStep(c, w, e, w') && (forall id :: id in w.rows ==> id <= w.lastId) && (e.Claim? ==> e.id in w.rows)
    ensures Left(w'.rows, w'.rows.Keys) + (if e.Claim? then 1 else 0) == Left(w.rows, w.rows.Keys) + Grant(w, w')
  {
    RowsKeys(c, w, e, w');
    if w'.lastId > w.lastId {
      LeftAfterInsert(w.rows, w'.rows, w'.lastId);
    } else if e.Claim? {
      LeftAfterClaim(w.rows, w'.rows, e.id);
    } else {
      LeftSame(w.rows, w'.rows, w.rows.Keys);
    }
  }

  /** One step: the attempts left drop by one for a claim and rise only by what it grants. */
  lemma StepSpendsClaims(c: Config, w: World, e: Event)
    requires GoodConfig(c) && Inv(c, w) && Enabled(c, w, e)
    ensures var w' := Step(c, w, e);
      Left(w'.rows, w'.rows.Keys) + (if e.Claim? then 1 else 0) == Left(w.rows, w.rows.Keys) + Grant(w, w')
  {
    StepRows(c, w, e);
    RowsSpendClaims(c, w, e, Step(c, w, e));
  }

  /** Conservation: attempts left plus claims made equals attempts there were plus attempts granted. */
  lemma {:induction false} ClaimsAreConserved(c: Config, ws: seq<World>, es: seq<Event>, n: nat)
    requires GoodRun(c, ws, es) && n <= |es|
    ensures Left(ws[n].rows, ws[n].rows.Keys) + AllClaims(es, n) == Left(ws[0].rows, ws[0].rows.Keys) + Granted(ws, n)
  {
    if n > 0 {
      ClaimsAreConserved(c, ws, es, n - 1);
      RunKeepsInv(c, ws, es, n - 1);
      var e := es[n - 1];
      StepSpendsClaims(c, ws[n - 1], e);
    }
  }

  /** Over a fixed set of jobs the number of claims in a run of any length is bounded. */
  lemma ClaimsAreBounded(c: Config, ws: seq<World>, es: seq<Event>)
    requires GoodRun(c, ws, es)
    ensures AllClaims(es, |es|) <= Left(ws[0].rows, ws[0].rows.Keys) + Granted(ws, |es|)
    ensures ws[|es|].lastId == ws[0].lastId ==> AllClaims(es, |es|) <= Left(ws[0].rows, ws[0].rows.Keys)
  {
    var n := |es|;
    ClaimsAreConserved(c, ws, es, n);
    RunKeepsInv(c, ws, es, n);
    LeftIsNonnegative(ws[n].rows, ws[n].rows.Keys);
    if ws[n].lastId == ws[0].lastId {
      NothingGranted(c, ws, es, n);
    }
  }

  lemma {:induction false} NothingGranted(c: Config, ws: seq<World>, es: seq<Event>, n: nat)
    requires GoodRun(c, ws, es) && n <= |es|
    ensures ws[0].lastId <= ws[n].lastId
    ensures ws[n].lastId == ws[0].lastId ==> Granted(ws, n) == 0
  {
    if n > 0 {
      NothingGranted(c, ws, es, n - 1);
      RunKeepsInv(c, ws, es, n - 1);
      var e := es[n - 1];
      StepRows(c, ws[n - 1], e);
    }
  }

  // Throttle cooldown -----------------------------------------------------------------

  /** No run-now clears `id`'s wait in the steps i+1 .. k-1. */
  ghost predicate NotCleared(es: seq<Event>, i: nat, k: nat, id: nat) {
    forall m :: i < m < k && m < |es| ==> es[m] != RunNowClear(id)
  }

  /** Job `id` cannot be claimed before `until`. */
  ghost predicate Held(w: World, id: nat, until: int) {
    || w.now >= until
    || (&& id in w.rows && w.rows[id].status.Pending?
        && w.rows[id].notBefore.Some? && w.rows[id].notBefore.value >= until
        && (w.phase.SavingRetry? && w.phase.id == id ==> w.now + w.phase.delay * SECOND >= until))
  }

  /** A pending job's wait never gets shorter, except through run-now. */
  lemma StepKeepsHeld(c: Config, w: World, e: Event, id: nat, until: int)
    requires GoodConfig(c) && Inv(c, w) && Enabled(c, w, e)
    requires Held(w, id, until) && e != RunNowClear(id)
    ensures Held(Step(c, w, e), id, until)
    ensures e.Claim? && e.id == id ==> w.now >= until
  {
    if w.now < until {
      HeldRowStays(c, w, e, id, until);
    }
  }

  lemma HeldRowStays(c: Config, w: World, e: Event, id: nat, until: int)
    requires Inv(c, w) && Enabled(c, w, e)
    requires Held(w, id, until) && w.now < until && e != RunNowClear(id)
    ensures id in RowsAfter(c, w, e) && !(e.Claim? && e.id == id)
    ensures var j := RowsAfter(c, w, e)[id];
      j.status.Pending? && j.notBefore.Some? && j.notBefore.value >= until
  {
    assert id !in w.manual;
  }

  lemma {:induction false} HeldUntil(c: Config, ws: seq<World>, es: seq<Event>, i: nat, k: nat, id: nat, until: int)
    requires GoodRun(c, ws, es) && i <= k < |ws|
    requires Held(ws[i], id, until)
    requires forall m :: i <= m < k ==> es[m] != RunNowClear(id)
    ensures Held(ws[k], id, until)
    decreases k - i
  {
    if i < k {
      HeldUntil(c, ws, es, i, k - 1, id, until);
      RunKeepsInv(c, ws, es, k - 1);
      var e := es[k - 1];
      StepKeepsHeld(c, ws[k - 1], e, id, until);
    }
  }

  /** A deferred job waits: no claim before its delay is over unless run-now cleared it. */
  lemma RetryWaits(c: Config, ws: seq<World>, es: seq<Event>, i: nat, k: nat)
    requires GoodRun(c, ws, es) && i < k < |es|
    requires es[i].SaveRetry? && es[k].Claim? && es[k].id == ws[i].phase.id
    requires NotCleared(es, i, k, ws[i].phase.id)
    ensures ws[k].now >= ws[i].now + ws[i].phase.delay * SECOND
  {
    var id, until := ws[i].phase.id, ws[i].now + ws[i].phase.delay * SECOND;
    RunKeepsInv(c, ws, es, i);
    RunKeepsInv(c, ws, es, k);
    assert Held(ws[i + 1], id, until);
    HeldUntil(c, ws, es, i + 1, k, id, until);
    var e := es[k];
    StepKeepsHeld(c, ws[k], e, id, until);
  }

  /** Cooldown: after defer_pending no other job that was pending is claimed before the delay is over. */
  lemma CooldownHolds(c: Config, ws: seq<World>, es: seq<Event>, i: nat, k: nat, id: nat)
    requires GoodRun(c, ws, es) && i < k < |es|
    requires es[i].Cool? && id in ws[i].rows && ws[i].rows[id].status.Pending? && id != ws[i].phase.id
    requires es[k].Claim? && es[k].id == id
    requires NotCleared(es, i, k, id)
    ensures ws[k].now >= ws[i].now + ws[i].phase.delay * SECOND
  {
    var until := ws[i].now + ws[i].phase.delay * SECOND;
    RunKeepsInv(c, ws, es, i);
    RunKeepsInv(c, ws, es, k);
    assert Held(ws[i + 1], id, until);
    HeldUntil(c, ws, es, i + 1, k, id, until);
    var e := es[k];
    StepKeepsHeld(c, ws[k], e, id, until);
  }

  /** Before a cooldown is over only these are claimed: a job inserted since, one that was running when
      the cooldown was written, one that a run-now cleared since, and, as RetryWaits has it, the
      throttled job itself. */
  lemma ClaimedInCooldown(c: Config, ws: seq<World>, es: seq<Event>, i: nat, k: nat)
    requires GoodRun(c, ws, es) && i < k < |es| && es[i].Cool? && es[k].Claim?
    requires ws[k].now < ws[i].now + ws[i].phase.delay * SECOND
    ensures
      || es[k].id !in ws[i].rows
      || ws[i].rows[es[k].id].status.Running?
      || !NotCleared(es, i, k, es[k].id)
      || es[k].id == ws[i].phase.id
  {
    var id := es[k].id;
    if id in ws[i].rows && NotCleared(es, i, k, id) && id != ws[i].phase.id {
      RowPersists(c, ws, es, i, k, id);
      if ws[i].rows[id].status.Pending? {
        CooldownHolds(c, ws, es, i, k, id);
      }
    }
  }

  /** Job `id` cools down until `until`, and no run-now request is past its check. */
  ghost predicate CoolingDown(w: World, id: nat, until: int) {
    || w.now >= until
    || (&& Held(w, id, until) && id !in w.clears
        && w.rows[id].category == Some(CategoryName(Throttled))
        && (w.phase.SavingRetry? && w.phase.id == id ==> w.phase.category.Throttled?))
  }

  lemma StepKeepsCoolingDown(c: Config, w: World, e: Event, id: nat, until: int)
    requires GoodConfig(c) && Inv(c, w) && Enabled(c, w, e)
    requires CoolingDown(w, id, until) && e != RunNowCheck(id, true)
    ensures CoolingDown(Step(c, w, e), id, until)
    ensures w.now < until ==> e != RunNowClear(id)
  {
    if w.now < until {
      StepKeepsHeld(c, w, e, id, until);
      assert id !in w.manual;
    }
  }

  lemma {:induction false} CoolingDownUntil(c: Config, ws: seq<World>, es: seq<Event>, i: nat, k: nat, id: nat,
                                            until: int)
    requires GoodRun(c, ws, es) && i <= k < |ws| && CoolingDown(ws[i], id, until)
    requires forall m :: i <= m < k ==> es[m] != RunNowCheck(id, true)
    ensures CoolingDown(ws[k], id, until)
    decreases k - i
  {
    if i < k {
      CoolingDownUntil(c, ws, es, i, k - 1, id, until);
      RunKeepsInv(c, ws, es, k - 1);
      var e := es[k - 1];
      StepKeepsCoolingDown(c, ws[k - 1], e, id, until);
    }
  }

  /** A throttled job is not claimed before its wait is over, whatever run-now requests come in,
      unless one of them forces it. */
  lemma OnlyForceBreaksCooldown(c: Config, ws: seq<World>, es: seq<Event>, i: nat, k: nat)
    requires GoodRun(c, ws, es) && i < k < |es|
    requires es[i].SaveRetry? && ws[i].phase.category.Throttled? && ws[i].phase.id !in ws[i].clears
    requires es[k].Claim? && es[k].id == ws[i].phase.id
    requires forall m :: i < m < k ==> es[m] != RunNowCheck(ws[i].phase.id, true)
    ensures ws[k].now >= ws[i].now + ws[i].phase.delay * SECOND
  {
    var id, until := ws[i].phase.id, ws[i].now + ws[i].phase.delay * SECOND;
    RunKeepsInv(c, ws, es, i);
    RunKeepsInv(c, ws, es, k);
    assert CoolingDown(ws[i + 1], id, until);
    CoolingDownUntil(c, ws, es, i + 1, k, id, until);
    var e := es[k];
    if ws[k].now < until {
      StepKeepsHeld(c, ws[k], e, id, until);
    }
  }

  lemma CoolingStays(c: Config, w: World, e: Event)
    requires Enabled(c, w, e) && w.phase.Cooling?
    ensures !e.Claim?
    ensures e == Crash || e == Cool(true) || Step(c, w, e).phase == w.phase
  {
  }

  /** A saved throttle is followed by the cooldown of the queue before anything is claimed,
      unless the process dies in between; `m` is the step that does either. */
  lemma ThrottleCoolsFirst(c: Config, ws: seq<World>, es: seq<Event>, i: nat, k: nat) returns (m: nat)
    requires GoodRun(c, ws, es) && i < k < |es|
    requires es[i] == SaveRetry(true) && ws[i].phase.cooldown != 0 && es[k].Claim?
    ensures i < m < k
    ensures es[m] == Crash || (es[m] == Cool(true) && ws[m].phase == Cooling(ws[i].phase.id, ws[i].phase.cooldown))
  {
    var e := es[i];
    m := CoolingEnds(c, ws, es, i + 1, k);
  }

  lemma {:induction false} CoolingEnds(c: Config, ws: seq<World>, es: seq<Event>, i: nat, k: nat) returns (m: nat)
    requires GoodRun(c, ws, es) && i <= k < |es| && ws[i].phase.Cooling? && es[k].Claim?
    ensures i <= m < k && (es[m] == Crash || (es[m] == Cool(true) && ws[m].phase == ws[i].phase))
    decreases k - i
  {
    var e := es[i];
    CoolingStays(c, ws[i], e);
    if e == Crash || e == Cool(true) {
      m := i;
    } else {
      m := CoolingEnds(c, ws, es, i + 1, k);
    }
  }

  // Retry spacing ------------------------------------------------------------------------

  /** Measured from a claim at `base` that made it attempt number `first`. */
  ghost predicate Spaced(w: World, id: nat, base: int, first: int) {
    && id in w.rows
    && var j := w.rows[id];
       && j.attempts >= first && j.startedAt.Some?
       && j.startedAt.value >= base + 30 * SECOND * (j.attempts - first)
       && (j.status.Pending? ==>
            j.notBefore.Some? && j.notBefore.value >= base + 30 * SECOND * (j.attempts + 1 - first))
  }

  /** What a step may do to the waiting of a row: a claim comes when the wait is over, a row put back
      waits at least the floor from its start, and a pending row's wait only grows. */
  ghost predicate WaitStep(w: World, e: Event, id: nat, a: Job, b: Job) {
    && (e.Claim? && e.id == id ==> Runnable(a, w.now) && b.status.Running? && b.startedAt == Some(w.now))
    && (b.status.Pending? ==>
      || (a.status.Pending? && a.notBefore.None?)
      || (a.status.Pending? && b.notBefore.Some? && b.notBefore.value >= a.notBefore.value)
      || (a.startedAt.Some? && b.notBefore.Some? && b.notBefore.value >= a.startedAt.value + FLOOR * SECOND))
  }

  lemma StepWaits(c: Config, w: World, e: Event, id: nat)
    requires GoodConfig(c) && Inv(c, w) && Enabled(c, w, e) && e != RunNowClear(id)
    requires id in w.rows && id in RowsAfter(c, w, e)
    ensures WaitStep(w, e, id, w.rows[id], RowsAfter(c, w, e)[id])
  {
  }

  lemma StepKeepsSpaced(c: Config, w: World, e: Event, id: nat, base: int, first: int)
    requires GoodConfig(c) && Inv(c, w) && Enabled(c, w, e)
    requires Spaced(w, id, base, first) && e != RunNowClear(id)
    ensures Spaced(Step(c, w, e), id, base, first)
  {
    StepRows(c, w, e);
    StepWaits(c, w, e, id);
    assert RowStep(e, id, w.rows[id], Step(c, w, e).rows[id]);
  }

  lemma {:induction false} SpacedUntil(c: Config, ws: seq<World>, es: seq<Event>, i: nat, k: nat, id: nat, base: int,
                                       first: int)
    requires GoodRun(c, ws, es) && i <= k < |ws|
    requires Spaced(ws[i], id, base, first)
    requires forall m :: i <= m < k ==> es[m] != RunNowClear(id)
    ensures Spaced(ws[k], id, base, first)
    decreases k - i
  {
    if i < k {
      SpacedUntil(c, ws, es, i, k - 1, id, base, first);
      RunKeepsInv(c, ws, es, k - 1);
      var e := es[k - 1];
      StepKeepsSpaced(c, ws[k - 1], e, id, base, first);
    }
  }

  /** Any two claims of a job lie at least half a minute per attempt apart. */
  lemma AttemptsAreSpaced(c: Config, ws: seq<World>, es: seq<Event>, i: nat, k: nat, id: nat)
    requires GoodRun(c, ws, es) && i < k < |es|
    requires es[i].Claim? && es[i].id == id && es[k].Claim? && es[k].id == id
    requires NotCleared(es, i, k, id)
    ensures id in ws[i].rows && id in ws[k].rows
    ensures ws[k].now >= ws[i].now + 30 * SECOND * (ws[k].rows[id].attempts - ws[i].rows[id].attempts)
  {
    RunKeepsInv(c, ws, es, i);
    var first := ws[i].rows[id].attempts + 1;
    assert Spaced(ws[i + 1], id, ws[i].now, first);
    SpacedUntil(c, ws, es, i + 1, k, id, ws[i].now, first);
    assert Enabled(c, ws[k], es[k]);
  }

  lemma StepCountsClaim(c: Config, ws: seq<World>, es: seq<Event>, n: nat, id: nat)
    requires GoodRun(c, ws, es) && n < |es| && id in ws[n].rows
    ensures id in ws[n + 1].rows
    ensures ws[n + 1].rows[id].attempts - ws[n].rows[id].attempts == Claims(es, n + 1, id) - Claims(es, n, id)
  {
    RunKeepsInv(c, ws, es, n);
    var e := es[n];
    StepRows(c, ws[n], e);
    assert RowStep(e, id, ws[n].rows[id], ws[n + 1].rows[id]);
  }

  /** At state n the attempts of a job are its claims so far and `offset`. */
  ghost predicate Counted(ws: seq<World>, es: seq<Event>, n: nat, id: nat, offset: int)
    requires n < |ws| && n <= |es|
  {
    id in ws[n].rows && ws[n].rows[id].attempts == Claims(es, n, id) + offset
  }

  lemma StepStaysCounted(c: Config, ws: seq<World>, es: seq<Event>, n: nat, id: nat, offset: int)
    requires GoodRun(c, ws, es) && n < |es| && Counted(ws, es, n, id, offset)
    ensures Counted(ws, es, n + 1, id, offset)
  {
    StepCountsClaim(c, ws, es, n, id);
  }

  /** From then on its attempts and its claims grow by the same number. */
  lemma {:induction false} StaysCounted(c: Config, ws: seq<World>, es: seq<Event>, i: nat, k: nat, id: nat, offset: int)
    requires GoodRun(c, ws, es) && i <= k <= |es| && Counted(ws, es, i, id, offset)
    ensures Counted(ws, es, k, id, offset)
    decreases k - i
  {
    if i < k {
      StaysCounted(c, ws, es, i, k - 1, id, offset);
      StepStaysCounted(c, ws, es, k - 1, id, offset);
    }
  }

  /** The n-th claim of a job comes at least 30(n-1) seconds after its first. */
  lemma ClaimsAreSpaced(c: Config, ws: seq<World>, es: seq<Event>, i: nat, k: nat, id: nat)
    requires GoodRun(c, ws, es) && i < k < |es|
    requires es[i].Claim? && es[i].id == id && es[k].Claim? && es[k].id == id
    requires NotCleared(es, i, k, id)
    ensures ws[k].now >= ws[i].now + 30 * SECOND * (Claims(es, k, id) - Claims(es, i, id))
  {
    AttemptsAreSpaced(c, ws, es, i, k, id);
    StaysCounted(c, ws, es, i, k, id, ws[i].rows[id].attempts - Claims(es, i, id));
  }

  // Catch-up -------------------------------------------------------------------------------

  /** Step `n` of the run inserts the catch-up job of a slot's planned fire. */
  ghost predicate Catches(ws: seq<World>, es: seq<Event>, n: nat, slot: string, planned: int) {
    && n < |es| && n + 1 < |ws| && es[n].CatchInsert? && ws[n].phase.CatchInserting? && ws[n].phase.todo != []
    && ws[n].phase.todo[0].slot == slot && ws[n].phase.todo[0].planned == planned
    && ws[n + 1].rows != ws[n].rows
  }

  /** The fire has its job and is on no list of missed ones. */
  ghost predicate CaughtUp(w: World, slot: string, planned: int) {
    && CreatedSince(w.rows, slot, planned)
    && (w.phase.CatchInserting? ==> forall m :: m in w.phase.todo ==> !(m.slot == slot && m.planned == planned))
  }

  lemma CreatedStays(c: Config, w: World, e: Event, w': World, slot: string, planned: int)
    requires RowsStep(c, w, e, w') && CreatedSince(w.rows, slot, planned)
    ensures CreatedSince(w'.rows, slot, planned)
  {
    var id :| id in w.rows && w.rows[id].kind == slot && w.rows[id].createdAt >= planned;
    assert RowStep(e, id, w.rows[id], w'.rows[id]);
  }

  /** Nothing but a new check lists a fire, and a check leaves out one that has its job. */
  lemma StepListsOnlyMissed(c: Config, w: World, e: Event, slot: string, planned: int)
    requires Enabled(c, w, e) && CaughtUp(w, slot, planned)
    ensures var w' := Step(c, w, e);
      w'.phase.CatchInserting? ==> forall m :: m in w'.phase.todo ==> !(m.slot == slot && m.planned == planned)
  {
    if e.CatchRead? {
      MissedListExact(c.schedule, w.rows, w.now, SLOTS);
    }
  }

  lemma StepKeepsCaughtUp(c: Config, w: World, e: Event, slot: string, planned: int)
    requires GoodConfig(c) && Inv(c, w) && Enabled(c, w, e) && CaughtUp(w, slot, planned)
    ensures CaughtUp(Step(c, w, e), slot, planned)
  {
    StepRows(c, w, e);
    CreatedStays(c, w, e, Step(c, w, e), slot, planned);
    StepListsOnlyMissed(c, w, e, slot, planned);
  }

  lemma CatchingUp(c: Config, w: World, e: Event)
    requires GoodConfig(c) && Inv(c, w) && Enabled(c, w, e) && e.CatchInsert? && Step(c, w, e).rows != w.rows
    ensures CaughtUp(Step(c, w, e), w.phase.todo[0].slot, w.phase.todo[0].planned)
  {
    var m := w.phase.todo[0];
    assert m in w.phase.todo;
    EnqueuedIsFresh(c, w, e, m.slot, CatchupPayload(m), w.now);
    var w' := Step(c, w, e);
    var id := w.lastId + 1;
    assert id in w'.rows && w'.rows[id].kind == m.slot && w'.rows[id].createdAt >= m.planned;
  }

  /** Catch-up fires at most once per slot and planned fire over any run, repeats included. */
  lemma CatchesOnce(c: Config, ws: seq<World>, es: seq<Event>, i: nat, k: nat, slot: string, planned: int)
    requires GoodRun(c, ws, es) && i < k
    requires Catches(ws, es, i, slot, planned)
    ensures !Catches(ws, es, k, slot, planned)
  {
    if k < |es| {
      RunKeepsInv(c, ws, es, i);
      CatchingUp(c, ws[i], es[i]);
      var n := i + 1;
      while n < k
        invariant i < n <= k && CaughtUp(ws[n], slot, planned)
      {
        RunKeepsInv(c, ws, es, n);
        var e := es[n];
        StepKeepsCaughtUp(c, ws[n], e, slot, planned);
        n := n + 1;
      }
    }
  }

  /** What one step of the check does: a listed slot is covered once its insert ran, and an overdue
      slot that was not listed already had its job. */
  lemma CheckCovers(c: Config, w: World, e: Event, slot: string)
    requires GoodConfig(c) && Inv(c, w) && Enabled(c, w, e) && slot in SLOTS
    ensures e.CatchInsert? && w.phase.todo[0].slot == slot ==> Covered(Step(c, w, e).rows, w.phase.todo[0])
    ensures e.CatchRead? && OverdueAt(c.schedule, slot, w.now) ==>
              Covered(w.rows, MissedAt(c.schedule, slot, w.now)) ||
                Listed(Step(c, w, e), MissedAt(c.schedule, slot, w.now))
  {
    match e
    case CatchRead =>
      MissedListExact(c.schedule, w.rows, w.now, SLOTS);
    case CatchInsert(_) =>
      var m := w.phase.todo[0];
      assert m in w.phase.todo;
      CatchupIdentityIsTheDay(m, w.now);
      EnqueuedIsFresh(c, w, e, m.slot, CatchupPayload(m), w.now);
      if Step(c, w, e).rows != w.rows {
        CatchingUp(c, w, e);
      }
    case _ =>
  }

  ghost predicate Listed(w: World, m: Missed) {
    w.phase.CatchInserting? && m in w.phase.todo
  }

  /** Every slot overdue at `t` is looked after or still on the list. */
  ghost predicate Checked(c: Config, t: int, w: World) {
    forall slot :: slot in SLOTS && OverdueAt(c.schedule, slot, t) ==>
      Covered(w.rows, MissedAt(c.schedule, slot, t)) || Listed(w, MissedAt(c.schedule, slot, t))
  }

  predicate Catching(p: Phase) {
    p.CatchReading? || p.CatchInserting?
  }

  /** While the one worker is catching up no other step ends an active job. */
  lemma CatchingKeepsActive(c: Config, w: World, e: Event, id: nat)
    requires Inv(c, w) && Enabled(c, w, e) && Catching(w.phase)
    requires id in w.rows && w.rows[id].identity.Some? && Active(w.rows[id])
    ensures id in RowsAfter(c, w, e) && Active(RowsAfter(c, w, e)[id])
  {
  }

  lemma CatchingKeepsCovered(c: Config, w: World, e: Event, m: Missed)
    requires GoodConfig(c) && Inv(c, w) && Enabled(c, w, e) && Catching(w.phase) && Covered(w.rows, m)
    ensures Covered(Step(c, w, e).rows, m)
  {
    StepRows(c, w, e);
    var w' := Step(c, w, e);
    if CreatedSince(w.rows, m.slot, m.planned) {
      CreatedStays(c, w, e, w', m.slot, m.planned);
    } else {
      var id :| id in w.rows && Active(w.rows[id]) && SameIdentity(w.rows[id], m.slot, CatchupIdentity(m));
      CatchingKeepsActive(c, w, e, id);
      assert RowStep(e, id, w.rows[id], w'.rows[id]);
    }
  }

  lemma CatchingKeepsChecked(c: Config, t: int, w: World, e: Event)
    requires GoodConfig(c) && Inv(c, w) && Enabled(c, w, e) && w.phase.CatchInserting? && Checked(c, t, w)
    requires e != Crash && e != CatchGiveUp && !Step(c, w, e).phase.CatchReading?
    ensures Checked(c, t, Step(c, w, e))
  {
    var w' := Step(c, w, e);
    forall slot | slot in SLOTS && OverdueAt(c.schedule, slot, t)
      ensures Covered(w'.rows, MissedAt(c.schedule, slot, t)) || Listed(w', MissedAt(c.schedule, slot, t))
    {
      var m := MissedAt(c.schedule, slot, t);
      if Covered(w.rows, m) {
        CatchingKeepsCovered(c, w, e, m);
      } else if e.CatchInsert? && w.phase.todo[0] == m {
        CheckCovers(c, w, e, slot);
      }
    }
  }

  lemma ReadChecks(c: Config, w: World)
    requires GoodConfig(c) && Inv(c, w) && Enabled(c, w, CatchRead)
    ensures Checked(c, w.now, Step(c, w, CatchRead))
  {
    forall slot | slot in SLOTS && OverdueAt(c.schedule, slot, w.now)
      ensures Covered(w.rows, MissedAt(c.schedule, slot, w.now))
              || Listed(Step(c, w, CatchRead), MissedAt(c.schedule, slot, w.now))
    {
      CheckCovers(c, w, CatchRead, slot);
    }
  }

  /** The check is reading, or what it read at `t` is dealt with as far as the list says. */
  ghost predicate UnderWay(c: Config, t: int, w: World) {
    w.phase.CatchReading? || Checked(c, t, w)
  }

  lemma CheckGoesOn(c: Config, t: int, w: World, e: Event)
    requires GoodConfig(c) && Inv(c, w) && Enabled(c, w, e) && Catching(w.phase) && UnderWay(c, t, w)
    requires e != Crash && e != CatchGiveUp
    ensures UnderWay(c, if e.CatchRead? then w.now else t, Step(c, w, e))
  {
    if e.CatchRead? {
      ReadChecks(c, w);
    } else if w.phase.CatchInserting? && !Step(c, w, e).phase.CatchReading? {
      CatchingKeepsChecked(c, t, w, e);
    }
  }

  /** From step i to k nothing but the check and the API goes on. */
  ghost predicate CheckOnly(ws: seq<World>, es: seq<Event>, i: nat, k: nat) {
    && i <= k <= |es| && k < |ws|
    && forall n {:trigger es[n]} :: i <= n < k ==> Catching(ws[n].phase) && es[n] != Crash && es[n] != CatchGiveUp
  }

  /** At state n the check is reading, or its last read was step r. */
  ghost predicate LastRead(c: Config, ws: seq<World>, es: seq<Event>, r: nat, n: nat) {
    && r <= n < |ws| && UnderWay(c, ws[r].now, ws[n])
    && (ws[n].phase.CatchReading? || (r < n <= |es| && es[r].CatchRead?))
  }

  lemma CheckStep(c: Config, ws: seq<World>, es: seq<Event>, i: nat, k: nat, n: nat, r: nat) returns (r': nat)
    requires GoodRun(c, ws, es) && CheckOnly(ws, es, i, k) && i <= r <= n < k && LastRead(c, ws, es, r, n)
    ensures i <= r' <= n + 1 && LastRead(c, ws, es, r', n + 1)
  {
    var e := es[n];
    RunKeepsInv(c, ws, es, n);
    CheckGoesOn(c, ws[r].now, ws[n], e);
    if e.CatchRead? {
      r' := n;
    } else {
      r' := r;
      if ws[n].phase.CatchReading? {
        ReadingStays(c, ws[n], e);
      }
    }
  }

  lemma {:induction false} CheckRuns(c: Config, ws: seq<World>, es: seq<Event>, i: nat, k: nat, n: nat) returns (r: nat)
    requires GoodRun(c, ws, es) && CheckOnly(ws, es, i, k) && i <= n <= k && ws[i].phase.CatchReading?
    ensures i <= r <= n && LastRead(c, ws, es, r, n)
    decreases n
  {
    r := i;
    if i < n {
      r := CheckRuns(c, ws, es, i, k, n - 1);
      r := CheckStep(c, ws, es, i, k, n - 1, r);
    }
  }

  /** A check that ends by itself has looked after every slot that was overdue when it last read the
      queue, whatever the API did and however often it started over; `r` is that read. */
  lemma CheckCompletes(c: Config, ws: seq<World>, es: seq<Event>, i: nat, k: nat) returns (r: nat)
    requires GoodRun(c, ws, es) && CheckOnly(ws, es, i, k)
    requires ws[i].phase.CatchReading? && !Catching(ws[k].phase)
    ensures i <= r < k && es[r].CatchRead?
    ensures forall slot :: slot in SLOTS && OverdueAt(c.schedule, slot, ws[r].now) ==>
              Covered(ws[k].rows, MissedAt(c.schedule, slot, ws[r].now))
  {
    r := CheckRuns(c, ws, es, i, k, k);
  }

  lemma ReadingStays(c: Config, w: World, e: Event)
    requires Enabled(c, w, e) && w.phase.CatchReading? && !e.CatchRead? && e != Crash && e != CatchGiveUp
    ensures Step(c, w, e).phase.CatchReading?
  {
  }

  // Idle polls ------------------------------------------------------------------------------

  /** The polls that found nothing in the steps i .. k-1. */
  function IdlePolls(es: seq<Event>, i: nat, k: nat): nat
    requires i <= k <= |es|
  {
    if i == k then 0 else IdlePolls(es, i, k - 1) + (if es[k - 1].ClaimNothing? then 1 else 0)
  }

  /** At state k the worker has polled as often as said since i, or is about to reclaim. */
  ghost predicate Polled(c: Config, ws: seq<World>, es: seq<Event>, i: nat, k: nat)
    requires i <= k <= |es| && k < |ws|
  {
    var n := IdlePolls(es, i, k);
    ws[k].phase == if n < Max(1, c.reclaimEvery) then Polling(n) else Reclaiming
  }

  /** From step i to k no job is claimed and the process lives. */
  ghost predicate OnlyPolls(ws: seq<World>, es: seq<Event>, i: nat, k: nat) {
    && i <= k <= |es| && k < |ws|
    && forall m {:trigger es[m]} :: i <= m < k ==> ws[m].phase.Polling? && es[m] != Crash && !es[m].Claim?
  }

  lemma PolledOnce(c: Config, ws: seq<World>, es: seq<Event>, i: nat, k: nat, n: nat)
    requires Run(c, ws, es) && OnlyPolls(ws, es, i, k) && i <= n < k && Polled(c, ws, es, i, n)
    ensures Polled(c, ws, es, i, n + 1)
  {
    var e := es[n];
    PollStep(c, ws[n], e);
  }

  lemma PolledSince(c: Config, ws: seq<World>, es: seq<Event>, i: nat, k: nat)
    requires Run(c, ws, es) && OnlyPolls(ws, es, i, k) && ws[i].phase == Polling(0)
    ensures Polled(c, ws, es, i, k)
  {
    var n := i;
    while n < k
      invariant i <= n <= k && Polled(c, ws, es, i, n)
    {
      PolledOnce(c, ws, es, i, k, n);
      n := n + 1;
    }
  }

  /** Counted from an idle tick of 0, as many polls without a job as configured lead to the reclaim, whatever
      the API does in between; with the catch-up switched on the check follows, and CheckCompletes takes
      over. */
  lemma IdlePollsReclaim(c: Config, ws: seq<World>, es: seq<Event>, i: nat, k: nat)
    requires Run(c, ws, es) && OnlyPolls(ws, es, i, k) && ws[i].phase == Polling(0)
    requires IdlePolls(es, i, k) >= c.reclaimEvery && IdlePolls(es, i, k) >= 1
    ensures ws[k].phase == Reclaiming
  {
    PolledSince(c, ws, es, i, k);
  }

  lemma PollStep(c: Config, w: World, e: Event)
    requires Enabled(c, w, e) && w.phase.Polling? && e != Crash && !e.Claim?
    ensures Step(c, w, e).phase ==
      if !e.ClaimNothing? then w.phase
      else if w.phase.idle + 1 < Max(1, c.reclaimEvery) then Polling(w.phase.idle + 1)
      else Reclaiming
  {
  }

  lemma ReclaimChecks(c: Config, w: World)
    requires Enabled(c, w, IdleReclaim(true))
    ensures Step(c, w, IdleReclaim(true)).phase == if c.catchupEnabled then CatchReading else Polling(0)
    ensures forall k :: k in w.rows && Stale(w.rows[k], w.now, c.staleSec) ==>
      k in Step(c, w, IdleReclaim(true)).rows && !Step(c, w, IdleReclaim(true)).rows[k].status.Running?
  {
  }

  /** What a poll can do, column by column: claim the pending job whose wait is over with the highest priority,
      then the earliest creation, then the smallest id; and find nothing exactly when no wait is over. */
  lemma PollTakesTheNext(c: Config, w: World, id: nat, back: bool)
    requires w.phase.Polling?
    ensures Enabled(c, w, Claim(id, back)) <==>
      && id in w.rows && w.rows[id].status == Pending
      && (w.rows[id].notBefore.None? || w.rows[id].notBefore.value <= w.now)
      && forall k :: k in w.rows && k != id ==>
           w.rows[k].status == Pending && (w.rows[k].notBefore.None? || w.rows[k].notBefore.value <= w.now) ==>
             || w.rows[k].priority < w.rows[id].priority
             || (&& w.rows[k].priority == w.rows[id].priority
                 && (|| w.rows[id].createdAt < w.rows[k].createdAt
                     || (w.rows[id].createdAt == w.rows[k].createdAt && id < k)))
    ensures Enabled(c, w, ClaimNothing) <==>
      forall k :: k in w.rows ==>
        !(w.rows[k].status == Pending && (w.rows[k].notBefore.None? || w.rows[k].notBefore.value <= w.now))
  {
  }

  /** A statement whose answer was lost is run again: the worker stays where it was, and the same statement
      is the next it can run. */
  lemma LostAnswerRepeats(c: Config, w: World, e: Event)
    requires Inv(c, w) && Enabled(c, w, e)
    requires e in {StartupReclaim(false), IdleReclaim(false), SaveDone(false), SaveRetry(false), SaveFailed(false),
      Cool(false)}
    ensures Step(c, w, e).phase == w.phase && Enabled(c, Step(c, w, e), e)
  {
  }

  /** A claim whose answer was lost leaves its job running and the worker polling. */
  lemma LostClaimIsForgotten(c: Config, w: World, id: nat)
    requires Inv(c, w) && Enabled(c, w, Claim(id, false))
    ensures var w' := Step(c, w, Claim(id, false));
      w'.phase == w.phase && id in w'.rows && w'.rows[id].status.Running?
  {
  }
}
