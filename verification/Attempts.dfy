/** From a handler's answer to the job's row: when a queued attempt reaches mark_done. */
module Attempts {
  import opened Prelude
  import opened Queue
  import opened Worker
  import opened Runs
  import opened WorkerLoop
  import opened Retry
  import Handlers
  import CashFetch
  import Trades
  import Refusals

  /** What dispatch comes to, as the loop sees it. */
  function OutcomeOf(v: Handlers.Verdict): Outcome {
    match v
    case Done(_) => Returned
    case Raise(m) => Raised(m)
  }

  /** A claimed cash job's attempt: it is marked done exactly when its connection opened, the run was
      complete and the freshness row was written; otherwise it is retried or failed. */
  method CashAttempt(loop: Loop, ghost api: World, job: nat, attempts: int, maxAttempts: int, now: int,
                     ib: CashFetch.Ib, f: CashFetch.Form, setup: Option<string>, entries: nat, w: CashFetch.Written,
                     connectError: Option<string>, recordError: Option<string>)
    returns (ghost ws: seq<World>, ghost es: seq<Event>)
    requires GoodConfig(loop.config) && loop.table.Valid() && loop.idleTicks == 0
    requires job in loop.table.rows && loop.table.rows[job].status.Running?
    modifies loop, loop.table
    ensures loop.table.Valid()
    ensures Run(loop.config, ws, es)
    ensures ws[0] == old(loop.View(api, now, Working(job, attempts, maxAttempts))) &&
      Last(ws) == loop.View(api, now, POLL)
    ensures job in loop.table.rows
    ensures var done := connectError.None? && recordError.None? && CashFetch.Complete(ib, f, setup, entries, w);
      && (SaveDone(true) in es <==> done)
      && (loop.table.rows[job].status.Done? <==> done)
    ensures connectError.None? && setup.None? && Refusals.CashFailed(ib, f, entries, w) ==>
              exists category ::
                && Refusals.WorstOf(loop.digits, category, Refusals.AllCashRefusals(ib, f, entries))
                && FailureSaved(old(loop.table.rows), loop.table.rows, job, category, attempts, maxAttempts,
                                loop.config.policy, now)
  {
    if connectError.None? && setup.None? && Refusals.CashFailed(ib, f, entries, w) {
      Refusals.CashFailureCategory(loop.digits, ib, f, entries, w, recordError);
    }
    var result := CashFetch.CashResult(setup, entries, CashFetch.AfterEntries(ib, f, entries), w);
    var v := Handlers.Dispatch(connectError, Handlers.RequireOk(result, "flex-transactions"), recordError);
    CashFetch.DoneMeansComplete(ib, f, setup, entries, w, "flex-transactions", connectError, recordError);
    ws, es := loop.Settle(api, job, attempts, maxAttempts, OutcomeOf(v), now);
  }

  /** The same for a trades job. */
  method TradesAttempt(loop: Loop, ghost api: World, job: nat, attempts: int, maxAttempts: int, now: int,
                       ib: Trades.Ask2 -> Trades.Answer, names: seq<string>, dated: bool, allow: bool,
                       setup: Option<string>, w: Trades.Stored, connectError: Option<string>,
                         recordError: Option<string>)
    returns (ghost ws: seq<World>, ghost es: seq<Event>)
    requires GoodConfig(loop.config) && loop.table.Valid() && loop.idleTicks == 0
    requires job in loop.table.rows && loop.table.rows[job].status.Running?
    modifies loop, loop.table
    ensures loop.table.Valid()
    ensures Run(loop.config, ws, es)
    ensures ws[0] == old(loop.View(api, now, Working(job, attempts, maxAttempts))) &&
      Last(ws) == loop.View(api, now, POLL)
    ensures job in loop.table.rows
    ensures var done := connectError.None? && recordError.None? && Trades.Complete(ib, names, dated, allow, setup, w);
      && (SaveDone(true) in es <==> done)
      && (loop.table.rows[job].status.Done? <==> done)
    ensures connectError.None? && setup.None? && Refusals.TradesFailed(loop.digits, ib, names, dated, allow, w) ==>
              exists category ::
                && Refusals.WorstOf(loop.digits, category, Refusals.AllTradesRefusals(ib, |names|, dated, allow))
                && FailureSaved(old(loop.table.rows), loop.table.rows, job, category, attempts, maxAttempts,
                                loop.config.policy, now)
  {
    if connectError.None? && setup.None? && Refusals.TradesFailed(loop.digits, ib, names, dated, allow, w) {
      Refusals.TradesFailureCategory(loop.digits, ib, names, dated, allow, w, recordError);
    }
    var v := Handlers.Dispatch(connectError, Trades.Handled(ib, names, dated, allow, setup, w), recordError);
    Trades.DoneMeansComplete(ib, names, dated, allow, setup, w, connectError, recordError);
    ws, es := loop.Settle(api, job, attempts, maxAttempts, OutcomeOf(v), now);
  }

  /** What that means for the case it is made for: if any refusal quotes 1018 and an attempt is left, the job
      waits as throttled, and every other pending job waits as long. */
  lemma RefusedTokenCoolsTheQueue(d: DigitTable, was: Table, t: Table, job: nat, category: Category, attempts: int,
                                  maxAttempts: int, p: Policy, now: int, refusals: set<string>)
    requires Refusals.WorstOf(d, category, refusals) && exists m :: m in refusals && Quotes(d, m, 1018)
    requires FailureSaved(was, t, job, category, attempts, maxAttempts, p, now) && attempts < maxAttempts
    ensures t[job].status == Pending && t[job].category == Some("throttled")
    ensures t[job].notBefore == Some(now + p.throttled * SECOND)
    ensures forall k :: k in was && k != job && was[k].status == Pending ==>
      t[k].notBefore.Some? && t[k].notBefore.value >= now + p.throttled * SECOND
  {
    var m :| m in refusals && Quotes(d, m, 1018);
    ClassifyByTheTable(d, m);
    Refusals.SameRank(category, Throttled);
  }

  /** A manual run passes the audit's test by the same criterion; its answer always carries `ok`. */
  lemma CashAuditIsComplete(ib: CashFetch.Ib, f: CashFetch.Form, setup: Option<string>, entries: nat,
                            w: CashFetch.Written)
    ensures Handlers.AuditOk(CashFetch.CashResult(setup, entries, CashFetch.AfterEntries(ib, f, entries), w)) <==>
      CashFetch.Complete(ib, f, setup, entries, w)
  {
    CashFetch.DoneExactly(ib, f, setup, entries, w, "flex-transactions");
  }

  lemma TradesAuditIsComplete(ib: Trades.Ask2 -> Trades.Answer, names: seq<string>, dated: bool, allow: bool,
                              setup: Option<string>, w: Trades.Stored)
    ensures var g := Trades.Gather(ib, names, dated, allow, |names|);
      Handlers.AuditOk(Trades.TradesResult(setup, g, |names|, w)) <==>
      Trades.Complete(ib, names, dated, allow, setup, w)
  {
    Trades.DoneExactly(ib, names, dated, allow, setup, w);
  }

  /** _audit_finish of a manual run whose row is `job`: the row is done when the answer passes, otherwise
      failed with the category of its error. */
  method AuditFinish(loop: Loop, ghost ws: seq<World>, ghost es: seq<Event>, job: nat, r: Handlers.Result, at: int)
    returns (ghost ws': seq<World>, ghost es': seq<Event>)
    requires loop.table.Valid() && Run(loop.config, ws, es) && loop.Shows(Last(ws)) && Last(ws).now <= at
    requires job in Last(ws).openRuns && job in loop.table.rows
    modifies loop.table
    ensures loop.table.Valid() && Run(loop.config, ws', es') && ws'[0] == ws[0] && loop.Shows(Last(ws'))
    ensures job in loop.table.rows
    ensures loop.table.rows[job].status == if Handlers.AuditOk(r) then Done else Failed
    ensures !Handlers.AuditOk(r) ==>
              loop.table.rows[job].category == Some(CategoryName(Classify(loop.digits, Handlers.AuditError(r))))
    ensures forall k :: k in old(loop.table.rows) && k != job ==>
              k in loop.table.rows && loop.table.rows[k] == old(loop.table.rows)[k]
  {
    var category := Classify(loop.digits, Handlers.AuditError(r));
    ws', es' := loop.Serve(ws, es, Finish(job, Handlers.AuditOk(r), category), at);
  }

  /** The end of a manual cash run: its row is done exactly when the run was complete. */
  method ManualCash(loop: Loop, ghost ws: seq<World>, ghost es: seq<Event>, job: nat, at: int, ib: CashFetch.Ib,
                    f: CashFetch.Form, setup: Option<string>, entries: nat, w: CashFetch.Written)
    returns (ghost ws': seq<World>, ghost es': seq<Event>)
    requires loop.table.Valid() && Run(loop.config, ws, es) && loop.Shows(Last(ws)) && Last(ws).now <= at
    requires job in Last(ws).openRuns && job in loop.table.rows
    modifies loop.table
    ensures loop.table.Valid() && Run(loop.config, ws', es') && ws'[0] == ws[0] && loop.Shows(Last(ws'))
    ensures job in loop.table.rows
    ensures loop.table.rows[job].status.Done? <==> CashFetch.Complete(ib, f, setup, entries, w)
    ensures loop.table.rows[job].status.Done? || loop.table.rows[job].status.Failed?
  {
    CashAuditIsComplete(ib, f, setup, entries, w);
    var r := CashFetch.CashResult(setup, entries, CashFetch.AfterEntries(ib, f, entries), w);
    ws', es' := AuditFinish(loop, ws, es, job, r, at);
  }

  /** And of a manual trades run. */
  method ManualTrades(loop: Loop, ghost ws: seq<World>, ghost es: seq<Event>, job: nat, at: int,
                      ib: Trades.Ask2 -> Trades.Answer, names: seq<string>, dated: bool, allow: bool,
                      setup: Option<string>, w: Trades.Stored)
    returns (ghost ws': seq<World>, ghost es': seq<Event>)
    requires loop.table.Valid() && Run(loop.config, ws, es) && loop.Shows(Last(ws)) && Last(ws).now <= at
    requires job in Last(ws).openRuns && job in loop.table.rows
    modifies loop.table
    ensures loop.table.Valid() && Run(loop.config, ws', es') && ws'[0] == ws[0] && loop.Shows(Last(ws'))
    ensures job in loop.table.rows
    ensures loop.table.rows[job].status.Done? <==> Trades.Complete(ib, names, dated, allow, setup, w)
    ensures loop.table.rows[job].status.Done? || loop.table.rows[job].status.Failed?
  {
    TradesAuditIsComplete(ib, names, dated, allow, setup, w);
    var r := Trades.TradesResult(setup, Trades.Gather(ib, names, dated, allow, |names|), |names|, w);
    ws', es' := AuditFinish(loop, ws, es, job, r, at);
  }
}
