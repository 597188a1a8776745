/** No lost cash day: what is stored after any number of scheduled cash runs. */
module CashRuns {
  import opened Prelude
  import opened Windows
  import opened CashFetch

  /** An account whose last stored day counts; with no Flex executions at all every account does. */
  predicate Counted(flexAccounts: set<string>, account: string) {
    account != "" && (flexAccounts == {} || account in flexAccounts)
  }

  ghost function DaysOf(stored: set<Row>, account: string): set<nat> {
    set r | r in stored && r.account == account :: r.day
  }

  /** The account's last stored day, -1 while it has none. */
  ghost function LastDay(stored: set<Row>, account: string): int {
    if DaysOf(stored, account) == {} then -1 else MaxOf(DaysOf(stored, account))
  }

  /** read_last_transaction_dates. */
  ghost function LastDates(stored: set<Row>, flexAccounts: set<string>): map<string, nat> {
    map a | a in (set r | r in stored :: r.account) && Counted(flexAccounts, a) && DaysOf(stored, a) != {} ::
      MaxOf(DaysOf(stored, a))
  }

  lemma LastDatesOf(stored: set<Row>, flexAccounts: set<string>, account: string)
    requires Counted(flexAccounts, account) && DaysOf(stored, account) != {}
    ensures account in LastDates(stored, flexAccounts)
    ensures LastDates(stored, flexAccounts)[account] == MaxOf(DaysOf(stored, account))
  {
    var day :| day in DaysOf(stored, account);
    var r :| r in stored && r.account == account && r.day == day;
    assert r.account in set x | x in stored :: x.account;
  }

  /** Which accounts have one: those with stored rows that also have executions, or all of them when no
      account has any. */
  lemma LastDatesExactly(stored: set<Row>, flexAccounts: set<string>, account: string)
    ensures account in LastDates(stored, flexAccounts) <==>
      account != "" && (flexAccounts == {} || account in flexAccounts) && exists r ::
        r in stored && r.account == account
  {
    forall r | r in stored && r.account == account ensures r.day in DaysOf(stored, account) {
    }
  }

  /** One scheduled run: the day, the settings, the accounts that count, IB's answers, the write. */
  datatype CashRun = CashRun(
    today: int, defaultDays: int, initDays: int, flexAccounts: set<string>,
    entries: nat, ib: Ib, spanOf: Window -> Span, written: Written)

  ghost function Start(stored: set<Row>, run: CashRun): int {
    WindowStart(LastDates(stored, run.flexAccounts), run.today - 1, run.defaultDays, run.initDays)
  }

  ghost function ChunksOf(stored: set<Row>, run: CashRun): seq<Window> {
    Split(Start(stored, run), run.today - 1, CHUNK_MAX_SPAN_DAYS)
  }

  /** A queued run: dated chunks, fallback false. */
  function FormOf(chunks: seq<Window>, spanOf: Window -> Span): Form {
    Form(seq(|chunks|, i requires 0 <= i < |chunks| => spanOf(chunks[i])), true, false)
  }

  ghost function Fetched(stored: set<Row>, run: CashRun): Sink {
    AfterEntries(run.ib, FormOf(ChunksOf(stored, run), run.spanOf), run.entries)
  }

  /** The upsert is all or nothing, and what is stored stays stored. */
  ghost function StoredAfter(stored: set<Row>, run: CashRun): set<Row> {
    var s := Fetched(stored, run);
    if s.died.Some? || !WriteWentThrough(s, run.written) then stored
    else stored + set r | r in s.rows
  }

  // What a run brings in ------------------------------------------------------------

  predicate Answered(ib: Ib, e: nat, c: nat) {
    ib(Request(e, c, false)).Rows?
  }

  predicate Brings(ib: Ib, e: nat, c: nat, r: Row) {
    Answered(ib, e, c) && r in ib(Request(e, c, false)).rows
  }

  lemma {:induction false} ChunksBring(ib: Ib, f: Form, e: nat, n: nat, s: Sink, r: Row)
    requires n <= |f.spans| && !f.allowFallback && AfterChunks(ib, f, e, n, s).died.None?
    ensures s.died.None? || n == 0
    ensures r in AfterChunks(ib, f, e, n, s).rows <==> r in s.rows || exists c: nat :: c < n && Brings(ib, e, c, r)
  {
    if n > 0 {
      ChunksBring(ib, f, e, n - 1, s, r);
      var before := AfterChunks(ib, f, e, n - 1, s);
      var reply := ChunkReply(ib, f, e, n - 1);
      assert before.died.None?;
      assert Brings(ib, e, n - 1, r) <==> reply.Got? && r in reply.rows;
      assert r in AfterChunks(ib, f, e, n, s).rows <==> r in before.rows || Brings(ib, e, n - 1, r);
    }
  }

  lemma {:induction false} EntriesBring(ib: Ib, f: Form, n: nat, r: Row)
    requires !f.allowFallback && AfterEntries(ib, f, n).died.None?
    ensures r in AfterEntries(ib, f, n).rows <==>
      exists e: nat, c: nat :: e < n && c < |f.spans| && Brings(ib, e, c, r)
  {
    if n > 0 {
      EntriesBring(ib, f, n - 1, r);
      ChunksBring(ib, f, n - 1, |f.spans|, AfterEntries(ib, f, n - 1), r);
    }
  }

  lemma FetchedBrings(stored: set<Row>, run: CashRun, r: Row)
    requires Fetched(stored, run).died.None?
    ensures r in Fetched(stored, run).rows <==>
      exists e: nat, c: nat :: e < run.entries && c < |ChunksOf(stored, run)| && Brings(run.ib, e, c, r)
  {
    EntriesBring(run.ib, FormOf(ChunksOf(stored, run), run.spanOf), run.entries, r);
  }

  // The guarantee ---------------------------------------------------------------------

  /** IB answers from a fixed ledger: for `account`, fed by query `q` alone, a request brings
      exactly the ledger's rows of its days. */
  ghost predicate Honest(ledger: set<Row>, stored: set<Row>, run: CashRun, account: string, q: nat) {
    && q < run.entries
    && (forall e: nat, c: nat, r: Row ::
      e < run.entries && c < |ChunksOf(stored, run)| && Brings(run.ib, e, c, r) && r.account == account ==>
          e == q && r in ledger && Covers(ChunksOf(stored, run)[c], r.day))
    && (forall c: nat, r: Row ::
          (c < |ChunksOf(stored, run)| && Answered(run.ib, q, c) && r in ledger && r.account == account
           && Covers(ChunksOf(stored, run)[c], r.day)) ==> Brings(run.ib, q, c, r))
  }

  /** Of query `q`, no chunk with days past the account's last stored one fails before a chunk that
      answers: the failures that matter come last. */
  ghost predicate FailuresAreLast(stored: set<Row>, run: CashRun, account: string, q: nat) {
    var chunks := ChunksOf(stored, run);
    forall i: nat, j: nat ::
      i < j < |chunks| && !Answered(run.ib, q, i) && Answered(run.ib, q, j) ==> chunks[i].to <= LastDay(stored, account)
  }

  /** Every ledger row from `first` to the account's last stored day is stored. */
  ghost predicate Gapless(ledger: set<Row>, stored: set<Row>, account: string, first: int) {
    && DaysOf(stored, account) != {}
    && forall r :: r in ledger && r.account == account && first <= r.day <= MaxOf(DaysOf(stored, account)) ==>
      r in stored
  }

  lemma WindowOrder(stored: set<Row>, run: CashRun)
    ensures Start(stored, run) < run.today - 1
    ensures var chunks := ChunksOf(stored, run);
      && chunks != [] && Consecutive(chunks, CHUNK_MAX_SPAN_DAYS)
      && chunks[0].from == Start(stored, run) && chunks[|chunks| - 1].to == run.today - 1
  {
    ChunksAreConsecutive(Start(stored, run), run.today - 1, CHUNK_MAX_SPAN_DAYS);
  }

  /** If the failures that matter come last, a run that brings a row of some day brings all the earlier
      days of its window that are not stored yet. */
  lemma EarlierDaysComeToo(ledger: set<Row>, stored: set<Row>, run: CashRun, account: string, q: nat, x: Row, r: Row)
    requires Honest(ledger, stored, run, account, q) && FailuresAreLast(stored, run, account, q)
    requires Fetched(stored, run).died.None?
    requires x in Fetched(stored, run).rows && x.account == account
    requires r in ledger && r.account == account && Start(stored, run) <= r.day <= x.day
    requires r.day > LastDay(stored, account)
    ensures r in Fetched(stored, run).rows
  {
    var chunks := ChunksOf(stored, run);
    WindowOrder(stored, run);
    FetchedBrings(stored, run, x);
    var e: nat, c: nat :| e < run.entries && c < |chunks| && Brings(run.ib, e, c, x);
    assert e == q && Covers(chunks[c], x.day);
    LastChunkBounds(chunks, c);
    var i := FindChunk(chunks, CHUNK_MAX_SPAN_DAYS, r.day);
    NotLater(chunks, i, c, r.day, x.day);
    assert Answered(run.ib, q, i);
    assert Brings(run.ib, q, i, r);
    FetchedBrings(stored, run, r);
  }

  lemma LastChunkBounds(chunks: seq<Window>, c: nat)
    requires Consecutive(chunks, CHUNK_MAX_SPAN_DAYS) && c < |chunks|
    ensures chunks[c].to <= chunks[|chunks| - 1].to
  {
    if c < |chunks| - 1 {
      ConsecutiveIsOrdered(chunks, CHUNK_MAX_SPAN_DAYS, c, |chunks| - 1);
    }
  }

  lemma NotLater(chunks: seq<Window>, i: nat, c: nat, early: int, late: int)
    requires Consecutive(chunks, CHUNK_MAX_SPAN_DAYS) && i < |chunks| && c < |chunks|
    requires Covers(chunks[i], early) && Covers(chunks[c], late) && early <= late
    ensures i <= c
  {
    if c < i {
      ConsecutiveIsOrdered(chunks, CHUNK_MAX_SPAN_DAYS, c, i);
    }
  }

  /** One run keeps the account gapless. */
  lemma RunKeepsGapless(ledger: set<Row>, stored: set<Row>, run: CashRun, account: string, q: nat, first: int)
    requires Gapless(ledger, stored, account, first) && Counted(run.flexAccounts, account)
    requires Honest(ledger, stored, run, account, q) && FailuresAreLast(stored, run, account, q)
    ensures Gapless(ledger, StoredAfter(stored, run), account, first)
  {
    var after := StoredAfter(stored, run);
    if after != stored {
      LastDatesOf(stored, run.flexAccounts, account);
      WindowReachesBack(LastDates(stored, run.flexAccounts), run.today - 1, run.defaultDays, run.initDays, account);
      var last := MaxOf(DaysOf(stored, account));
      assert DaysOf(stored, account) <= DaysOf(after, account);
      forall r | r in ledger && r.account == account && first <= r.day <= MaxOf(DaysOf(after, account))
        ensures r in after {
        if r.day > last {
          NewestIsFetched(stored, run, account, last);
          var x :| x in Fetched(stored, run).rows && x.account == account && x.day == MaxOf(DaysOf(after, account));
          EarlierDaysComeToo(ledger, stored, run, account, q, x, r);
        }
      }
    }
  }

  /** A new last day comes from the run's own rows. */
  lemma NewestIsFetched(stored: set<Row>, run: CashRun, account: string, last: int)
    requires DaysOf(StoredAfter(stored, run), account) != {}
    requires forall day :: day in DaysOf(stored, account) ==> day <= last
    requires MaxOf(DaysOf(StoredAfter(stored, run), account)) > last
    ensures Fetched(stored, run).died.None?
    ensures exists x :: x in Fetched(stored, run).rows && x.account == account
                        && x.day == MaxOf(DaysOf(StoredAfter(stored, run), account))
  {
    var after := StoredAfter(stored, run);
    var newest := MaxOf(DaysOf(after, account));
    var x :| x in after && x.account == account && x.day == newest;
    assert forall y :: y in stored && y.account == account ==> y.day in DaysOf(stored, account);
  }

  /** The run that first stores the account stores it without a gap from its window's start. */
  lemma FirstRunIsGapless(ledger: set<Row>, stored: set<Row>, run: CashRun, account: string, q: nat)
    requires DaysOf(stored, account) == {} && DaysOf(StoredAfter(stored, run), account) != {}
    requires Honest(ledger, stored, run, account, q) && FailuresAreLast(stored, run, account, q)
    ensures Gapless(ledger, StoredAfter(stored, run), account, Start(stored, run))
  {
    var after := StoredAfter(stored, run);
    NewestIsFetched(stored, run, account, -1);
    var x :| x in Fetched(stored, run).rows && x.account == account && x.day == MaxOf(DaysOf(after, account));
    forall r | r in ledger && r.account == account && Start(stored, run) <= r.day <= MaxOf(DaysOf(after, account))
      ensures r in after
    {
      EarlierDaysComeToo(ledger, stored, run, account, q, x, r);
    }
  }

  /** One scheduled run from `was` to `now`, in which query `q` feeds the account and its failures come last. */
  ghost predicate Follows(ledger: set<Row>, was: set<Row>, now: set<Row>, run: CashRun, account: string, q: nat) {
    && now == StoredAfter(was, run)
    && Counted(run.flexAccounts, account)
    && Honest(ledger, was, run, account, q)
    && FailuresAreLast(was, run, account, q)
  }

  /** A sequence of scheduled runs; `feeds[i]` is the query of run i that feeds the account. */
  ghost predicate History(ledger: set<Row>, states: seq<set<Row>>, runs: seq<CashRun>, feeds: seq<nat>,
                          account: string) {
    && |states| == |runs| + 1 && |feeds| == |runs|
    && forall i {:trigger runs[i]} :: 0 <= i < |runs| ==>
      Follows(ledger, states[i], states[i + 1], runs[i], account, feeds[i])
  }

  lemma HistoryKeepsGapless(ledger: set<Row>, states: seq<set<Row>>, runs: seq<CashRun>, feeds: seq<nat>,
                            account: string, i: nat, first: int)
    requires History(ledger, states, runs, feeds, account) && i < |runs| && Gapless(ledger, states[i], account, first)
    ensures Gapless(ledger, states[i + 1], account, first)
  {
    RunKeepsGapless(ledger, states[i], runs[i], account, feeds[i], first);
  }

  lemma {:induction false} HistoryStaysGapless(ledger: set<Row>, states: seq<set<Row>>, runs: seq<CashRun>,
                                               feeds: seq<nat>, account: string, k: nat, n: nat, first: int)
    requires History(ledger, states, runs, feeds, account) && k <= n < |states|
    requires Gapless(ledger, states[k], account, first)
    ensures Gapless(ledger, states[n], account, first)
  {
    if k < n {
      HistoryStaysGapless(ledger, states, runs, feeds, account, k, n - 1, first);
      HistoryKeepsGapless(ledger, states, runs, feeds, account, n - 1, first);
    }
  }

  lemma HistoryStartsGapless(ledger: set<Row>, states: seq<set<Row>>, runs: seq<CashRun>, feeds: seq<nat>,
                             account: string, k: nat)
    requires History(ledger, states, runs, feeds, account) && k < |runs|
    requires DaysOf(states[k], account) == {} && DaysOf(states[k + 1], account) != {}
    ensures Gapless(ledger, states[k + 1], account, Start(states[k], runs[k]))
  {
    FirstRunIsGapless(ledger, states[k], runs[k], account, feeds[k]);
  }

  /** No lost cash day: whatever fails in whatever run, every IB row between the start of the window
      that first stored the account and the account's last stored day is stored. */
  lemma NoLostCashDay(ledger: set<Row>, states: seq<set<Row>>, runs: seq<CashRun>, feeds: seq<nat>,
                      account: string, k: nat, n: nat)
    requires History(ledger, states, runs, feeds, account) && k < n < |states|
    requires DaysOf(states[k], account) == {} && DaysOf(states[k + 1], account) != {}
    ensures Gapless(ledger, states[n], account, Start(states[k], runs[k]))
  {
    HistoryStartsGapless(ledger, states, runs, feeds, account, k);
    HistoryStaysGapless(ledger, states, runs, feeds, account, k + 1, n, Start(states[k], runs[k]));
  }

  /** A window of at most a year is one chunk, and then any failures are harmless. */
  lemma OneChunkIsSafe(stored: set<Row>, run: CashRun, account: string, q: nat)
    requires run.today - 1 - Start(stored, run) <= CHUNK_MAX_SPAN_DAYS
    ensures |ChunksOf(stored, run)| == 1 && FailuresAreLast(stored, run, account, q)
  {
    WindowOrder(stored, run);
    var chunks := ChunksOf(stored, run);
    assert Chunks(run.today, run.today - 1, CHUNK_MAX_SPAN_DAYS) == [];
    assert chunks == [Window(Start(stored, run), run.today - 1)];
  }
}
