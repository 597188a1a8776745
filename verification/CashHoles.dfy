/** The limit of the no-lost-day guarantee: an older chunk failing while a newer one lands, and what
    later runs do about the day it leaves out. */
module CashHoles {
  import opened Prelude
  import opened Windows
  import opened CashFetch
  import opened CashRuns
  import opened FlexClient

  // How far back a window reaches ----------------------------------------------------------

  /** No stored row belongs to an account that counts. */
  ghost predicate NoneCounted(stored: set<Row>, flexAccounts: set<string>) {
    forall r :: r in stored ==> !Counted(flexAccounts, r.account)
  }

  /** Some account that counts has its last stored day at or before `day`. */
  ghost predicate Lagging(stored: set<Row>, flexAccounts: set<string>, day: int) {
    exists r :: r in stored && Counted(flexAccounts, r.account) && LastDay(stored, r.account) <= day
  }

  lemma StoredDays(stored: set<Row>, r: Row)
    requires r in stored
    ensures r.day in DaysOf(stored, r.account) && LastDay(stored, r.account) >= r.day
  {
  }

  /** A window starts at or before a day exactly when an account lags that far behind or the default
      days reach it; with nothing stored that counts, when the initial days do. */
  lemma ReachesBack(stored: set<Row>, run: CashRun, day: int)
    ensures Start(stored, run) <= day <==>
      if NoneCounted(stored, run.flexAccounts) then run.today - 1 - Max(1, run.initDays) <= day
      else Lagging(stored, run.flexAccounts, day) || run.today - 1 - Max(1, run.defaultDays) <= day
  {
    var dates := LastDates(stored, run.flexAccounts);
    forall r | r in stored && Counted(run.flexAccounts, r.account)
      ensures r.account in dates && dates[r.account] == LastDay(stored, r.account)
    {
      StoredDays(stored, r);
      LastDatesOf(stored, run.flexAccounts, r.account);
    }
    forall a | a in dates
      ensures exists r ::
                r in stored && r.account == a && Counted(run.flexAccounts, a) && dates[a] == LastDay(stored, a)
    {
      var d :| d in DaysOf(stored, a);
      var r :| r in stored && r.account == a && r.day == d;
    }
    if NoneCounted(stored, run.flexAccounts) {
      assert dates == map[];
    } else {
      var r :| r in stored && Counted(run.flexAccounts, r.account);
      assert r.account in dates;
      WindowIsLeast(dates, run.today - 1, run.defaultDays, run.initDays, day);
      if Lagging(stored, run.flexAccounts, day) {
        var x :| x in stored && Counted(run.flexAccounts, x.account) && LastDay(stored, x.account) <= day;
        assert dates[x.account] <= day;
      }
    }
  }

  lemma WindowIsLeast(dates: map<string, nat>, yesterday: int, defaultDays: int, initDays: int, day: int)
    requires dates != map[]
    ensures WindowStart(dates, yesterday, defaultDays, initDays) <= day <==>
      (exists a :: a in dates && dates[a] <= day) || yesterday - Max(1, defaultDays) <= day
  {
    var a :| a in dates;
    WindowReachesBack(dates, yesterday, defaultDays, initDays, a);
    forall b | b in dates && dates[b] <= day ensures WindowStart(dates, yesterday, defaultDays, initDays) <= day {
      WindowReachesBack(dates, yesterday, defaultDays, initDays, b);
    }
  }

  // A hole over later runs -----------------------------------------------------------------

  /** IB answers with rows of the days it was asked for. */
  ghost predicate OnlyAskedDays(stored: set<Row>, run: CashRun) {
    forall e: nat, c: nat, r: Row ::
      e < run.entries && c < |ChunksOf(stored, run)| && Brings(run.ib, e, c, r) ==>
        Covers(ChunksOf(stored, run)[c], r.day)
  }

  lemma ChunkIsInWindow(stored: set<Row>, run: CashRun, c: nat)
    requires c < |ChunksOf(stored, run)|
    ensures Start(stored, run) <= ChunksOf(stored, run)[c].from && ChunksOf(stored, run)[c].to <= run.today - 1
  {
    WindowOrder(stored, run);
    var chunks := ChunksOf(stored, run);
    LastChunkBounds(chunks, c);
    if c > 0 {
      ConsecutiveIsOrdered(chunks, CHUNK_MAX_SPAN_DAYS, 0, c);
    }
  }

  lemma StoresOnlyItsWindow(stored: set<Row>, run: CashRun, r: Row)
    requires OnlyAskedDays(stored, run) && r in StoredAfter(stored, run) && r !in stored
    ensures Start(stored, run) <= r.day <= run.today - 1
  {
    FetchedBrings(stored, run, r);
    var e: nat, c: nat :| e < run.entries && c < |ChunksOf(stored, run)| && Brings(run.ib, e, c, r);
    ChunkIsInWindow(stored, run, c);
  }

  /** Every stored account has got past the day. */
  ghost predicate AllPast(stored: set<Row>, day: int) {
    forall r :: r in stored ==> LastDay(stored, r.account) > day
  }

  lemma LastDayGrows(stored: set<Row>, after: set<Row>, account: string)
    requires stored <= after
    ensures LastDay(stored, account) <= LastDay(after, account)
  {
    assert DaysOf(stored, account) <= DaysOf(after, account);
  }

  lemma AllPastStays(stored: set<Row>, run: CashRun, day: int)
    requires AllPast(stored, day) && OnlyAskedDays(stored, run) && Start(stored, run) > day
    ensures AllPast(StoredAfter(stored, run), day)
  {
    var after := StoredAfter(stored, run);
    forall r | r in after ensures LastDay(after, r.account) > day {
      StoredDays(after, r);
      LastDayGrows(stored, after, r.account);
      if r !in stored {
        StoresOnlyItsWindow(stored, run, r);
      }
    }
  }

  /** A later run that counts the account and whose default days do not reach the day. */
  ghost predicate LeavesBehind(stored: set<Row>, run: CashRun, account: string, day: int) {
    OnlyAskedDays(stored, run) && Counted(run.flexAccounts, account) && run.today - 1 - Max(1, run.defaultDays) > day
  }

  lemma RunLeavesBehind(stored: set<Row>, run: CashRun, account: string, lost: Row)
    requires LeavesBehind(stored, run, account, lost.day) && AllPast(stored, lost.day) && lost !in stored
    requires DaysOf(stored, account) != {}
    ensures var after := StoredAfter(stored, run);
      lost !in after && AllPast(after, lost.day) && DaysOf(after, account) != {}
  {
    var day :| day in DaysOf(stored, account);
    var r :| r in stored && r.account == account && r.day == day;
    ReachesBack(stored, run, lost.day);
    AllPastStays(stored, run, lost.day);
    if lost in StoredAfter(stored, run) {
      StoresOnlyItsWindow(stored, run, lost);
    }
    StoredDays(StoredAfter(stored, run), r);
  }

  /** Any number of later runs. */
  ghost predicate LaterRuns(after: set<Row>, states: seq<set<Row>>, runs: seq<CashRun>, account: string, day: int) {
    && |states| == |runs| + 1 && states[0] == after
    && forall i {:trigger runs[i]} :: 0 <= i < |runs| ==>
         states[i + 1] == StoredAfter(states[i], runs[i]) && LeavesBehind(states[i], runs[i], account, day)
  }

  /** A hole every account has got past stays a hole for as long as no default days reach it, whatever
      the later runs fetch. */
  lemma {:induction false} HoleStays(states: seq<set<Row>>, runs: seq<CashRun>, account: string, lost: Row, n: nat)
    requires n < |states| && LaterRuns(states[0], states, runs, account, lost.day)
    requires lost !in states[0] && AllPast(states[0], lost.day) && DaysOf(states[0], account) != {}
    ensures lost !in states[n] && AllPast(states[n], lost.day) && DaysOf(states[n], account) != {}
  {
    if n > 0 {
      HoleStays(states, runs, account, lost, n - 1);
      var run := runs[n - 1];
      RunLeavesBehind(states[n - 1], run, account, lost);
    }
  }

  /** A run in which every chunk of the account's query answers and the write goes through. */
  ghost predicate Whole(ledger: set<Row>, stored: set<Row>, run: CashRun, account: string, q: nat) {
    && Honest(ledger, stored, run, account, q)
    && (forall c: nat :: c < |ChunksOf(stored, run)| ==> Answered(run.ib, q, c))
    && Fetched(stored, run).died.None? && WriteWentThrough(Fetched(stored, run), run.written)
  }

  lemma WholeRunFills(ledger: set<Row>, stored: set<Row>, run: CashRun, account: string, q: nat, lost: Row)
    requires Whole(ledger, stored, run, account, q) && lost in ledger && lost.account == account && lost !in stored
    ensures lost in StoredAfter(stored, run) <==> Start(stored, run) <= lost.day <= run.today - 1
  {
    var chunks := ChunksOf(stored, run);
    WindowOrder(stored, run);
    FetchedBrings(stored, run, lost);
    if Start(stored, run) <= lost.day <= run.today - 1 {
      var c := FindChunk(chunks, CHUNK_MAX_SPAN_DAYS, lost.day);
      assert Answered(run.ib, q, c);
      assert Brings(run.ib, q, c, lost);
    } else if lost in Fetched(stored, run).rows {
      var e: nat, c: nat :| e < run.entries && c < |chunks| && Brings(run.ib, e, c, lost);
      ChunkIsInWindow(stored, run, c);
    }
  }

  ghost predicate WholeRuns(ledger: set<Row>, states: seq<set<Row>>, runs: seq<CashRun>, feeds: seq<nat>,
                            account: string) {
    && |states| == |runs| + 1 && |feeds| == |runs|
    && forall i {:trigger runs[i]} :: 0 <= i < |runs| ==>
         states[i + 1] == StoredAfter(states[i], runs[i]) && Whole(ledger, states[i], runs[i], account, feeds[i])
  }

  /** The window of run i reaches the day. */
  ghost predicate Reaches(states: seq<set<Row>>, runs: seq<CashRun>, day: int, i: nat)
    requires i < |runs| && i < |states|
  {
    Start(states[i], runs[i]) <= day <= runs[i].today - 1
  }

  /** That of one of the first `n` runs does. */
  ghost predicate Reached(states: seq<set<Row>>, runs: seq<CashRun>, day: int, n: nat)
    requires n <= |runs| && n <= |states|
  {
    exists i: nat :: i < n && Reaches(states, runs, day, i)
  }

  lemma ReachedSplits(states: seq<set<Row>>, runs: seq<CashRun>, day: int, n: nat)
    requires n < |runs| && n < |states|
    ensures Reached(states, runs, day, n + 1) <==> Reached(states, runs, day, n) || Reaches(states, runs, day, n)
  {
  }

  lemma WholeStepFills(ledger: set<Row>, states: seq<set<Row>>, runs: seq<CashRun>, feeds: seq<nat>,
                       account: string, lost: Row, n: nat)
    requires WholeRuns(ledger, states, runs, feeds, account) && n < |runs| && lost in ledger && lost.account == account
    ensures lost in states[n + 1] <==> lost in states[n] || Reaches(states, runs, lost.day, n)
  {
    var run := runs[n];
    if lost !in states[n] {
      WholeRunFills(ledger, states[n], run, account, feeds[n], lost);
    }
  }

  /** If nothing fails any more, a missing row is stored exactly once some run's window reaches its day;
      when a window does, ReachesBack says. */
  lemma {:induction false} HoleFillsWhenReached(ledger: set<Row>, states: seq<set<Row>>, runs: seq<CashRun>,
                                                feeds: seq<nat>, account: string, lost: Row, n: nat)
    requires WholeRuns(ledger, states, runs, feeds, account) && n < |states|
    requires lost in ledger && lost.account == account && lost !in states[0]
    ensures lost in states[n] <==> Reached(states, runs, lost.day, n)
  {
    if n > 0 {
      HoleFillsWhenReached(ledger, states, runs, feeds, account, lost, n - 1);
      WholeStepFills(ledger, states, runs, feeds, account, lost, n - 1);
      ReachedSplits(states, runs, lost.day, n - 1);
    }
  }

  // A run that leaves one --------------------------------------------------------------------

  const ACCOUNT := "U0000001"

  /** The settings of a run over one account whose only stored row, if any, lies on the anchor day,
      which of its chunks answer, and an older failure i with a newer success j. */
  datatype Loss = Loss(
    today: int, defaultDays: int, initDays: int, anchor: Option<nat>, spanOf: Window -> Span,
    ok: seq<bool>, i: nat, j: nat)

  function StartFor(l: Loss): int {
    match l.anchor
    case None => l.today - 1 - Max(1, l.initDays)
    case Some(day) => Min(day, l.today - 1 - Max(1, l.defaultDays))
  }

  function ChunksFor(l: Loss): seq<Window> {
    Split(StartFor(l), l.today - 1, CHUNK_MAX_SPAN_DAYS)
  }

  /** The window is one of real days, and the failing chunk reaches past what is stored. */
  ghost predicate OlderFails(l: Loss) {
    && StartFor(l) >= 0
    && |l.ok| == |ChunksFor(l)|
    && l.i < l.j < |l.ok| && !l.ok[l.i] && l.ok[l.j]
    && (l.anchor.Some? ==> l.anchor.value < ChunksFor(l)[l.i].to)
  }

  lemma ChunksAreInOrder(l: Loss)
    requires OlderFails(l)
    ensures Consecutive(ChunksFor(l), CHUNK_MAX_SPAN_DAYS)
    ensures StartFor(l) <= ChunksFor(l)[l.i].to < ChunksFor(l)[l.j].to
  {
    var chunks := ChunksFor(l);
    ChunksAreConsecutive(StartFor(l), l.today - 1, CHUNK_MAX_SPAN_DAYS);
    ConsecutiveIsOrdered(chunks, CHUNK_MAX_SPAN_DAYS, l.i, l.j);
    if l.i > 0 {
      ConsecutiveIsOrdered(chunks, CHUNK_MAX_SPAN_DAYS, 0, l.i);
    }
  }

  /** The row stored before, a row of the last day of the failing chunk, and one of the last day of the
      landing one. */
  function Anchored(l: Loss): seq<Row> {
    match l.anchor
    case None => []
    case Some(day) => [Row(ACCOUNT, day, 0)]
  }

  ghost function StoredBefore(l: Loss): set<Row> {
    set r | r in Anchored(l)
  }

  function EndRow(l: Loss, c: nat): Row
    requires c < |ChunksFor(l)|
  {
    Row(ACCOUNT, Max(0, ChunksFor(l)[c].to), 1)
  }

  function Book(l: Loss): seq<Row>
    requires l.i < |ChunksFor(l)| && l.j < |ChunksFor(l)|
  {
    Anchored(l) + [EndRow(l, l.i), EndRow(l, l.j)]
  }

  function RowsIn(book: seq<Row>, w: Window): seq<Row> {
    if book == [] then []
    else (if Covers(w, book[0].day) then [book[0]] else []) + RowsIn(book[1..], w)
  }

  lemma {:induction false} RowsInExact(book: seq<Row>, w: Window)
    ensures forall r :: r in RowsIn(book, w) <==> r in book && Covers(w, r.day)
  {
    if book != [] {
      RowsInExact(book[1..], w);
    }
  }

  /** Chunk c of the one query answers with its rows of the book exactly when ok[c]. */
  function Answers(l: Loss): Ib
    requires l.i < |ChunksFor(l)| && l.j < |ChunksFor(l)| && |l.ok| == |ChunksFor(l)|
  {
    (q: Request) =>
      if q.entry == 0 && !q.widened && q.chunk < |l.ok| && l.ok[q.chunk]
      then Rows(RowsIn(Book(l), ChunksFor(l)[q.chunk]))
      else Rejected(Refused("1003", "Statement is not available."))
  }

  ghost function RunOf(l: Loss): CashRun
    requires OlderFails(l)
  {
    CashRun(l.today, l.defaultDays, l.initDays, {}, 1, Answers(l), l.spanOf, Wrote(1, 0))
  }

  ghost function LedgerOf(l: Loss): set<Row>
    requires OlderFails(l)
  {
    set r | r in Book(l)
  }

  lemma AnchorIsAlone(l: Loss)
    ensures l.anchor.None? ==> StoredBefore(l) == {} && DaysOf(StoredBefore(l), ACCOUNT) == {}
    ensures l.anchor.Some? ==>
      && StoredBefore(l) == {Row(ACCOUNT, l.anchor.value, 0)}
      && DaysOf(StoredBefore(l), ACCOUNT) == {l.anchor.value} && LastDay(StoredBefore(l), ACCOUNT) == l.anchor.value
  {
    if l.anchor.Some? {
      assert StoredBefore(l) == {Row(ACCOUNT, l.anchor.value, 0)};
      assert DaysOf(StoredBefore(l), ACCOUNT) == {l.anchor.value};
    }
  }

  lemma AnchoredWindow(l: Loss)
    requires OlderFails(l)
    ensures Start(StoredBefore(l), RunOf(l)) == StartFor(l)
    ensures ChunksOf(StoredBefore(l), RunOf(l)) == ChunksFor(l)
  {
    AnchorIsAlone(l);
    ReachesBack(StoredBefore(l), RunOf(l), StartFor(l));
    ReachesBack(StoredBefore(l), RunOf(l), StartFor(l) - 1);
    if l.anchor.Some? {
      assert Row(ACCOUNT, l.anchor.value, 0) in StoredBefore(l) && Counted({}, ACCOUNT);
    }
  }

  lemma AnchorIsGapless(l: Loss)
    requires OlderFails(l) && l.anchor.Some?
    ensures Gapless(LedgerOf(l), StoredBefore(l), ACCOUNT, StartFor(l))
  {
    AnchorIsAlone(l);
    ChunksAreInOrder(l);
  }

  lemma AnswersAre(l: Loss, c: nat)
    requires OlderFails(l) && c < |l.ok|
    ensures Answered(Answers(l), 0, c) <==> l.ok[c]
    ensures forall r :: Brings(Answers(l), 0, c, r) <==> l.ok[c] && r in Book(l) && Covers(ChunksFor(l)[c], r.day)
  {
    RowsInExact(Book(l), ChunksFor(l)[c]);
  }

  lemma BookIsHonest(l: Loss)
    requires OlderFails(l)
    ensures Honest(LedgerOf(l), StoredBefore(l), RunOf(l), ACCOUNT, 0)
    ensures OnlyAskedDays(StoredBefore(l), RunOf(l))
  {
    AnchoredWindow(l);
    forall c: nat | c < |ChunksFor(l)|
      ensures forall r :: Brings(Answers(l), 0, c, r) <==> l.ok[c] && r in Book(l) && Covers(ChunksFor(l)[c], r.day)
    {
      AnswersAre(l, c);
    }
  }

  lemma NothingDies(ib: Ib, f: Form, n: nat)
    requires forall q :: !ib(q).Broken?
    ensures AfterEntries(ib, f, n).died.None?
  {
    EntriesRecorded(ib, f, n, n);
  }

  /** What the run fetches of the book: all of it but the row of the failing chunk. */
  lemma FetchedIs(l: Loss, r: Row)
    requires OlderFails(l)
    ensures Fetched(StoredBefore(l), RunOf(l)).died.None?
    ensures r in Fetched(StoredBefore(l), RunOf(l)).rows <==>
      r in Book(l) && exists c: nat :: c < |l.ok| && l.ok[c] && Covers(ChunksFor(l)[c], r.day)
  {
    AnchoredWindow(l);
    NothingDies(Answers(l), FormOf(ChunksFor(l), l.spanOf), 1);
    FetchedBrings(StoredBefore(l), RunOf(l), r);
    forall c: nat | c < |l.ok|
      ensures Brings(Answers(l), 0, c, r) <==> l.ok[c] && r in Book(l) && Covers(ChunksFor(l)[c], r.day)
    {
      AnswersAre(l, c);
    }
  }

  lemma OldRowIsMissed(l: Loss)
    requires OlderFails(l)
    ensures EndRow(l, l.i) !in StoredAfter(StoredBefore(l), RunOf(l))
  {
    ChunksAreInOrder(l);
    var chunks := ChunksFor(l);
    FetchedIs(l, EndRow(l, l.i));
    forall c: nat | c < |l.ok| && Covers(chunks[c], EndRow(l, l.i).day) ensures c == l.i {
      if c < l.i {
        ConsecutiveIsOrdered(chunks, CHUNK_MAX_SPAN_DAYS, c, l.i);
      } else if l.i < c {
        ConsecutiveIsOrdered(chunks, CHUNK_MAX_SPAN_DAYS, l.i, c);
      }
    }
  }

  lemma NewRowLands(l: Loss)
    requires OlderFails(l)
    ensures EndRow(l, l.j) in StoredAfter(StoredBefore(l), RunOf(l))
  {
    ChunksAreInOrder(l);
    FetchedIs(l, EndRow(l, l.j));
    assert Covers(ChunksFor(l)[l.j], EndRow(l, l.j).day);
    assert EndRow(l, l.j) in Book(l);
  }

  lemma OnlyTheAccount(l: Loss)
    requires OlderFails(l)
    ensures forall r :: r in StoredAfter(StoredBefore(l), RunOf(l)) ==> r.account == ACCOUNT
  {
    forall r | r in StoredAfter(StoredBefore(l), RunOf(l)) ensures r.account == ACCOUNT {
      FetchedIs(l, r);
    }
  }

  lemma HoleIsPassed(l: Loss)
    requires OlderFails(l)
    ensures var after := StoredAfter(StoredBefore(l), RunOf(l));
      && AllPast(after, EndRow(l, l.i).day) && DaysOf(after, ACCOUNT) != {}
      && StartFor(l) <= EndRow(l, l.i).day < MaxOf(DaysOf(after, ACCOUNT))
  {
    ChunksAreInOrder(l);
    NewRowLands(l);
    OnlyTheAccount(l);
    StoredDays(StoredAfter(StoredBefore(l), RunOf(l)), EndRow(l, l.j));
  }

  /** A ledger row between `first` and the account's last stored day that is not stored, and that no
      number of later runs stores as long as their default days do not reach it. */
  ghost predicate LostForGood(ledger: set<Row>, after: set<Row>, account: string, first: int, lost: Row) {
    && lost in ledger && lost.account == account && lost !in after && DaysOf(after, account) != {}
    && first <= lost.day < MaxOf(DaysOf(after, account))
    && forall states, runs :: LaterRuns(after, states, runs, account, lost.day) ==> lost !in states[|runs|]
  }

  lemma RunLosesIt(l: Loss)
    requires OlderFails(l)
    ensures LostForGood(LedgerOf(l), StoredAfter(StoredBefore(l), RunOf(l)), ACCOUNT, StartFor(l), EndRow(l, l.i))
  {
    var after, lost := StoredAfter(StoredBefore(l), RunOf(l)), EndRow(l, l.i);
    OldRowIsMissed(l);
    HoleIsPassed(l);
    assert lost in Book(l);
    forall states, runs | LaterRuns(after, states, runs, ACCOUNT, lost.day) ensures lost !in states[|runs|] {
      HoleStays(states, runs, ACCOUNT, lost, |runs|);
    }
  }

  lemma LostIsAHole(ledger: set<Row>, after: set<Row>, account: string, first: int, lost: Row)
    requires LostForGood(ledger, after, account, first, lost)
    ensures !Gapless(ledger, after, account, first)
  {
  }

  /** For every window of several chunks, a first one or a later one, and every pattern of failures in
      which a chunk with days past the stored ones fails and a newer one lands, there is a ledger on
      which an honest run loses a day for good. */
  lemma OlderFailureLosesADay(l: Loss) returns (ledger: set<Row>, stored: set<Row>, run: CashRun, lost: Row)
    requires OlderFails(l)
    ensures (run.today, run.defaultDays, run.initDays, run.flexAccounts) == (l.today, l.defaultDays, l.initDays, {})
    ensures Start(stored, run) == StartFor(l) && ChunksOf(stored, run) == ChunksFor(l)
    ensures if l.anchor.None? then stored == {} else Gapless(ledger, stored, ACCOUNT, StartFor(l))
    ensures Honest(ledger, stored, run, ACCOUNT, 0)
    ensures forall c: nat :: c < |l.ok| ==> (Answered(run.ib, 0, c) <==> l.ok[c])
    ensures !FailuresAreLast(stored, run, ACCOUNT, 0)
    ensures LostForGood(ledger, StoredAfter(stored, run), ACCOUNT, StartFor(l), lost)
    ensures !Gapless(ledger, StoredAfter(stored, run), ACCOUNT, StartFor(l))
  {
    ledger, stored, run, lost := LedgerOf(l), StoredBefore(l), RunOf(l), EndRow(l, l.i);
    AnchoredWindow(l);
    AnchorIsAlone(l);
    if l.anchor.Some? {
      AnchorIsGapless(l);
    }
    BookIsHonest(l);
    forall c: nat | c < |l.ok| ensures Answered(Answers(l), 0, c) <==> l.ok[c] {
      AnswersAre(l, c);
    }
    assert LastDay(stored, ACCOUNT) < ChunksFor(l)[l.i].to by {
      ChunksAreInOrder(l);
    }
    RunLosesIt(l);
    LostIsAHole(ledger, StoredAfter(stored, run), ACCOUNT, StartFor(l), lost);
  }
}
