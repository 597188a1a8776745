/** orchestration/transactions.py: the entry x chunk loop of a cash run and its answer. */
module CashFetch {
  import opened Prelude
  import opened Retry
  import opened Handlers
  import opened FlexClient

  datatype Row = Row(account: string, day: nat, txn: int)

  /** IB's answer to one request: rows, a ValueError, or any other exception. */
  datatype Answer = Rows(rows: seq<Row>) | Rejected(why: Refusal) | Broken(message: string)

  /** One request of a run; `widened` drops the dates (the query's default period). */
  datatype Request = Request(entry: nat, chunk: nat, widened: bool)

  type Ib = Request -> Answer

  /** The two dates of a chunk as they are sent. */
  datatype Span = Span(from: string, to: string)

  /** How a run asks: the spans of its chunks, whether both dates are set, whether it may widen. */
  datatype Form = Form(spans: seq<Span>, dated: bool, allowFallback: bool)

  datatype Reply = Got(rows: seq<Row>) | Failed(text: string) | Died(message: string)

  const FALLBACK_FAILED := "; fallback query-default failed: "

  // What a chunk comes to, in IB's answers alone -------------------------------------

  /** The request without dates is sent: fallback allowed, one chunk, both dates set, and a refusal that
      the statement is not available. */
  predicate Widens(ib: Ib, f: Form, e: nat, c: nat) {
    && f.allowFallback && |f.spans| == 1 && f.dated
    && ib(Request(e, c, false)).Rejected?
    && (|| Contains(Message(ib(Request(e, c, false)).why), "[1003]")
        || Contains(Message(ib(Request(e, c, false)).why), "Statement is not available"))
  }

  predicate IsAnswered(ib: Ib, f: Form, e: nat, c: nat) {
    ib(Request(e, c, false)).Rows? || (Widens(ib, f, e, c) && ib(Request(e, c, true)).Rows?)
  }

  function RowsSent(ib: Ib, f: Form, e: nat, c: nat): seq<Row>
    requires IsAnswered(ib, f, e, c)
  {
    if ib(Request(e, c, false)).Rows? then ib(Request(e, c, false)).rows else ib(Request(e, c, true)).rows
  }

  /** Some exception other than a refusal. */
  predicate Breaks(ib: Ib, f: Form, e: nat, c: nat) {
    ib(Request(e, c, false)).Broken? || (Widens(ib, f, e, c) && ib(Request(e, c, true)).Broken?)
  }

  function BreakText(ib: Ib, f: Form, e: nat, c: nat): string
    requires Breaks(ib, f, e, c)
  {
    if ib(Request(e, c, false)).Broken? then ib(Request(e, c, false)).message else ib(Request(e, c, true)).message
  }

  /** The text a chunk that is neither answered nor broken fails with. */
  function FailureText(ib: Ib, f: Form, e: nat, c: nat): string
    requires !IsAnswered(ib, f, e, c) && !Breaks(ib, f, e, c)
  {
    var first := Message(ib(Request(e, c, false)).why);
    if Widens(ib, f, e, c) then first + "; fallback query-default failed: " + Message(ib(Request(e, c, true)).why)
    else first
  }

  /** What _fetch_chunk comes to. */
  function ChunkReply(ib: Ib, f: Form, e: nat, c: nat): Reply {
    match ib(Request(e, c, false))
    case Rows(rows) => Got(rows)
    case Broken(m) => Died(m)
    case Rejected(why) =>
      if f.allowFallback && |f.spans| == 1 && f.dated && Unavailable(Message(why)) then
        match ib(Request(e, c, true))
        case Rows(rows) => Got(rows)
        case Broken(m) => Died(m)
        case Rejected(why2) => Failed(Message(why) + FALLBACK_FAILED + Message(why2))
      else Failed(Message(why))
  }

  /** Which is said here of IB's answers alone. */
  lemma ChunkReplyIs(ib: Ib, f: Form, e: nat, c: nat)
    ensures var r := ChunkReply(ib, f, e, c);
      && (r.Got? <==> IsAnswered(ib, f, e, c))
      && (r.Got? ==> r.rows == RowsSent(ib, f, e, c))
      && (r.Died? <==> Breaks(ib, f, e, c))
      && (r.Died? ==> r.message == BreakText(ib, f, e, c))
      && (r.Failed? ==> r.text == FailureText(ib, f, e, c))
  {
  }

  datatype Sink = Sink(rows: seq<Row>, errors: seq<string>, died: Option<string>)

  const EMPTY := Sink([], [], None)

  function ErrorText(f: Form, c: nat, text: string): string
    requires c < |f.spans|
  {
    if |f.spans| == 1 then text else f.spans[c].from + ".." + f.spans[c].to + ": " + text
  }

  /** `if err: errors.append(...)`: an empty error text is not an error. */
  function Feed(f: Form, s: Sink, c: nat, r: Reply): Sink
    requires c < |f.spans|
  {
    match r
    case Got(rows) => s.(rows := s.rows + rows)
    case Failed(text) => if text == "" then s else s.(errors := s.errors + [ErrorText(f, c, text)])
    case Died(m) => s.(died := Some(m))
  }

  function AfterChunks(ib: Ib, f: Form, e: nat, n: nat, s: Sink): Sink
    requires n <= |f.spans|
  {
    if n == 0 then s
    else
      var before := AfterChunks(ib, f, e, n - 1, s);
      if before.died.Some? then before else Feed(f, before, n - 1, ChunkReply(ib, f, e, n - 1))
  }

  function AfterEntries(ib: Ib, f: Form, n: nat): Sink {
    if n == 0 then EMPTY
    else
      var before := AfterEntries(ib, f, n - 1);
      if before.died.Some? then before else AfterChunks(ib, f, n - 1, |f.spans|, before)
  }

  /** _fetch_chunk: rows go to the sink, a failure comes back as its text. */
  method FetchChunk(ib: Ib, f: Form, e: nat, c: nat, sink: seq<Row>)
    returns (rows: seq<Row>, err: Option<string>, died: Option<string>)
    ensures |rows| >= |sink| && rows[..|sink|] == sink
    ensures ChunkReply(ib, f, e, c) ==
            if died.Some? then Died(died.value) else if err.Some? then Failed(err.value) else Got(rows[|sink|..])
    ensures err.Some? || died.Some? ==> rows == sink
    ensures died.Some? <==> Breaks(ib, f, e, c)
    ensures died.Some? ==> died.value == BreakText(ib, f, e, c)
    ensures err.None? && died.None? <==> IsAnswered(ib, f, e, c)
    ensures IsAnswered(ib, f, e, c) ==> rows == sink + RowsSent(ib, f, e, c)
    ensures err.Some? ==>
              !Breaks(ib, f, e, c) && !IsAnswered(ib, f, e, c) && err.value == FailureText(ib, f, e, c)
  {
    ChunkReplyIs(ib, f, e, c);
    rows, err, died := sink, None, None;
    match ib(Request(e, c, false)) {
      case Rows(got) => rows := sink + got;
      case Broken(m) => died := Some(m);
      case Rejected(why) =>
        if f.allowFallback && |f.spans| == 1 && f.dated && Unavailable(Message(why)) {
          match ib(Request(e, c, true)) {
            case Rows(got) => rows := sink + got;
            case Broken(m) => died := Some(m);
            case Rejected(why2) => err := Some(Message(why) + FALLBACK_FAILED + Message(why2));
          }
        } else {
          err := Some(Message(why));
        }
    }
  }

  /** The loop of fetch_cash_transactions_from_flex; an exception other than ValueError ends the run. */
  method FetchAll(ib: Ib, f: Form, entries: nat) returns (sink: Sink)
    ensures sink == AfterEntries(ib, f, entries)
  {
    sink := EMPTY;
    for e := 0 to entries
      invariant sink == AfterEntries(ib, f, e)
      invariant sink.died.None?
    {
      ghost var atEntry := sink;
      for c := 0 to |f.spans|
        invariant sink == AfterChunks(ib, f, e, c, atEntry)
        invariant sink.died.None?
      {
        var rows, err, died := FetchChunk(ib, f, e, c, sink.rows);
        if died.Some? {
          sink := sink.(died := died);
          DeathEnds(ib, f, e, c + 1, atEntry);
          DeathEndsRun(ib, f, e + 1, entries);
          return;
        }
        assert rows == sink.rows + rows[|sink.rows|..];
        sink := sink.(rows := rows);
        if err.Some? && err.value != "" {
          sink := sink.(errors := sink.errors + [ErrorText(f, c, err.value)]);
        }
      }
    }
  }

  lemma {:induction false} DeathEnds(ib: Ib, f: Form, e: nat, n: nat, s: Sink)
    requires n <= |f.spans| && AfterChunks(ib, f, e, n, s).died.Some?
    ensures AfterChunks(ib, f, e, |f.spans|, s) == AfterChunks(ib, f, e, n, s)
    decreases |f.spans| - n
  {
    if n < |f.spans| {
      DeathEnds(ib, f, e, n + 1, s);
    }
  }

  lemma {:induction false} DeathEndsRun(ib: Ib, f: Form, n: nat, entries: nat)
    requires n <= entries && AfterEntries(ib, f, n).died.Some?
    ensures AfterEntries(ib, f, entries) == AfterEntries(ib, f, n)
    decreases entries - n
  {
    if n < entries {
      DeathEndsRun(ib, f, n + 1, entries);
    }
  }

  // The answer --------------------------------------------------------------------

  datatype Written = Wrote(written: nat, skipped: nat) | WriteRaised(message: string)

  /** `setup` is an error before the first request: no Postgres, no connection, a failed read. */
  function CashResult(setup: Option<string>, entries: nat, s: Sink, w: Written): Result {
    if setup.Some? then Result(No, setup.value, [], 0)
    else if entries == 0 then Result(No, "No Flex credentials for cash_transactions", [], 0)
    else if s.died.Some? then Result(No, s.died.value, [], 0)
    else if s.errors != [] && s.rows == [] then Result(No, Join("; ", s.errors), [], 0)
    else if s.rows == [] then Result(Yes, "", s.errors, 0)
    else match w
      case WriteRaised(m) => Result(No, m, [], 0)
      case Wrote(written, skipped) =>
        if written == 0 then Result(No, "Parsed cash transactions but wrote 0", [], 0)
        else Result(Yes, "", s.errors, written)
  }

  // Done means complete ------------------------------------------------------------

  predicate WriteWentThrough(s: Sink, w: Written) {
    s.rows == [] || (w.Wrote? && w.written > 0)
  }

  /** A failure of request (e, c) is on record. */
  ghost predicate Recorded(f: Form, s: Sink, c: nat, r: Reply)
    requires c < |f.spans|
  {
    match r
    case Got(_) => true
    case Died(_) => s.died.Some?
    case Failed(text) => text == "" || ErrorText(f, c, text) in s.errors
  }

  ghost predicate Asked(ib: Ib, f: Form, entries: nat, x: string) {
    exists e: nat, c: nat {:trigger ChunkReply(ib, f, e, c)} ::
      e < entries && c < |f.spans| && ChunkReply(ib, f, e, c).Failed?
      && ChunkReply(ib, f, e, c).text != "" && x == ErrorText(f, c, ChunkReply(ib, f, e, c).text)
  }

  /** After `n` chunks of entry `e`, everything that happened is on record, and nothing else. */
  lemma {:induction false} ChunksRecorded(ib: Ib, f: Form, e: nat, n: nat, s: Sink, entries: nat)
    requires n <= |f.spans| && s.died.None? && e < entries
    requires forall x :: x in s.errors ==> Asked(ib, f, entries, x)
    ensures var t := AfterChunks(ib, f, e, n, s);
      && (t.died.None? ==> forall c: nat :: c < n ==>
        Recorded(f, t, c, ChunkReply(ib, f, e, c)) && !ChunkReply(ib, f, e, c).Died?)
      && (t.died.Some? ==> exists c: nat :: c < n && ChunkReply(ib, f, e, c).Died?)
      && (forall x :: x in s.errors ==> x in t.errors)
      && (forall x :: x in t.errors ==> Asked(ib, f, entries, x))
  {
    if n > 0 {
      ChunksRecorded(ib, f, e, n - 1, s, entries);
      var before := AfterChunks(ib, f, e, n - 1, s);
      if before.died.None? {
        var r := ChunkReply(ib, f, e, n - 1);
        var t := Feed(f, before, n - 1, r);
        assert forall x :: x in before.errors ==> x in t.errors;
        if r.Failed? && r.text != "" {
          assert Asked(ib, f, entries, ErrorText(f, n - 1, r.text));
        }
      }
    }
  }

  lemma {:induction false} EntriesRecorded(ib: Ib, f: Form, n: nat, entries: nat)
    requires n <= entries
    ensures var t := AfterEntries(ib, f, n);
      && (t.died.None? ==> forall e: nat, c: nat :: e < n && c < |f.spans| ==>
            Recorded(f, t, c, ChunkReply(ib, f, e, c)) && !ChunkReply(ib, f, e, c).Died?)
      && (t.died.Some? ==> exists e: nat, c: nat :: e < n && c < |f.spans| && ChunkReply(ib, f, e, c).Died?)
      && (forall x :: x in t.errors ==> Asked(ib, f, entries, x))
  {
    if n > 0 {
      EntriesRecorded(ib, f, n - 1, entries);
      var before := AfterEntries(ib, f, n - 1);
      if before.died.None? {
        ChunksRecorded(ib, f, n - 1, |f.spans|, before, entries);
      }
    }
  }

  /** Every failure has a text that says something, so none goes unseen. */
  lemma FailureSpeaks(ib: Ib, f: Form, e: nat, c: nat)
    requires c < |f.spans| && ChunkReply(ib, f, e, c).Failed?
    ensures !Blank(ChunkReply(ib, f, e, c).text) && !Blank(ErrorText(f, c, ChunkReply(ib, f, e, c).text))
  {
    var m := Message(ib(Request(e, c, false)).why);
    MessageSpeaks(ib(Request(e, c, false)).why);
    var i :| 0 <= i < |m| && !IsSpace(m[i]);
    var text := ChunkReply(ib, f, e, c).text;
    assert text[i] == m[i];
    if |f.spans| != 1 {
      assert ErrorText(f, c, text)[|f.spans[c].from|] == '.';
    }
  }

  /** Nothing on record speaks against the run. */
  predicate Clean(s: Sink) {
    s.died.None? && Spoken(s.errors) == [] && (s.errors == [] || s.rows != [])
  }

  lemma DoneIsClean(setup: Option<string>, entries: nat, s: Sink, w: Written, kind: string)
    ensures RequireOk(CashResult(setup, entries, s, w), kind).Done? <==>
      setup.None? && entries > 0 && Clean(s) && WriteWentThrough(s, w)
  {
  }

  ghost predicate AllAnswered(ib: Ib, f: Form, entries: nat) {
    forall e: nat, c: nat :: e < entries && c < |f.spans| ==> IsAnswered(ib, f, e, c)
  }

  lemma CleanIsAnswered(ib: Ib, f: Form, entries: nat)
    ensures Clean(AfterEntries(ib, f, entries)) <==> AllAnswered(ib, f, entries)
  {
    var s := AfterEntries(ib, f, entries);
    EntriesRecorded(ib, f, entries, entries);
    SpokenEmpty(s.errors);
    if Clean(s) {
      forall e: nat, c: nat | e < entries && c < |f.spans| ensures IsAnswered(ib, f, e, c) {
        var r := ChunkReply(ib, f, e, c);
        ChunkReplyIs(ib, f, e, c);
        assert Recorded(f, s, c, r);
        if r.Failed? {
          FailureSpeaks(ib, f, e, c);
        }
      }
    } else if s.died.None? {
      var x :| x in s.errors && (!Blank(x) || s.rows == []);
      assert Asked(ib, f, entries, x);
      var e: nat, c: nat :| e < entries && c < |f.spans| && ChunkReply(ib, f, e, c).Failed?
        && ChunkReply(ib, f, e, c).text != "" && x == ErrorText(f, c, ChunkReply(ib, f, e, c).text);
      ChunkReplyIs(ib, f, e, c);
    } else {
      var e: nat, c: nat :| e < entries && c < |f.spans| && ChunkReply(ib, f, e, c).Died?;
      ChunkReplyIs(ib, f, e, c);
    }
  }

  /** IB sent no row for the first `n` chunks of query `e`. */
  ghost predicate NothingFrom(ib: Ib, f: Form, e: nat, n: nat) {
    forall c: nat :: c < n && IsAnswered(ib, f, e, c) ==> RowsSent(ib, f, e, c) == []
  }

  /** IB sent no row at all. */
  ghost predicate NothingSent(ib: Ib, f: Form, entries: nat) {
    forall e: nat :: e < entries ==> NothingFrom(ib, f, e, |f.spans|)
  }

  /** What a cash attempt has to come to: no error before the first request, some query configured,
      every query and every chunk of it answered, and what there was to write was written. */
  ghost predicate Complete(ib: Ib, f: Form, setup: Option<string>, entries: nat, w: Written) {
    && setup.None? && entries > 0
    && AllAnswered(ib, f, entries)
    && (NothingSent(ib, f, entries) || (w.Wrote? && w.written > 0))
  }

  lemma {:induction false} ChunksSend(ib: Ib, f: Form, e: nat, n: nat, s: Sink)
    requires n <= |f.spans| && AfterChunks(ib, f, e, n, s).died.None?
    ensures s.died.None? || n == 0
    ensures AfterChunks(ib, f, e, n, s).rows == [] <==>
      s.rows == [] && NothingFrom(ib, f, e, n)
  {
    if n > 0 {
      ChunksSend(ib, f, e, n - 1, s);
      ChunkReplyIs(ib, f, e, n - 1);
    }
  }

  lemma {:induction false} ChunksDie(ib: Ib, f: Form, e: nat, n: nat, s: Sink)
    requires n <= |f.spans| && s.died.None?
    ensures var died := AfterChunks(ib, f, e, n, s).died;
      && (died.None? <==> forall c: nat :: c < n ==> !Breaks(ib, f, e, c))
      && (died.Some? ==> exists c: nat :: c < n && Breaks(ib, f, e, c) && died.value == BreakText(ib, f, e, c))
  {
    if n > 0 {
      ChunksDie(ib, f, e, n - 1, s);
      ChunkReplyIs(ib, f, e, n - 1);
    }
  }

  /** A run that an exception ends carries the text of such a one. */
  lemma {:induction false} EntriesDie(ib: Ib, f: Form, n: nat)
    ensures var died := AfterEntries(ib, f, n).died;
      && (died.None? <==> forall e: nat, c: nat :: e < n && c < |f.spans| ==> !Breaks(ib, f, e, c))
      && (died.Some? ==> exists e: nat, c: nat ::
            e < n && c < |f.spans| && Breaks(ib, f, e, c) && died.value == BreakText(ib, f, e, c))
  {
    if n > 0 {
      EntriesDie(ib, f, n - 1);
      var before := AfterEntries(ib, f, n - 1);
      if before.died.None? {
        ChunksDie(ib, f, n - 1, |f.spans|, before);
      }
    }
  }

  lemma {:induction false} ChunksHold(ib: Ib, f: Form, e: nat, n: nat, s: Sink, r: Row)
    requires n <= |f.spans| && AfterChunks(ib, f, e, n, s).died.None?
    ensures s.died.None? || n == 0
    ensures r in AfterChunks(ib, f, e, n, s).rows <==>
      r in s.rows || exists c: nat :: c < n && IsAnswered(ib, f, e, c) && r in RowsSent(ib, f, e, c)
  {
    if n > 0 {
      ChunksHold(ib, f, e, n - 1, s, r);
      ChunkReplyIs(ib, f, e, n - 1);
    }
  }

  /** The rows of a run that ends are exactly those IB sent in its answers. */
  lemma {:induction false} EntriesHold(ib: Ib, f: Form, n: nat, r: Row)
    requires AfterEntries(ib, f, n).died.None?
    ensures r in AfterEntries(ib, f, n).rows <==>
      exists e: nat, c: nat :: e < n && c < |f.spans| && IsAnswered(ib, f, e, c) && r in RowsSent(ib, f, e, c)
  {
    if n > 0 {
      EntriesHold(ib, f, n - 1, r);
      ChunksHold(ib, f, n - 1, |f.spans|, AfterEntries(ib, f, n - 1), r);
    }
  }

  /** A run that ends has rows exactly when IB sent some. */
  lemma {:induction false} EntriesSend(ib: Ib, f: Form, n: nat)
    requires AfterEntries(ib, f, n).died.None?
    ensures AfterEntries(ib, f, n).rows == [] <==> NothingSent(ib, f, n)
  {
    if n > 0 {
      EntrySends(ib, f, n - 1);
      EntriesSend(ib, f, n - 1);
    }
  }

  lemma EntrySends(ib: Ib, f: Form, e: nat)
    requires AfterEntries(ib, f, e + 1).died.None?
    ensures AfterEntries(ib, f, e).died.None?
    ensures (AfterEntries(ib, f, e).rows == [] <==> NothingSent(ib, f, e)) ==>
              (AfterEntries(ib, f, e + 1).rows == [] <==> NothingSent(ib, f, e + 1))
  {
    ChunksSend(ib, f, e, |f.spans|, AfterEntries(ib, f, e));
    NothingSplits(ib, f, e);
  }

  lemma NothingSplits(ib: Ib, f: Form, n: nat)
    ensures NothingSent(ib, f, n + 1) <==> NothingSent(ib, f, n) && NothingFrom(ib, f, n, |f.spans|)
  {
    if NothingSent(ib, f, n) && NothingFrom(ib, f, n, |f.spans|) {
      forall e: nat | e < n + 1 ensures NothingFrom(ib, f, e, |f.spans|) {
      }
    }
  }

  /** Exactly then its handler returns. */
  lemma DoneExactly(ib: Ib, f: Form, setup: Option<string>, entries: nat, w: Written, kind: string)
    ensures RequireOk(CashResult(setup, entries, AfterEntries(ib, f, entries), w), kind).Done? <==>
      Complete(ib, f, setup, entries, w)
    ensures Complete(ib, f, setup, entries, w) ==>
      RequireOk(CashResult(setup, entries, AfterEntries(ib, f, entries), w), kind) ==
      Done(if NothingSent(ib, f, entries) then 0 else w.written)
  {
    DoneIsClean(setup, entries, AfterEntries(ib, f, entries), w, kind);
    CleanIsAnswered(ib, f, entries);
    if AfterEntries(ib, f, entries).died.None? {
      EntriesSend(ib, f, entries);
    }
  }

  /** Done means complete: a queued attempt returns exactly when it is complete and the freshness row
      could be reached and written as well. */
  lemma DoneMeansComplete(ib: Ib, f: Form, setup: Option<string>, entries: nat, w: Written, kind: string,
                          connectError: Option<string>, recordError: Option<string>)
    ensures var v := RequireOk(CashResult(setup, entries, AfterEntries(ib, f, entries), w), kind);
      Dispatch(connectError, v, recordError).Done? <==>
        connectError.None? && recordError.None? && Complete(ib, f, setup, entries, w)
  {
    DoneExactly(ib, f, setup, entries, w, kind);
  }

  /** That rests on the texts: the loop takes a chunk that fails with an empty one for a chunk that did
      not fail, and the attempt would be done with nothing fetched. */
  lemma SilentFailureIsDone(f: Form, kind: string)
    requires |f.spans| == 1
    ensures var s := Feed(f, EMPTY, 0, Failed(""));
      RequireOk(CashResult(None, 1, s, Wrote(0, 0)), kind) == Done(0)
  {
  }
}
